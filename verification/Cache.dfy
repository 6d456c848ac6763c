/** internal/cache/url_cache.go: resolved rows kept in Redis under a time to live. */
module Cache {
  import opened Common
  import opened Schema

  const CACHE_TTL := 60 * SECOND

  /** A cached row, and when Redis drops it. */
  datatype Entry = Entry(row: Row, deadline: int)

  type Entries = map<string, Entry>

  predicate IsLive(es: Entries, code: string, now: int) {
    code in es && now < es[code].deadline
  }

  /** min(60 s, what is left of the link's life). */
  function Ttl(row: Row, now: int): int {
    if row.expiresAt.Some? && row.expiresAt.value - now < CACHE_TTL then row.expiresAt.value - now else CACHE_TTL
  }

  function Lookup(es: Entries, code: string, now: int): Option<Row> {
    if IsLive(es, code, now) then Some(es[code].row) else None
  }

  /** SET with a time to live that was worked out at `sized` and starts to run at `now`. */
  function Store(es: Entries, code: string, row: Row, sized: int, now: int): Entries {
    if Ttl(row, sized) <= 0 then es else es[code := Entry(row, now + Ttl(row, sized))]
  }

  function Drop(es: Entries, code: string): Entries {
    es - {code}
  }

  class URLCache {
    var entries: Entries

    constructor ()
      ensures entries == map[]
    {
      entries := map[];
    }

    /** None is an error, Some(None) a miss. */
    method Get(code: string, now: int, out: Outcome) returns (r: Option<Option<Row>>)
      ensures r == if out == Ok then Some(Lookup(entries, code, now)) else None
      ensures out == Ok ==> r == Some(if code in entries && now < entries[code].deadline then Some(entries[code].row)
                                      else None)
    {
      if out != Ok { return None; }
      if code in entries && now < entries[code].deadline { return Some(Some(entries[code].row)); }
      return Some(None);
    }

    method Set(code: string, row: Row, sized: int, now: int, out: Outcome) returns (ok: bool)
      modifies this
      ensures entries == if out == Fail then old(entries) else Store(old(entries), code, row, sized, now)
      ensures ok <==> out == Ok || (row.expiresAt.Some? && row.expiresAt.value <= sized)
      ensures entries - {code} == old(entries) - {code}
      ensures out != Fail && row.expiresAt.None? ==> entries == old(entries)[code := Entry(row, now + 60 * SECOND)]
      ensures out != Fail && row.expiresAt.Some? ==>
        var left := row.expiresAt.value - sized;
        entries == if left <= 0 then old(entries)
                   else old(entries)[code := Entry(row, now + if left < 60 * SECOND then left else 60 * SECOND)]
    {
      var ttl := CACHE_TTL;
      if row.expiresAt.Some? {
        var remain := row.expiresAt.value - sized;
        if remain < ttl { ttl := remain; }
      }
      if ttl <= 0 { return true; }
      if out == Fail { return false; }
      entries := entries[code := Entry(row, now + ttl)];
      return out == Ok;
    }

    method Delete(code: string, out: Outcome) returns (ok: bool)
      modifies this
      ensures entries == if out == Fail then old(entries) else old(entries) - {code}
      ensures ok <==> out == Ok
    {
      if out == Fail { return false; }
      entries := entries - {code};
      return out == Ok;
    }
  }
}
