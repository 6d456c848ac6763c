/** internal/service/url.go and internal/idempotency/store.go as programs, one request at a time.
    Overlapping requests are the subject of Idempotency, Staleness and CodeSpace. */
module Service {
  import opened Common
  import opened Schema
  import opened Cache
  import opened Resolver
  import CodeSpace
  import Base62
  import I = Idempotency

  const MAX_KEY := 256
  const WAIT_STEP := SECOND / 5

  datatype CreateError = BadCode | CodeTaken | Collision | Internal | KeyTooLong | Gone | InFlight

  datatype Result = Made(row: Row) | Again(row: Row) | Failed(error: CreateError)

  /** How the store calls of one createOne end. */
  datatype StoreCalls = StoreCalls(insert: Outcome, assign: Outcome, read: Outcome)

  /** How the Redis calls of one createIdempotent end. */
  datatype IdemCalls = IdemCalls(first: Outcome, claim: Outcome, record: Outcome, release: Outcome)

  /** Of what other requests Set during the pauses up to the i-th, the latest came during pause j. */
  predicate Latest(others: nat -> Option<I.Stamp>, i: nat, j: nat) {
    j <= i && others(j).Some? && forall k | j < k <= i :: others(k).None?
  }

  /** Poll i, at the end of pause i, answers and finds what was Set during pause j, still alive. */
  predicate Finds(others: nat -> Option<I.Stamp>, polls: nat -> Outcome, now: int, i: nat, j: nat) {
    Latest(others, i, j) && polls(i) == Ok && now + (i + 1) * SECOND / 5 < others(j).value.deadline
  }

  /** A waiter polls five times, a fifth of a second apart: the first poll that finds a code decides, and without
      one it gives up. */
  ghost predicate Awaited(db: Db, others: nat -> Option<I.Stamp>, polls: nat -> Outcome, now: int, replay: Outcome,
                          r: Result)
  {
    && (r == Failed(InFlight) <==> forall i: nat, j: nat | i < 5 :: !Finds(others, polls, now, i, j))
    && forall i: nat, j: nat |
         && i < 5 && Finds(others, polls, now, i, j)
         && forall h: nat, g: nat | h < i :: !Finds(others, polls, now, h, g) ::
         r == Replayed(db, others(j).value.code, replay)
  }

  lemma FirstFindDecides(db: Db, others: nat -> Option<I.Stamp>, polls: nat -> Outcome, now: int, replay: Outcome,
                         i: nat, j: nat)
    requires i < 5 && Finds(others, polls, now, i, j)
    requires forall h: nat, g: nat | h < i :: !Finds(others, polls, now, h, g)
    ensures Awaited(db, others, polls, now, replay, Replayed(db, others(j).value.code, replay))
  {
    forall h: nat, g: nat
      | h < 5 && Finds(others, polls, now, h, g) && forall k: nat, l: nat | k < h :: !Finds(others, polls, now, k, l)
      ensures g == j
    {
      assert h == i;
      assert Latest(others, i, g) && Latest(others, i, j);
    }
  }

  /** Both keys Redis keeps per Idempotency-Key, with their deadlines. */
  class IdempotencyStore {
    var resp: map<string, I.Stamp>
    var locks: map<string, int>

    constructor ()
      ensures resp == map[] && locks == map[]
    {
      resp, locks := map[], map[];
    }

    predicate Remembers(key: string, now: int)
      reads this
    {
      key in resp && now < resp[key].deadline
    }

    predicate Locked(key: string, now: int)
      reads this
    {
      key in locks && now < locks[key]
    }

    /** None is an error, Some(None) an unknown key. */
    method Get(key: string, now: int, out: Outcome) returns (r: Option<Option<string>>)
      ensures r == if out != Ok then None
                   else Some(if key in resp && now < resp[key].deadline then Some(resp[key].code) else None)
    {
      if out != Ok { return None; }
      if key !in resp || now >= resp[key].deadline { return Some(None); }
      return Some(Some(resp[key].code));
    }

    method Set(key: string, code: string, now: int, out: Outcome) returns (ok: bool)
      modifies this`resp
      ensures resp == if out == Fail then old(resp) else old(resp)[key := I.Stamp(code, now + 24 * 3600 * SECOND)]
      ensures ok <==> out == Ok
    {
      if out != Fail { resp := resp[key := I.Stamp(code, now + I.RESP_TTL)]; }
      return out == Ok;
    }

    /** SET NX: None is an error, Some(true) makes the caller the creator. */
    method Claim(key: string, now: int, out: Outcome) returns (r: Option<bool>)
      modifies this`locks
      ensures r == if out == Ok then Some(key in old(locks) ==> old(locks)[key] <= now) else None
      ensures locks == if out != Fail && (key in old(locks) ==> old(locks)[key] <= now)
                       then old(locks)[key := now + 10 * SECOND] else old(locks)
    {
      if out == Fail { return None; }
      var free := key !in locks || now >= locks[key];
      if free { locks := locks[key := now + I.LOCK_TTL]; }
      return if out == Ok then Some(free) else None;
    }

    /** DEL of the lock, whoever holds it. */
    method Release(key: string, out: Outcome)
      modifies this`locks
      ensures locks == if out == Fail then old(locks) else old(locks) - {key}
    {
      if out != Fail { locks := locks - {key}; }
    }
  }

  /** The answer of a replay: the stored row, or that it is gone. */
  ghost function Replayed(db: Db, code: string, out: Outcome): Result {
    if out != Ok then Failed(Internal)
    else match Find(db, code) case Some(row) => Again(row) case None => Failed(Gone)
  }

  function Wanted(params: I.Params, id: nat): string {
    if params.custom.Some? then params.custom.value else Base62.Encode(id)
  }

  predicate Acceptable(params: I.Params) {
    params.custom.Some? ==> CodeSpace.ValidCustom(params.custom.value)
  }

  function NewRow(params: I.Params, id: nat, now: int): Row {
    Row(id, Some(Wanted(params, id)), params.longURL, params.expiresAt, now)
  }

  /** The table has room for a row of this URL. */
  predicate Storable(before: Db, params: I.Params) {
    1 <= |params.longURL| <= 2048 && before.nextId <= 0x7FFF_FFFF_FFFF_FFFF
  }

  /** The code ends up on the new row. */
  ghost predicate Coded(before: Db, params: I.Params, calls: StoreCalls) {
    params.custom.Some? ||
    (calls.insert == Ok && calls.assign != Fail && !Taken(before, Base62.Encode(before.nextId)))
  }

  /** The writing half of createOne: what each error means, and what is in the table after it. */
  ghost predicate PutOnce(before: Db, after: Db, params: I.Params, now: int, calls: StoreCalls,
                          error: Option<CreateError>)
  {
    var id, code := before.nextId, Wanted(params, before.nextId);
    var answered := calls.insert == Ok && (params.custom.Some? || calls.assign == Ok);
    && (error == None <==> Acceptable(params) && answered && Storable(before, params) && !Taken(before, code))
    && (error == Some(BadCode) <==> !Acceptable(params))
    && (error == Some(CodeTaken) <==>
          params.custom.Some? && Acceptable(params) && answered && Storable(before, params) && Taken(before, code))
    && (error == Some(Collision) <==>
          params.custom.None? && answered && Storable(before, params) && Taken(before, code))
    && (error.Some? ==>
          error.value.BadCode? || error.value.CodeTaken? || error.value.Collision? || error.value.Internal?)
    && after == if !Acceptable(params) || calls.insert == Fail || before.nextId > 0x7FFF_FFFF_FFFF_FFFF then before
                else if !Storable(before, params) || (params.custom.Some? && Taken(before, code))
                then before.(nextId := id + 1)
                else before.(nextId := id + 1, rows := before.rows[id :=
                  Row(id, if Coded(before, params, calls) then Some(code) else None, params.longURL,
                      params.expiresAt, now)])
  }

  /** What one createOne does to the table, and says. */
  ghost predicate CreatedOnce(before: Db, after: Db, params: I.Params, now: int, calls: StoreCalls, r: Result) {
    if r.Made? then PutOnce(before, after, params, now, calls, None) && r.row == NewRow(params, before.nextId, now)
    else
      && r.Failed?
      && (PutOnce(before, after, params, now, calls, Some(r.error)) ||
          (r.error == Internal && calls.read != Ok && PutOnce(before, after, params, now, calls, None)))
  }

  /** A row without a code takes none. */
  lemma SameCodes(before: Db, after: Db, id: nat, code: string)
    requires id !in before.rows && id in after.rows && after.rows[id].code.None?
    requires after.rows == before.rows[id := after.rows[id]]
    ensures Taken(after, code) <==> Taken(before, code)
    ensures var row := after.rows[id].(code := Some(code)); after.rows[id := row] == before.rows[id := row]
  {
    assert forall i | i in before.rows :: after.rows[i] == before.rows[i];
  }

  class LinkService {
    const db: Database
    const cache: URLCache
    const idem: IdempotencyStore

    constructor (db: Database, cache: URLCache, idem: IdempotencyStore)
      ensures this.db == db && this.cache == cache && this.idem == idem
    {
      this.db, this.cache, this.idem := db, cache, idem;
    }

    /** Resolve: as with no cache, if the cache was coherent and the store answers. */
    method Resolve(code: string, now: int, calls: CacheCalls, store: Outcome) returns (answer: Answer)
      requires Consistent(db.View())
      modifies cache
      ensures (cache.entries, answer) == ResolveWith(old(cache.entries), db.View(), code, now, calls, store)
      ensures store == Ok && Coherent(old(cache.entries), db.View(), now) ==>
        answer == ResolveBare(db.View(), code, now) && Coherent(cache.entries, db.View(), now)
      ensures store != Ok && answer != Unavailable ==>
        calls.read == Ok && IsLive(old(cache.entries), code, now) && answer == Found(old(cache.entries)[code].row)
      ensures answer.Found? && answer.row.expiresAt.Some? ==> now < answer.row.expiresAt.value
      ensures answer == Expired ==> store == Ok && exists id | id in db.rows ::
        db.rows[id].code == Some(code) && db.rows[id].expiresAt.Some? && db.rows[id].expiresAt.value <= now
      ensures answer == Missing ==> store == Ok && forall id | id in db.rows :: db.rows[id].code != Some(code)
      ensures answer == Unavailable ==> store != Ok
      ensures store == Ok && Coherent(old(cache.entries), db.View(), now) ==>
        forall id | id in db.rows && db.rows[id].code == Some(code) ::
          answer == if db.rows[id].expiresAt.Some? && db.rows[id].expiresAt.value <= now then Expired
                    else Found(db.rows[id])
    {
      BareIs(db.View(), code, now);
      if Coherent(cache.entries, db.View(), now) {
        ResolveKeepsCoherence(cache.entries, db.View(), code, now, calls);
      }
      var cached := cache.Get(code, now, calls.read);
      if cached.Some? && cached.value.Some? {
        if HasExpired(cached.value.value, now) {
          var _ := cache.Delete(code, calls.evict);
        } else {
          return Found(cached.value.value);
        }
      }
      if store != Ok { return Unavailable; }
      var row := db.GetByCode(code);
      if row.None? { return Missing; }
      if HasExpired(row.value, now) { return Expired; }
      var _ := cache.Set(code, row.value, now, now, calls.write);
      return Found(row.value);
    }

    /** Delete: Some(true) deleted, Some(false) not found, None an error. The cache is told
        only after the table reports the delete. */
    method Delete(code: string, store: Outcome, drop: Outcome) returns (r: Option<bool>)
      requires Consistent(db.View())
      modifies db, cache
      ensures Consistent(db.View())
      ensures db.View() == if store == Fail then old(db.View()) else Schema.Delete(old(db.View()), code).0
      ensures cache.entries == if store == Ok && Taken(old(db.View()), code) && drop != Fail
                               then Drop(old(cache.entries), code) else old(cache.entries)
      ensures r == if store != Ok then None
                   else Some(exists id | id in old(db.rows) :: old(db.rows)[id].code == Some(code))
      ensures store != Fail ==>
        forall id :: id in db.rows <==> id in old(db.rows) && old(db.rows)[id].code != Some(code)
      ensures forall id | id in db.rows && id in old(db.rows) :: db.rows[id] == old(db.rows)[id]
      ensures forall k: Key | k.url in db.rows :: Count(db.counts, k) == Count(old(db.counts), k)
      ensures r == Some(true) && drop != Fail ==> code !in cache.entries
    {
      if store == Fail { return None; }
      var reply := db.DeleteByCode(code);
      if store == Lost { return None; }
      if reply.Refused? { return Some(false); }
      var _ := cache.Delete(code, drop);
      return Some(true);
    }

    method PutCustom(params: I.Params, now: int, calls: StoreCalls) returns (error: Option<CreateError>)
      requires Consistent(db.View()) && params.custom.Some?
      modifies db
      ensures Consistent(db.View()) && PutOnce(old(db.View()), db.View(), params, now, calls, error)
    {
      var code := params.custom.value;
      if !CodeSpace.ValidCustom(code) { return Some(BadCode); }
      if calls.insert == Fail { return Some(Internal); }
      InsertKeeps(db.View(), Some(code), params.longURL, params.expiresAt, now);
      var made := db.CreateWithCode(code, params.longURL, params.expiresAt, now);
      if calls.insert == Lost { return Some(Internal); }
      if made.Refused? { return Some(if made.why == Conflict then CodeTaken else Internal); }
      return None;
    }

    method PutGenerated(params: I.Params, now: int, calls: StoreCalls)
      returns (error: Option<CreateError>, code: string)
      requires Consistent(db.View()) && params.custom.None?
      modifies db
      ensures Consistent(db.View()) && PutOnce(old(db.View()), db.View(), params, now, calls, error)
      ensures error == None ==> code == Wanted(params, old(db.nextId))
    {
      if calls.insert == Fail { return Some(Internal), ""; }
      InsertKeeps(db.View(), None, params.longURL, params.expiresAt, now);
      var made := db.Create(params.longURL, params.expiresAt, now);
      if calls.insert == Lost || made.Refused? { return Some(Internal), ""; }
      code := Base62.Encode(made.value);
      CodeSpace.GeneratedCodeFits(made.value);
      if calls.assign == Fail { return Some(Internal), ""; }
      AssignKeeps(db.View(), made.value, code);
      SameCodes(old(db.View()), db.View(), made.value, code);
      var coded := db.SetCode(made.value, code);
      if calls.assign == Lost { return Some(Internal), ""; }
      if coded.Refused? { return Some(if coded.why == Conflict then Collision else Internal), ""; }
      return None, code;
    }

    /** createOne: on success the new row is stored, under the next id, with the code and contents asked for. */
    method CreateOne(params: I.Params, now: int, calls: StoreCalls) returns (r: Result)
      requires Consistent(db.View())
      modifies db
      ensures Consistent(db.View())
      ensures CreatedOnce(old(db.View()), db.View(), params, now, calls, r)
      ensures r == Failed(BadCode) <==>
        params.custom.Some? &&
        var c := params.custom.value;
        !(3 <= |c| <= 32
          && (forall x | x in c :: 'a' <= x <= 'z' || 'A' <= x <= 'Z' || '0' <= x <= '9' || x == '_' || x == '-')
          && forall w | w in ["api", "health", "ready", "metrics"] :: !CodeSpace.SameLetters(c, w))
      ensures r == Failed(CodeTaken) <==>
        && params.custom.Some? && calls.insert == Ok && CodeSpace.ValidCustom(params.custom.value)
        && 1 <= |params.longURL| <= 2048 && old(db.nextId) <= 0x7FFF_FFFF_FFFF_FFFF
        && exists id | id in old(db.rows) :: old(db.rows)[id].code == params.custom
      ensures r == Failed(CodeTaken) ==> db.rows == old(db.rows)
      ensures r == Failed(Collision) <==>
        && params.custom.None? && calls.insert == calls.assign == Ok
        && 1 <= |params.longURL| <= 2048 && old(db.nextId) <= 0x7FFF_FFFF_FFFF_FFFF
        && exists id | id in old(db.rows) :: old(db.rows)[id].code == Some(Base62.Encode(old(db.nextId)))
    {
      if params.custom.Some? { CodeSpace.ValidCustomIff(params.custom.value); }
      var id := db.nextId;
      var error: Option<CreateError>, code: string;
      if params.custom.Some? {
        code := params.custom.value;
        error := PutCustom(params, now, calls);
      } else {
        error, code := PutGenerated(params, now, calls);
      }
      if error.Some? { return Failed(error.value); }
      if calls.read != Ok { return Failed(Internal); }
      FindIs(db.View(), id, code);
      var row := db.GetByCode(code);
      return Made(row.value);
    }

    method Replay(code: string, out: Outcome) returns (r: Result)
      requires Consistent(db.View())
      ensures r == Replayed(db.View(), code, out)
      ensures out == Ok && (forall id | id in db.rows :: db.rows[id].code != Some(code)) ==> r == Failed(Gone)
      ensures forall id | id in db.rows && db.rows[id].code == Some(code) :: out == Ok ==> r == Again(db.rows[id])
      ensures out != Ok ==> r == Failed(Internal)
    {
      if out != Ok { return Failed(Internal); }
      var row := db.GetByCode(code);
      return if row.Some? then Again(row.value) else Failed(Gone);
    }

    /** Under the key is what was Set during the last of the first i pauses with a Set, or nothing alive. */
    ghost predicate Left(key: string, now: int, others: nat -> Option<I.Stamp>, i: nat, last: Option<nat>)
      reads idem
    {
      if last.Some?
      then i > 0 && Latest(others, i - 1, last.value) && key in idem.resp && idem.resp[key] == others(last.value).value
      else (forall k: nat | k < i :: others(k).None?) && !idem.Remembers(key, now)
    }

    /** While this request pauses, another may Set the response. */
    method Pause(key: string, now: int, others: nat -> Option<I.Stamp>, i: nat, ghost last: Option<nat>)
      returns (ghost latest: Option<nat>)
      requires Left(key, now, others, i, last)
      modifies idem`resp
      ensures Left(key, now, others, i + 1, latest) && idem.resp - {key} == old(idem.resp) - {key}
    {
      latest := last;
      if others(i).Some? {
        idem.resp := idem.resp[key := others(i).value];
        latest := Some(i);
      }
    }

    /** Another request holds the claim: poll for what it Sets, then admit defeat. */
    method Await(key: string, now: int, replay: Outcome, polls: nat -> Outcome, others: nat -> Option<I.Stamp>)
      returns (r: Result)
      requires Consistent(db.View()) && !idem.Remembers(key, now)
      modifies idem`resp
      ensures idem.resp - {key} == old(idem.resp) - {key}
      ensures Awaited(db.View(), others, polls, now, replay, r) && !r.Made? && r != Failed(KeyTooLong)
    {
      var clock := now;
      ghost var last: Option<nat> := None;
      for i := 0 to I.WAIT_POLLS
        invariant clock == now + i * WAIT_STEP
        invariant idem.resp - {key} == old(idem.resp) - {key}
        invariant Left(key, now, others, i, last)
        invariant forall h: nat, g: nat | h < i :: !Finds(others, polls, now, h, g)
      {
        clock := clock + WAIT_STEP;
        last := Pause(key, now, others, i, last);
        var got := idem.Get(key, clock, polls(i));
        if got.Some? && got.value.Some? {
          r := Replay(got.value.value, replay);
          FirstFindDecides(db.View(), others, polls, now, replay, i, last.value);
          return;
        }
      }
      return Failed(InFlight);
    }

    /** The claimer's part of createIdempotent: it leaves the lock in place if nothing was created. */
    method CreateClaimed(key: string, params: I.Params, now: int, calls: IdemCalls, store: StoreCalls)
      returns (r: Result)
      requires Consistent(db.View())
      modifies db, idem
      ensures Consistent(db.View()) && CreatedOnce(old(db.View()), db.View(), params, now, store, r)
      ensures r.Made? ==> r.row.code.Some?
      ensures idem.resp == if r.Failed? || calls.record == Fail then old(idem.resp)
                           else old(idem.resp)[key := I.Stamp(r.row.code.value, now + 24 * 3600 * SECOND)]
      ensures idem.locks == if r.Failed? || calls.release == Fail then old(idem.locks) else old(idem.locks) - {key}
    {
      r := CreateOne(params, now, store);
      if r.Failed? { return; }
      var _ := idem.Set(key, r.row.code.value, now, calls.record);
      idem.Release(key, calls.release);
    }

    /** createIdempotent. With Redis answering: a remembered key is replayed and a locked key waited for,
        until a poll finds what another request has Set, and neither writes anything; a free key is created for,
        remembered and released. When the first Get or the Claim errs it is one plain create: nothing is
        remembered, and the only trace in Redis is the lock of a Claim whose reply was lost. */
    method CreateIdempotent(key: string, params: I.Params, now: int, calls: IdemCalls, store: StoreCalls,
                            replay: Outcome, polls: nat -> Outcome, others: nat -> Option<I.Stamp>) returns (r: Result)
      requires Consistent(db.View())
      modifies db, idem
      ensures Consistent(db.View())
      ensures |key| > 256 <==> r == Failed(KeyTooLong)
      ensures |key| > 256 || r.Again? ==> db.View() == old(db.View()) && idem.locks == old(idem.locks)
      ensures |key| > 256 ==> idem.resp == old(idem.resp)
      ensures |key| <= 256 && calls.first == Ok && old(idem.Remembers(key, now)) ==>
        && db.View() == old(db.View()) && idem.resp == old(idem.resp) && idem.locks == old(idem.locks)
        && r == Replayed(db.View(), idem.resp[key].code, replay)
      ensures (|key| <= 256 && calls.first == calls.claim == Ok && !old(idem.Remembers(key, now)) &&
               old(idem.Locked(key, now))) ==>
        && db.View() == old(db.View()) && idem.locks == old(idem.locks)
        && idem.resp - {key} == old(idem.resp) - {key}
        && Awaited(db.View(), others, polls, now, replay, r)
      ensures (|key| <= 256 && calls.first == calls.claim == Ok && !old(idem.Remembers(key, now)) &&
               !old(idem.Locked(key, now))) ==>
        && CreatedOnce(old(db.View()), db.View(), params, now, store, r)
        && idem.resp == (if r.Failed? || calls.record == Fail then old(idem.resp)
                         else old(idem.resp)[key := I.Stamp(r.row.code.value, now + 24 * 3600 * SECOND)])
        && idem.locks == (if r.Failed? || calls.release == Fail then old(idem.locks)[key := now + 10 * SECOND]
                          else old(idem.locks) - {key})
      ensures |key| <= 256 && calls.first != Ok ==>
        && CreatedOnce(old(db.View()), db.View(), params, now, store, r)
        && idem.resp == old(idem.resp) && idem.locks == old(idem.locks)
      ensures |key| <= 256 && calls.first == Ok && calls.claim != Ok && !old(idem.Remembers(key, now)) ==>
        && CreatedOnce(old(db.View()), db.View(), params, now, store, r)
        && idem.resp == old(idem.resp)
        && idem.locks == if calls.claim == Lost && !old(idem.Locked(key, now))
                         then old(idem.locks)[key := now + 10 * SECOND]
                         else old(idem.locks)
    {
      if |key| > MAX_KEY { return Failed(KeyTooLong); }
      var got := idem.Get(key, now, calls.first);
      if got.None? {
        r := CreateOne(params, now, store);
        return;
      }
      if got.value.Some? {
        r := Replay(got.value.value, replay);
        return;
      }
      var claimed := idem.Claim(key, now, calls.claim);
      if claimed.None? {
        r := CreateOne(params, now, store);
        return;
      }
      if claimed.value {
        r := CreateClaimed(key, params, now, calls, store);
        return;
      }
      r := Await(key, now, replay, polls, others);
    }
  }

  /** The promise of the header: a second request under the key, within 24 hours and with the link still
      there, gets the first one's row and writes nothing, whatever it asks for. */
  method CreateTwice(service: LinkService, key: string, first: I.Params, second: I.Params, now: int, later: int,
                     store: StoreCalls, polls: nat -> Outcome) returns (r: Result, again: Result)
    requires Consistent(service.db.View()) && |key| <= 256
    requires !service.idem.Remembers(key, now) && !service.idem.Locked(key, now)
    requires now <= later < now + 24 * 3600 * SECOND
    modifies service.db, service.idem
    ensures r.Made? ==> again == Again(r.row)
    ensures r.Made? ==> service.db.rows == old(service.db.rows)[r.row.id := r.row]
  {
    r := service.CreateIdempotent(key, first, now, IdemCalls(Ok, Ok, Ok, Ok), store, Ok, polls, _ => None);
    if r.Made? {
      FindIs(service.db.View(), old(service.db.nextId), r.row.code.value);
    }
    again := service.CreateIdempotent(key, second, later, IdemCalls(Ok, Ok, Ok, Ok), store, Ok, polls, _ => None);
  }
}
