/** What the counters of `analytics_daily` mean: each is the number of distinct events
    credited to it, and a day's referrer counters never outrun its total. */
module Ledger {
  import opened Common
  import opened Schema

  /** One upsert that took effect: the event it was made for and the counter it raised. */
  datatype Hit = Hit(event: nat, key: Key)

  ghost function Sum(m: map<Key, nat>): nat
    decreases |m|
  {
    if m == map[] then 0
    else
      var k :| k in m;
      assert |m - {k}| < |m| by { assert (m - {k}).Keys == m.Keys - {k}; }
      m[k] + Sum(m - {k})
  }

  /** The order in which a map is summed does not matter. */
  lemma {:induction false} SumPick(m: map<Key, nat>, k: Key)
    requires k in m
    ensures Sum(m) == m[k] + Sum(m - {k})
    decreases |m|
  {
    var j :| j in m && Sum(m) == m[j] + Sum(m - {j});
    if j != k {
      assert (m - {j}).Keys == m.Keys - {j} && (m - {k}).Keys == m.Keys - {k};
      SumPick(m - {j}, k);
      SumPick(m - {k}, j);
      assert m - {j} - {k} == m - {k} - {j};
    }
  }

  lemma SumRaise(m: map<Key, nat>, k: Key)
    ensures Sum(m[k := Count(m, k) + 1]) == Sum(m) + 1
  {
    var m' := m[k := Count(m, k) + 1];
    SumPick(m', k);
    if k in m {
      SumPick(m, k);
      assert m' - {k} == m - {k};
    } else {
      assert m' - {k} == m;
    }
  }

  lemma JoinWithout(a: map<Key, nat>, b: map<Key, nat>, k: Key)
    requires a.Keys !! b.Keys && k in a
    ensures (a + b) - {k} == (a - {k}) + b
  {}

  lemma Smaller(a: map<Key, nat>, k: Key)
    requires k in a
    ensures |a - {k}| < |a| && (a - {k}).Keys == a.Keys - {k}
  {
    assert (a - {k}).Keys == a.Keys - {k};
  }

  lemma {:induction false} SumJoin(a: map<Key, nat>, b: map<Key, nat>)
    requires a.Keys !! b.Keys
    ensures Sum(a + b) == Sum(a) + Sum(b)
    decreases |a|
  {
    if k :| k in a {
      JoinWithout(a, b, k);
      Smaller(a, k);
      SumJoin(a - {k}, b);
      SumPick(a, k);
      SumPick(a + b, k);
    } else {
      assert a == map[] && a + b == b;
    }
  }

  /** The events credited to a counter. */
  function Events(log: seq<Hit>, k: Key): set<nat> {
    set h | h in log && h.key == k :: h.event
  }

  /** The events credited to any referrer counter of a url and day. */
  function ReferredEvents(log: seq<Hit>, url: nat, day: int): set<nat> {
    set h | h in log && h.key.url == url && h.key.day == day && h.key.dim.Referrer? :: h.event
  }

  function ReferrerCounts(counts: map<Key, nat>, url: nat, day: int): map<Key, nat> {
    counts - (set k | k in counts && !(k.url == url && k.day == day && k.dim.Referrer?))
  }

  /** The events credited to any total of a url. */
  function ClickEvents(log: seq<Hit>, url: nat): set<nat> {
    set h | h in log && h.key.url == url && h.key.dim.Total? :: h.event
  }

  function TotalCounts(counts: map<Key, nat>, url: nat): map<Key, nat> {
    counts - (set k | k in counts && !(k.url == url && k.dim.Total?))
  }

  ghost predicate Balanced(db: Db, log: seq<Hit>) {
    && (forall k: Key | k.url in db.rows :: Count(db.counts, k) == |Events(log, k)|)
    && (forall u, d | u in db.rows :: Sum(ReferrerCounts(db.counts, u, d)) == |ReferredEvents(log, u, d)|)
  }

  lemma CreditEvents(log: seq<Hit>, h: Hit, k: Key)
    ensures Events(log + [h], k) == Events(log, k) + (if h.key == k then {h.event} else {})
  {}

  lemma CreditReferred(log: seq<Hit>, h: Hit, u: nat, d: int)
    ensures ReferredEvents(log + [h], u, d) == ReferredEvents(log, u, d) +
              (if h.key.url == u && h.key.day == d && h.key.dim.Referrer? then {h.event} else {})
  {}

  lemma OneMoreReferred(log: seq<Hit>, h: Hit, u: nat, d: int)
    requires h.key.dim.Referrer? ==> h.event !in ReferredEvents(log, h.key.url, h.key.day)
    ensures |ReferredEvents(log + [h], u, d)| ==
            |ReferredEvents(log, u, d)| + (if h.key.url == u && h.key.day == d && h.key.dim.Referrer? then 1 else 0)
  {
    CreditReferred(log, h, u, d);
  }

  lemma RaiseReferrers(counts: map<Key, nat>, k: Key, u: nat, d: int)
    ensures Sum(ReferrerCounts(counts[k := Count(counts, k) + 1], u, d)) ==
            Sum(ReferrerCounts(counts, u, d)) + (if k.url == u && k.day == d && k.dim.Referrer? then 1 else 0)
  {
    var before, after := ReferrerCounts(counts, u, d), ReferrerCounts(counts[k := Count(counts, k) + 1], u, d);
    if k.url == u && k.day == d && k.dim.Referrer? {
      SumRaise(before, k);
      assert after == before[k := Count(before, k) + 1];
    } else {
      assert after == before;
    }
  }

  lemma CountAfterCredit(db: Db, log: seq<Hit>, h: Hit, k: Key)
    requires Balanced(db, log) && h.key.url in db.rows && k.url in db.rows
    requires h.event !in Events(log, h.key)
    ensures Count(Upsert(db, h.key).0.counts, k) == |Events(log + [h], k)|
  {
    CreditEvents(log, h, k);
  }

  lemma SumAfterCredit(db: Db, log: seq<Hit>, h: Hit, u: nat, d: int)
    requires Balanced(db, log) && h.key.url in db.rows && u in db.rows
    requires h.key.dim.Referrer? ==> h.event !in ReferredEvents(log, h.key.url, h.key.day)
    ensures Sum(ReferrerCounts(Upsert(db, h.key).0.counts, u, d)) == |ReferredEvents(log + [h], u, d)|
  {
    RaiseReferrers(db.counts, h.key, u, d);
    OneMoreReferred(log, h, u, d);
    assert Upsert(db, h.key).0.counts == db.counts[h.key := Count(db.counts, h.key) + 1];
  }

  /** Raising a counter for an event not yet credited to it keeps the books balanced. */
  lemma CreditKeeps(db: Db, log: seq<Hit>, h: Hit)
    requires Balanced(db, log) && h.key.url in db.rows
    requires h.event !in Events(log, h.key)
    requires h.key.dim.Referrer? ==> h.event !in ReferredEvents(log, h.key.url, h.key.day)
    ensures Balanced(Upsert(db, h.key).0, log + [h])
  {
    var t := Upsert(db, h.key).0;
    forall k: Key | k.url in t.rows ensures Count(t.counts, k) == |Events(log + [h], k)| {
      CountAfterCredit(db, log, h, k);
    }
    forall u, d | u in t.rows ensures Sum(ReferrerCounts(t.counts, u, d)) == |ReferredEvents(log + [h], u, d)| {
      SumAfterCredit(db, log, h, u, d);
    }
  }

  /** A delete takes the counters of its url along and no others. */
  lemma DeleteKeepsBalance(db: Db, log: seq<Hit>, code: string)
    requires Consistent(db) && Balanced(db, log)
    ensures Balanced(Delete(db, code).0, log)
  {
    var t := Delete(db, code).0;
    forall u, d | u in t.rows ensures Sum(ReferrerCounts(t.counts, u, d)) == |ReferredEvents(log, u, d)| {
      CascadeKeepsOthers(db, code, u, d);
    }
  }

  lemma CascadeKeepsOthers(db: Db, code: string, u: nat, d: int)
    requires Consistent(db) && u in Delete(db, code).0.rows
    ensures ReferrerCounts(Delete(db, code).0.counts, u, d) == ReferrerCounts(db.counts, u, d)
  {}

  /** A row just inserted has a fresh id, so nothing was ever credited to it. */
  lemma InsertKeepsBalance(db: Db, log: seq<Hit>, code: Option<string>, longURL: string, expiresAt: Option<int>,
                           now: int)
    requires Consistent(db) && Balanced(db, log)
    requires forall h | h in log :: h.key.url < db.nextId
    ensures Balanced(Insert(db, code, longURL, expiresAt, now).0, log)
  {
    var t := Insert(db, code, longURL, expiresAt, now).0;
    forall k: Key | k.url in t.rows && k.url !in db.rows
      ensures Count(t.counts, k) == |Events(log, k)|
    {
      assert k !in db.counts;
      assert Events(log, k) == {};
    }
    forall u, d | u in t.rows && u !in db.rows
      ensures Sum(ReferrerCounts(t.counts, u, d)) == |ReferredEvents(log, u, d)|
    {
      assert ReferrerCounts(t.counts, u, d) == map[];
      assert ReferredEvents(log, u, d) == {};
    }
  }
}
