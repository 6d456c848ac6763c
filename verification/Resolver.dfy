/** Create, Resolve and Delete of internal/service/url.go when no two requests overlap:
    the cache must not be noticeable. */
module Resolver {
  import opened Common
  import opened Schema
  import opened Cache
  import CodeSpace

  datatype Answer = Found(row: Row) | Missing | Expired | Unavailable

  predicate HasExpired(row: Row, now: int) {
    row.expiresAt.Some? && row.expiresAt.value <= now
  }

  /** How the cache calls of one Resolve end. */
  datatype CacheCalls = CacheCalls(read: Outcome, evict: Outcome, write: Outcome)

  /** Resolve with no cache at all. */
  ghost function ResolveBare(db: Db, code: string, now: int): Answer {
    match Find(db, code)
    case None => Missing
    case Some(row) => if HasExpired(row, now) then Expired else Found(row)
  }

  lemma BareIs(db: Db, code: string, now: int)
    requires Consistent(db)
    ensures (forall id | id in db.rows :: db.rows[id].code != Some(code)) ==> ResolveBare(db, code, now) == Missing
    ensures forall id | id in db.rows && db.rows[id].code == Some(code) ::
      ResolveBare(db, code, now) == if db.rows[id].expiresAt.Some? && db.rows[id].expiresAt.value <= now then Expired
                                    else Found(db.rows[id])
  {
    forall id | id in db.rows && db.rows[id].code == Some(code) ensures Find(db, code) == Some(db.rows[id]) {
      FindIs(db, id, code);
    }
  }

  /** Resolve with the cache, the table call ending as `store` says: the entries it leaves, and its answer. */
  ghost function ResolveWith(es: Entries, db: Db, code: string, now: int, calls: CacheCalls, store: Outcome)
    : (Entries, Answer)
  {
    var hit := if calls.read == Ok then Lookup(es, code, now) else None;
    if hit.Some? && !HasExpired(hit.value, now) then (es, Found(hit.value))
    else
      var es' := if hit.Some? && calls.evict != Fail then Drop(es, code) else es;
      var answer := if store == Ok then ResolveBare(db, code, now) else Unavailable;
      (if answer.Found? && calls.write != Fail then Store(es', code, answer.row, now, now) else es', answer)
  }

  /** What Resolve does to the cache: an expired hit is evicted, a usable one left alone, and a row read from the table
      kept for a minute or for the rest of its life. */
  lemma EntriesAfter(es: Entries, db: Db, code: string, now: int, calls: CacheCalls, store: Outcome)
    ensures var (es', answer) := ResolveWith(es, db, code, now, calls, store);
      var hit := calls.read == Ok && code in es && now < es[code].deadline;
      var expired := hit && es[code].row.expiresAt.Some? && es[code].row.expiresAt.value <= now;
      && es' - {code} == es - {code}
      && (hit && !expired ==> answer == Found(es[code].row) && es' == es)
      && (expired && calls.evict != Fail && !answer.Found? ==> code !in es')
      && (!hit && !answer.Found? ==> es' == es)
      && (!hit || expired ==> answer.Found? && calls.write != Fail ==>
            code in es' && es'[code].row == answer.row &&
            var end := answer.row.expiresAt;
            es'[code].deadline == if end.Some? && end.value < now + 60 * SECOND then end.value else now + 60 * SECOND)
  {}

  ghost function ResolveCached(es: Entries, db: Db, code: string, now: int, calls: CacheCalls): (Entries, Answer) {
    ResolveWith(es, db, code, now, calls, Ok)
  }

  /** Every live entry is the stored row, and dies no later than the link expires. */
  ghost predicate Coherent(es: Entries, db: Db, now: int) {
    forall code | IsLive(es, code, now) ::
      && Find(db, code) == Some(es[code].row)
      && (es[code].row.expiresAt.Some? ==> es[code].deadline <= es[code].row.expiresAt.value)
  }

  lemma ResolveKeepsCoherence(es: Entries, db: Db, code: string, now: int, calls: CacheCalls)
    requires Coherent(es, db, now)
    ensures ResolveCached(es, db, code, now, calls).1 == ResolveBare(db, code, now)
    ensures Coherent(ResolveCached(es, db, code, now, calls).0, db, now)
  {}

  // ------------------------------------------------- whole histories

  /** Requests one after the other. A `Delete` is a table delete and, if that is reported done,
      a cache delete; `Lose` is Redis dropping an entry of its own accord. */
  datatype Op =
    | Write(op: CodeSpace.Label)
    | Resolve(code: string, calls: CacheCalls)
    | Delete(code: string, db: Outcome, cache: Outcome)
    | Tick(dt: nat)
    | Lose(code: string)

  datatype World = World(now: int, space: CodeSpace.State, cache: Entries)

  ghost predicate Possible(w: World, op: Op) {
    op.Write? ==> !op.op.Remove? && CodeSpace.Next(w.space, op.op).Some?
  }

  ghost predicate Reported(w: World, op: Op)
    requires op.Delete?
  {
    op.db == Ok && Taken(w.space.db, op.code)
  }

  ghost function After(w: World, op: Op): World
    requires Possible(w, op)
  {
    match op
    case Write(l) => w.(space := CodeSpace.Next(w.space, l).value)
    case Resolve(code, calls) => w.(cache := ResolveCached(w.cache, w.space.db, code, w.now, calls).0)
    case Delete(code, db, cache) =>
      w.(space := CodeSpace.Next(w.space, CodeSpace.Remove(code, db)).value,
         cache := if Reported(w, op) && cache != Fail then Drop(w.cache, code) else w.cache)
    case Tick(dt) => w.(now := w.now + dt)
    case Lose(code) => w.(cache := Drop(w.cache, code))
  }

  /** The answers to the Resolves of a history, with the cache and without. */
  ghost function Answers(w: World, ops: seq<Op>): Option<seq<Answer>>
    decreases |ops|
  {
    if ops == [] then Some([])
    else if !Possible(w, ops[0]) then None
    else
      var rest := Answers(After(w, ops[0]), ops[1..]);
      if rest.None? then None
      else
        var answer := if ops[0].Resolve? then [ResolveCached(w.cache, w.space.db, ops[0].code, w.now, ops[0].calls).1]
                      else [];
        Some(answer + rest.value)
  }

  ghost function BareAnswers(w: World, ops: seq<Op>): Option<seq<Answer>>
    decreases |ops|
  {
    if ops == [] then Some([])
    else if !Possible(w, ops[0]) then None
    else
      var rest := BareAnswers(After(w, ops[0]), ops[1..]);
      if rest.None? then None
      else Some((if ops[0].Resolve? then [ResolveBare(w.space.db, ops[0].code, w.now)] else []) + rest.value)
  }

  /** The deletes of the history that took a row also reached the cache. */
  predicate DropsReach(ops: seq<Op>) {
    forall op | op in ops && op.Delete? :: op.db == Fail || (op.db == Ok && op.cache != Fail)
  }

  lemma StepKeepsCoherence(w: World, op: Op)
    requires CodeSpace.Inv(w.space) && Coherent(w.cache, w.space.db, w.now) && Possible(w, op) && DropsReach([op])
    ensures var v := After(w, op); CodeSpace.Inv(v.space) && Coherent(v.cache, v.space.db, v.now)
  {
    assert op in [op];
    match op
    case Write(l) =>
      CodeSpace.StepKeepsInv(w.space, l);
      WriteKeepsFound(w, l);
    case Resolve(code, calls) => ResolveKeepsCoherence(w.cache, w.space.db, code, w.now, calls);
    case Delete(code, db, cache) =>
      CodeSpace.StepKeepsInv(w.space, CodeSpace.Remove(code, db));
      DeleteKeepsOthers(w, op);
    case Tick(dt) =>
    case Lose(code) =>
  }

  /** Creating links does not change what a code that resolves resolves to. */
  lemma WriteKeepsFound(w: World, l: CodeSpace.Label)
    requires CodeSpace.Inv(w.space) && !l.Remove? && CodeSpace.Next(w.space, l).Some?
    requires CodeSpace.Inv(CodeSpace.Next(w.space, l).value)
    ensures forall code | Taken(w.space.db, code) ::
      Find(CodeSpace.Next(w.space, l).value.db, code) == Find(w.space.db, code)
  {
    var t := CodeSpace.Next(w.space, l).value;
    CodedRowsStay(w.space, l);
    forall code | Taken(w.space.db, code) ensures Find(t.db, code) == Find(w.space.db, code) {
      var id :| id in w.space.db.rows && w.space.db.rows[id].code == Some(code);
      SameFind(w.space.db, t.db, id, code);
    }
  }

  lemma CodedRowsStay(space: CodeSpace.State, l: CodeSpace.Label)
    requires CodeSpace.Inv(space) && !l.Remove? && CodeSpace.Next(space, l).Some?
    ensures var t := CodeSpace.Next(space, l).value;
      forall id | id in space.db.rows && space.db.rows[id].code.Some? ::
        id in t.db.rows && t.db.rows[id] == space.db.rows[id]
  {}

  lemma SameFind(a: Db, b: Db, id: nat, code: string)
    requires Consistent(a) && Consistent(b) && id in a.rows && a.rows[id].code == Some(code)
    requires id in b.rows && b.rows[id] == a.rows[id]
    ensures Find(a, code) == Find(b, code)
  {
    FindIs(a, id, code);
    FindIs(b, id, code);
  }

  lemma DeleteKeepsOthers(w: World, op: Op)
    requires op.Delete? && CodeSpace.Inv(w.space) && CodeSpace.Inv(After(w, op).space)
    ensures forall code | code != op.code && Taken(w.space.db, code) ::
      Find(After(w, op).space.db, code) == Find(w.space.db, code)
    ensures op.db == Fail || !Taken(w.space.db, op.code) ==> After(w, op).space == w.space
  {
    var t := After(w, op).space;
    forall code | code != op.code && Taken(w.space.db, code) ensures Find(t.db, code) == Find(w.space.db, code) {
      var id :| id in w.space.db.rows && w.space.db.rows[id].code == Some(code);
      FindIs(w.space.db, id, code);
      FindIs(t.db, id, code);
    }
  }

  /** For every history of non-overlapping creates, resolves, deletes, clock advances and losses in Redis
      whose table deletes were followed by a cache delete, every Resolve answers as it would without a cache,
      whatever else of the cache fails. */
  lemma {:induction false} CacheIsTransparent(w: World, ops: seq<Op>)
    requires CodeSpace.Inv(w.space) && Coherent(w.cache, w.space.db, w.now) && DropsReach(ops)
    ensures Answers(w, ops) == BareAnswers(w, ops)
    decreases |ops|
  {
    if ops != [] && Possible(w, ops[0]) {
      assert DropsReach([ops[0]]);
      StepKeepsCoherence(w, ops[0]);
      CacheIsTransparent(After(w, ops[0]), ops[1..]);
      if ops[0].Resolve? {
        ResolveKeepsCoherence(w.cache, w.space.db, ops[0].code, w.now, ops[0].calls);
      }
    }
  }

  // ------------------------------------------------- a delete the cache did not hear of

  ghost function AfterAll(w: World, ops: seq<Op>): Option<World>
    decreases |ops|
  {
    if ops == [] then Some(w)
    else if Possible(w, ops[0]) then AfterAll(After(w, ops[0]), ops[1..])
    else None
  }

  /** Nobody takes the code again, and Redis does not lose its entry. */
  ghost predicate Forsaken(w: World, ops: seq<Op>, code: string)
    decreases |ops|
  {
    && !Taken(w.space.db, code)
    && (ops != [] && Possible(w, ops[0]) ==> ops[0] != Lose(code) && Forsaken(After(w, ops[0]), ops[1..], code))
  }

  /** While the code's entry in `es` lives it is still there, and there is no other. */
  ghost predicate SameEntry(w: World, es: Entries, code: string) {
    && (IsLive(es, code, w.now) ==> code in w.cache && w.cache[code] == es[code] && !HasExpired(es[code].row, w.now))
    && (IsLive(w.cache, code, w.now) ==> IsLive(es, code, w.now))
  }

  lemma EntryStays(w: World, es: Entries, op: Op, code: string)
    requires SameEntry(w, es, code) && !Taken(w.space.db, code) && Possible(w, op) && op != Lose(code)
    requires code in es && es[code].row.expiresAt.Some? ==> es[code].deadline <= es[code].row.expiresAt.value
    ensures SameEntry(After(w, op), es, code)
  {}

  lemma {:induction false} EntryStaysAll(w: World, es: Entries, ops: seq<Op>, code: string)
    requires SameEntry(w, es, code) && Forsaken(w, ops, code) && AfterAll(w, ops).Some?
    requires code in es && es[code].row.expiresAt.Some? ==> es[code].deadline <= es[code].row.expiresAt.value
    ensures SameEntry(AfterAll(w, ops).value, es, code) && !Taken(AfterAll(w, ops).value.space.db, code)
    decreases |ops|
  {
    if ops != [] {
      EntryStays(w, es, ops[0], code);
      EntryStaysAll(After(w, ops[0]), es, ops[1..], code);
    }
  }

  /** When a delete took the row but its cache delete failed or was never made, then after whatever else happens
      short of somebody taking the code again or Redis losing the entry, a Resolve whose cache read answers is
      wrong exactly while the code's entry is still live. */
  lemma StaleAfterMissedDropIff(w: World, op: Op, ops: seq<Op>, v: World, calls: CacheCalls)
    requires CodeSpace.Inv(w.space) && Coherent(w.cache, w.space.db, w.now)
    requires op.Delete? && op.db != Fail && (op.db == Lost || op.cache == Fail) && Taken(w.space.db, op.code)
    requires Forsaken(After(w, op), ops, op.code) && AfterAll(After(w, op), ops) == Some(v)
    requires calls.read == Ok
    ensures ResolveCached(v.cache, v.space.db, op.code, v.now, calls).1 != ResolveBare(v.space.db, op.code, v.now) <==>
            IsLive(w.cache, op.code, v.now)
  {
    if IsLive(w.cache, op.code, w.now) {
      EntryStaysAll(After(w, op), w.cache, ops, op.code);
    } else {
      TimePasses(After(w, op), ops);
      EntryStaysAll(After(w, op), w.cache - {op.code}, ops, op.code);
    }
  }

  lemma {:induction false} TimePasses(w: World, ops: seq<Op>)
    requires AfterAll(w, ops).Some?
    ensures w.now <= AfterAll(w, ops).value.now
    decreases |ops|
  {
    if ops != [] {
      TimePasses(After(w, ops[0]), ops[1..]);
    }
  }
}
