/** internal/consumer/consumer.go as a program: ProcessOnce and handle over the stream and the tables.
    Beside the program runs the state machine of Analytics, whose worker 0 the program is. */
module Consumer {
  import opened Common
  import opened Schema
  import opened Analytics
  import opened Delivery
  import opened ExactlyOnce
  import CodeSpace

  /** How each call of one `handle` ends. */
  datatype Calls = Calls(claim: Outcome, lookup: Outcome, total: Outcome, referrer: Outcome, ack: Outcome)

  const ALL_OK := Calls(Ok, Ok, Ok, Ok, Ok)

  predicate Within(lo: nat, k: nat, hi: nat) {
    lo <= k < hi
  }

  function Range(lo: nat, hi: nat): set<nat> {
    set k: nat | k < hi && Within(lo, k, hi)
  }

  /** Exactly the day's counters that the event concerns went up, by one. */
  ghost predicate Credited(rows: map<nat, Row>, e: Event, day: int, before: map<Key, nat>, after: map<Key, nat>) {
    forall k: Key :: Count(after, k) == Count(before, k) + if k.day == day && Concerns(rows, e, k) then 1 else 0
  }

  function Raised(counts: map<Key, nat>, k: Key): map<Key, nat> {
    counts[k := Count(counts, k) + 1]
  }

  function KeyOf(e: Event, url: nat, day: int, stage: Stage): Key {
    Key(url, day, if stage.AtTotal? then Total else Referrer(e.referrer))
  }

  lemma NothingMatches(db: Db, e: Event, day: int, counts: map<Key, nat>)
    requires !Taken(db, e.code)
    ensures Credited(db.rows, e, day, counts, counts)
  {}

  /** The day credited is the one that has the timestamp or, without one, the clock reading. */
  lemma CreditedOnItsDay(rows: map<nat, Row>, e: Event, clock: int, before: map<Key, nat>, after: map<Key, nat>)
    requires Credited(rows, e, DayOf(e, clock), before, after)
    ensures forall day | day * 86400 <= (if e.ts.Some? then e.ts.value else clock) < (day + 1) * 86400 ::
      Credited(rows, e, day, before, after)
  {
    forall day | day * 86400 <= (if e.ts.Some? then e.ts.value else clock) < (day + 1) * 86400
      ensures Credited(rows, e, day, before, after)
    {
      assert day == DayOf(e, clock);
    }
  }

  lemma BothRaised(db: Db, e: Event, url: nat, day: int, before: map<Key, nat>, middle: map<Key, nat>,
                   after: map<Key, nat>)
    requires Consistent(db) && url in db.rows && db.rows[url].code == Some(e.code)
    requires middle == Raised(before, Key(url, day, Total))
    requires after == if e.referrer == "" then middle else Raised(middle, Key(url, day, Referrer(e.referrer)))
    ensures Credited(db.rows, e, day, before, after)
  {}

  // ------------------------------------------------- runs of this worker

  /** A call of worker 0, or a step outside the group. */
  predicate Own(l: Label) {
    match l
    case Publish(_) => true
    case Read(w, _) => w == 0
    case Act(w, _, _) => w == 0
    case Table(_) => true
    case Redeliver(_, _) => false
    case Crash(_) => false
  }

  ghost predicate AllOwn(ls: seq<Label>) {
    forall l | l in ls :: Own(l)
  }

  /** Some run of worker 0 leads from one state to the other, a smooth one if that is asked for. */
  ghost predicate Leads(s: State, t: State, smooth: bool) {
    exists ls :: AllOwn(ls) && (smooth ==> AllSmooth(ls)) && Run(s, ls) == Some(t)
  }

  lemma LeadsNowhere(s: State)
    ensures Leads(s, s, true)
  {
    assert AllOwn([]) && AllSmooth([]) && Run(s, []) == Some(s);
  }

  lemma LeadsByStep(s: State, l: Label, smooth: bool)
    requires Next(s, l).Some? && Own(l) && (smooth ==> Smooth(l))
    ensures Leads(s, Next(s, l).value, smooth)
  {
    assert [l][1..] == [];
    assert AllOwn([l]) && (smooth ==> AllSmooth([l])) && Run(s, [l]) == Next(s, l);
  }

  lemma LeadsOn(s: State, t: State, u: State, first: bool, second: bool, both: bool)
    requires Leads(s, t, first) && Leads(t, u, second) && (both ==> first && second)
    ensures Leads(s, u, both)
  {
    var ls :| AllOwn(ls) && (first ==> AllSmooth(ls)) && Run(s, ls) == Some(t);
    var more :| AllOwn(more) && (second ==> AllSmooth(more)) && Run(t, more) == Some(u);
    RunJoin(s, ls, more);
    assert AllOwn(ls + more) && (both ==> AllSmooth(ls + more));
  }

  lemma LeadsAnyway(s: State, t: State, smooth: bool, less: bool)
    requires Leads(s, t, smooth) && (less ==> smooth)
    ensures Leads(s, t, less)
  {
    var ls :| AllOwn(ls) && (smooth ==> AllSmooth(ls)) && Run(s, ls) == Some(t);
    assert less ==> AllSmooth(ls);
  }

  /** The other workers are where they were. */
  ghost predicate OthersStay(s: State, t: State) {
    forall w: nat | w != 0 :: (w in s.workers <==> w in t.workers) && (w in s.workers ==> s.workers[w] == t.workers[w])
  }

  lemma OwnStepLeavesOthers(s: State, l: Label)
    requires Own(l) && Next(s, l).Some?
    ensures OthersStay(s, Next(s, l).value)
  {
    if l.Act? { OwnCallLeavesOthers(s, l.out, l.clock); }
  }

  lemma OwnCallLeavesOthers(s: State, out: Outcome, clock: int)
    requires Next(s, Act(0, out, clock)).Some?
    ensures OthersStay(s, Next(s, Act(0, out, clock)).value)
  {
    if s.workers[0].stage.AtTotal? || s.workers[0].stage.AtReferrer? { OwnRaiseLeavesOthers(s, out, clock); }
  }

  lemma OwnRaiseLeavesOthers(s: State, out: Outcome, clock: int)
    requires AtWork(s, 0) && Entry(s, 0) < |s.stream|
    requires s.workers[0].stage.AtTotal? || s.workers[0].stage.AtReferrer?
    ensures OthersStay(s, Advance(s, 0, out, clock))
  {}

  lemma {:induction false} OwnRunLeavesOthers(s: State, ls: seq<Label>)
    requires AllOwn(ls) && Run(s, ls).Some?
    ensures OthersStay(s, Run(s, ls).value)
    decreases |ls|
  {
    if ls != [] {
      assert Own(ls[0]);
      OwnStepLeavesOthers(s, ls[0]);
      OwnRunLeavesOthers(Next(s, ls[0]).value, ls[1..]);
    }
  }

  /** What a smooth run of this worker, between two moments when nobody is at work, does to counters and pending set. */
  lemma SmoothlyLed(s: State, t: State)
    requires Reachable(s) && Leads(s, t, true) && Quiet(s) && Idle(t, 0) && Stamped(s.stream, s.cursor)
    ensures Quiet(t) && s.space.db.rows == t.space.db.rows && s.stream <= t.stream && s.cursor <= t.cursor <= |t.stream|
    ensures Tallied(t.space.db.rows, t.stream, s.cursor, t.cursor, s.space.db.counts, t.space.db.counts)
    ensures t.pending == s.pending + Malformed(t.stream, s.cursor, t.cursor)
  {
    ReachableIsSound(s);
    var ls :| AllOwn(ls) && AllSmooth(ls) && Run(s, ls) == Some(t);
    OwnRunLeavesOthers(s, ls);
    SmoothlyCounted(s, ls, t);
  }

  // ------------------------------------------------- what each call does to the machine

  /** Worker 0 is at this stage of entry `id`. */
  predicate Handling(s: State, id: nat, stage: Stage) {
    AtWork(s, 0) && Entry(s, 0) == id < |s.stream| && s.workers[0].stage == stage
  }

  /** The call moved the worker from `s` to `t` and touched no more than the table and the pending set. */
  ghost predicate Moved(s: State, t: State, db: Db, pending: set<nat>, worker: Worker) {
    && t.space.db == db && t.stream == s.stream && t.cursor == s.cursor && t.pending == pending
    && 0 in t.workers && t.workers[0] == worker
  }

  lemma SkipCall(s: State, id: nat, out: Outcome, clock: int)
    requires Handling(s, id, AtClaim) && s.stream[id].code == ""
    ensures Next(s, Act(0, out, clock)).Some?
    ensures Moved(s, Next(s, Act(0, out, clock)).value, s.space.db, s.pending, Handled(s.workers[0]))
  {}

  lemma ClaimCall(s: State, id: nat, out: Outcome, clock: int)
    requires Handling(s, id, AtClaim) && s.stream[id].code != ""
    ensures Next(s, Act(0, out, clock)).Some?
    ensures var b, db := s.workers[0], s.space.db;
      Moved(s, Next(s, Act(0, out, clock)).value, if out == Fail then db else Schema.Claim(db, id).0, s.pending,
            if out != Ok then Failed(b)
            else b.(stage := if id in db.claims then AtAck else AtLookup(DayOf(s.stream[id], clock))))
  {}

  lemma LookupCall(s: State, id: nat, day: int, out: Outcome, clock: int)
    requires Handling(s, id, AtLookup(day))
    ensures Next(s, Act(0, out, clock)).Some?
    ensures var b, row := s.workers[0], Find(s.space.db, s.stream[id].code);
      Moved(s, Next(s, Act(0, out, clock)).value, s.space.db, s.pending,
            if out != Ok then Failed(b) else b.(stage := if row.Some? then AtTotal(row.value.id, day) else AtAck))
  {}

  lemma UpsertCall(s: State, id: nat, url: nat, day: int, stage: Stage, out: Outcome, clock: int)
    requires Handling(s, id, stage) && (stage == AtTotal(url, day) || stage == AtReferrer(url, day))
    ensures Next(s, Act(0, out, clock)).Some?
    ensures var b, e, db := s.workers[0], s.stream[id], s.space.db;
      Moved(s, Next(s, Act(0, out, clock)).value,
            if out == Fail then db else Schema.Upsert(db, KeyOf(e, url, day, stage)).0, s.pending,
            if out != Ok || url !in db.rows then Failed(b)
            else b.(stage := if stage.AtTotal? && e.referrer != "" then AtReferrer(url, day) else AtAck))
  {}

  lemma AckCall(s: State, id: nat, out: Outcome, clock: int)
    requires Handling(s, id, AtAck)
    ensures Next(s, Act(0, out, clock)).Some?
    ensures var b := s.workers[0];
      Moved(s, Next(s, Act(0, out, clock)).value, s.space.db, if out == Fail then s.pending else s.pending - {id},
            if out == Ok then Handled(b) else Failed(b))
  {}

  function Stretch(first: nat, n: nat): seq<nat> {
    seq(n, i requires 0 <= i < n => first + i)
  }

  lemma ReadCall(s: State, out: Outcome)
    requires Idle(s, 0) && s.cursor <= |s.stream|
    ensures Next(s, Read(0, out)).Some?
    ensures var t, n := Next(s, Read(0, out)).value, Min(BATCH_SIZE, |s.stream| - s.cursor);
      && t.space == s.space && t.stream == s.stream
      && t.cursor == (if out == Fail then s.cursor else s.cursor + n)
      && t.pending == (if out == Fail then s.pending else s.pending + Range(s.cursor, s.cursor + n))
      && 0 in t.workers && t.workers[0] == if out == Ok then Ready(Stretch(s.cursor, n), 0) else Returned([], 0, false)
  {
    var n := Min(BATCH_SIZE, |s.stream| - s.cursor);
    assert Stretch(s.cursor, n) == seq(n, i requires 0 <= i < n => s.cursor + i);
    forall k ensures k in Range(s.cursor, s.cursor + n) <==> k in Stretch(s.cursor, n) {
      if k in Range(s.cursor, s.cursor + n) {
        assert Stretch(s.cursor, n)[k - s.cursor] == k;
      }
    }
  }

  /** A worker with k entries of its batch handled and no failure. */
  function Ready(batch: seq<nat>, k: nat): Worker {
    if k < |batch| then Busy(batch, k, AtClaim) else Returned(batch, k, true)
  }

  /** What the number returned says of the entries of the batch. */
  lemma FrontHandled(s: State, first: nat, batch: seq<nat>, processed: nat, ok: bool)
    requires Reachable(s) && 0 in s.workers && s.workers[0] == Returned(batch, processed, ok)
    requires forall k | 0 <= k < |batch| :: batch[k] == first + k
    ensures forall i: nat :: ReturnedNil(Verdicts(s, 0), i) <==> i < processed
    ensures forall i | first <= i < first + processed :: Dealt(s, i)
  {
    CountIsRight(s, 0);
    forall i | first <= i < first + processed ensures Dealt(s, i) {
      assert batch[i - first] == i;
    }
  }

  class Consumer {
    const db: Database
    var stream: seq<Event>
    var cursor: nat
    var pending: set<nat>

    // Where the machine stands.
    ghost var state: State

    /** A consumer of a new group, on tables without counters and claims. */
    constructor (db: Database, stream: seq<Event>, ghost space: CodeSpace.State)
      requires CodeSpace.Inv(space) && space.db == db.View() && db.counts == map[] && db.claims == {}
      ensures this.db == db && this.stream == stream && cursor == 0 && pending == {}
      ensures Valid() && Quiet(state) && state.space == space
    {
      this.db, this.stream, cursor, pending := db, stream, 0, {};
      state := State(space, stream, 0, {}, map[], {}, [], [], map[]);
      new;
      assert OnlyNew([]) && Run(state, []) == Some(state);
    }

    ghost predicate Shows(s: State)
      reads this, db
    {
      s.space.db == db.View() && s.stream == stream && s.cursor == cursor && s.pending == pending
    }

    /** The program stands where the machine does, which some run has led there. */
    ghost predicate Valid()
      reads this, db
    {
      Shows(state) && Reachable(state) && cursor <= |stream|
    }

    ghost predicate At(b: Worker, id: nat, stage: Stage)
      requires b.Busy?
      reads this, db
    {
      Valid() && Handling(state, id, stage) && state.workers[0] == b.(stage := stage)
    }

    ghost predicate Stands(worker: Worker)
      reads this, db
    {
      Valid() && 0 in state.workers && state.workers[0] == worker
    }

    /** The machine makes the step that the program, or somebody beside it, has made. */
    ghost method Follow(l: Label, smooth: bool)
      requires Reachable(state) && Next(state, l).Some? && Own(l) && (smooth ==> Smooth(l))
      requires Shows(Next(state, l).value)
      modifies this`state
      ensures Valid() && state == Next(old(state), l).value && Leads(old(state), state, smooth)
    {
      LeadsByStep(state, l, smooth);
      ReachableStep(state, l);
      state := Next(state, l).value;
      ReachableTables(state);
    }

    /** Another client has called the table. */
    ghost method TableMoved(op: CodeSpace.Label)
      requires Reachable(state) && Next(state, Table(op)).Some? && Shows(Next(state, Table(op)).value)
      modifies this`state
      ensures Valid() && state == Next(old(state), Table(op)).value && Leads(old(state), state, false)
    {
      Follow(Table(op), false);
    }

    /** An event is added to the stream. */
    method Append(e: Event)
      requires Valid()
      modifies this`stream, this`state
      ensures Valid() && stream == old(stream) + [e]
      ensures state == Next(old(state), Publish(e)).value && Leads(old(state), state, e.ts.Some?)
    {
      stream := stream + [e];
      Follow(Publish(e), e.ts.Some?);
    }

    /** claim: Some(true) the first time the event is seen, None on an error. */
    method Claim(id: nat, out: Outcome, clock: int, ghost b: Worker) returns (first: Option<bool>)
      requires b.Busy? && At(b, id, AtClaim) && stream[id].code != ""
      modifies this`state, db`claims
      ensures Leads(old(state), state, out == Ok)
      ensures db.claims == (if out == Fail then old(db.claims) else old(db.claims) + {id})
      ensures first == if out == Ok then Some(id !in old(db.claims)) else None
      ensures match first
              case None => Stands(Failed(b))
              case Some(true) => At(b, id, AtLookup(DayOf(stream[id], clock)))
              case Some(false) => At(b, id, AtAck)
    {
      ClaimCall(state, id, out, clock);
      var inserted := id !in db.claims;
      if out != Fail {
        inserted := db.ClaimEvent(id);
      }
      Follow(Act(0, out, clock), out == Ok);
      return if out == Ok then Some(inserted) else None;
    }

    /** SELECT id FROM urls WHERE code = $1: None on an error. */
    method Lookup(id: nat, day: int, out: Outcome, clock: int, ghost b: Worker) returns (row: Option<Option<Row>>)
      requires b.Busy? && At(b, id, AtLookup(day))
      modifies this`state
      ensures Leads(old(state), state, out == Ok)
      ensures row == if out == Ok then Some(Find(db.View(), stream[id].code)) else None
      ensures match row
              case None => Stands(Failed(b))
              case Some(None) => At(b, id, AtAck) && !Taken(db.View(), stream[id].code)
              case Some(Some(r)) =>
                At(b, id, AtTotal(r.id, day)) && r.id in db.rows && db.rows[r.id].code == Some(stream[id].code)
    {
      LookupCall(state, id, day, out, clock);
      ReachableTables(state);
      var found := db.GetByCode(stream[id].code);
      Follow(Act(0, out, clock), out == Ok);
      return if out == Ok then Some(found) else None;
    }

    /** One upsert of `handle`, for the key the machine is at. */
    method Upsert(id: nat, url: nat, day: int, stage: Stage, out: Outcome, clock: int, ghost b: Worker)
      returns (ok: bool)
      requires b.Busy? && At(b, id, stage) && (stage == AtTotal(url, day) || stage == AtReferrer(url, day))
      modifies this`state, db`counts
      ensures Leads(old(state), state, out == Ok)
      ensures ok == (out == Ok && url in db.rows)
      ensures ok ==> db.counts == Raised(old(db.counts), KeyOf(stream[id], url, day, stage))
      ensures if !ok then Stands(Failed(b))
              else At(b, id, if stage.AtTotal? && stream[id].referrer != "" then AtReferrer(url, day) else AtAck)
    {
      UpsertCall(state, id, url, day, stage, out, clock);
      var r := Done(());
      if out != Fail {
        r := db.Bump(KeyOf(stream[id], url, day, stage));
      }
      Follow(Act(0, out, clock), out == Ok);
      return out == Ok && r.Done?;
    }

    /** The total and, if there is a referrer, its counter. */
    method RaiseBoth(id: nat, url: nat, day: int, calls: Calls, clock: int, ghost b: Worker) returns (ok: bool)
      requires b.Busy? && At(b, id, AtTotal(url, day)) && url in db.rows && db.rows[url].code == Some(stream[id].code)
      modifies this`state, db`counts
      ensures Leads(old(state), state, calls == ALL_OK)
      ensures if ok then At(b, id, AtAck) else Stands(Failed(b))
      ensures calls == ALL_OK ==> ok
      ensures ok ==> Credited(db.rows, stream[id], day, old(db.counts), db.counts)
    {
      ghost var before, all := db.counts, calls == ALL_OK;
      ok := Upsert(id, url, day, AtTotal(url, day), calls.total, clock, b);
      ghost var middle := db.counts;
      if ok && stream[id].referrer != "" {
        ghost var t := state;
        ok := Upsert(id, url, day, AtReferrer(url, day), calls.referrer, clock, b);
        LeadsOn(old(state), t, state, calls.total == Ok, calls.referrer == Ok, all);
      } else {
        LeadsAnyway(old(state), state, calls.total == Ok, all);
      }
      if ok {
        ReachableTables(state);
        BothRaised(db.View(), stream[id], url, day, before, middle, db.counts);
      }
    }

    /** The middle of handle: look the code up and raise its counters. */
    method Credit(id: nat, calls: Calls, clock: int, ghost b: Worker) returns (ok: bool)
      requires b.Busy? && id < |stream| && At(b, id, AtLookup(DayOf(stream[id], clock)))
      modifies this`state, db`counts
      ensures Leads(old(state), state, calls == ALL_OK)
      ensures if ok then At(b, id, AtAck) else Stands(Failed(b))
      ensures calls == ALL_OK ==> ok
      ensures calls == ALL_OK ==>
        forall day | day * 86400 <= (if stream[id].ts.Some? then stream[id].ts.value else clock) < (day + 1) * 86400 ::
          Credited(db.rows, stream[id], day, old(db.counts), db.counts)
    {
      ghost var all, e, before := calls == ALL_OK, stream[id], db.counts;
      var day := DayOf(stream[id], clock);
      var row := Lookup(id, day, calls.lookup, clock, b);
      LeadsAnyway(old(state), state, calls.lookup == Ok, all);
      if row.None? { return false; }
      if row.value.None? {
        NothingMatches(db.View(), e, day, db.counts);
        CreditedOnItsDay(db.rows, e, clock, before, db.counts);
        return true;
      }
      ghost var t := state;
      ok := RaiseBoth(id, row.value.value.id, day, calls, clock, b);
      LeadsOn(old(state), t, state, all, all, all);
      if all { CreditedOnItsDay(db.rows, e, clock, before, db.counts); }
    }

    method Ack(id: nat, out: Outcome, clock: int, ghost b: Worker) returns (ok: bool)
      requires b.Busy? && At(b, id, AtAck)
      modifies this`state, this`pending
      ensures Leads(old(state), state, out == Ok)
      ensures pending == (if out == Fail then old(pending) else old(pending) - {id})
      ensures ok == (out == Ok) && Stands(if ok then Handled(b) else Failed(b))
    {
      AckCall(state, id, out, clock);
      if out != Fail { pending := pending - {id}; }
      Follow(Act(0, out, clock), out == Ok);
      return out == Ok;
    }

    /** handle for an event seen for the first time. */
    method CreditAndAck(id: nat, calls: Calls, clock: int, ghost b: Worker) returns (ok: bool)
      requires b.Busy? && id < |stream| && At(b, id, AtLookup(DayOf(stream[id], clock)))
      modifies this`state, this`pending, db`counts
      ensures Leads(old(state), state, calls == ALL_OK) && Stands(if ok then Handled(b) else Failed(b))
      ensures old(pending) - {id} <= pending <= old(pending)
      ensures calls == ALL_OK ==> ok && pending == old(pending) - {id}
      ensures calls == ALL_OK ==>
        forall day | day * 86400 <= (if stream[id].ts.Some? then stream[id].ts.value else clock) < (day + 1) * 86400 ::
          Credited(db.rows, stream[id], day, old(db.counts), db.counts)
    {
      ok := Credit(id, calls, clock, b);
      if ok {
        ghost var t, all := state, calls == ALL_OK;
        ok := Ack(id, calls.ack, clock, b);
        LeadsOn(old(state), t, state, all, calls.ack == Ok, all);
      }
    }

    /** handle: whatever its calls answer, it is a run of the machine in which worker 0 counts the entry
        if it returns nil and gives up its batch if not. When every call answers, a well-formed event seen
        for the first time is claimed, acknowledged and credited to exactly the keys that it concerns and that are of
        its UTC day, which without a timestamp is the clock's. */
    method Handle(id: nat, calls: Calls, clock: int) returns (ok: bool)
      requires Valid() && Handling(state, id, AtClaim)
      modifies this`state, this`pending, db`claims, db`counts
      ensures Leads(old(state), state, calls == ALL_OK)
      ensures Stands(if ok then Handled(old(state).workers[0]) else Failed(old(state).workers[0]))
      ensures old(pending) - {id} <= pending <= old(pending) && db.claims <= old(db.claims) + {id}
      ensures calls == ALL_OK ==> ok
      ensures calls == ALL_OK && stream[id].code != "" && id !in old(db.claims) ==>
        && pending == old(pending) - {id} && db.claims == old(db.claims) + {id}
        && var ts := stream[id].ts;
           forall day | day * 86400 <= (if ts.Some? then ts.value else clock) < (day + 1) * 86400 ::
             Credited(db.rows, stream[id], day, old(db.counts), db.counts)
      ensures calls == ALL_OK && id in old(db.claims) ==> db.counts == old(db.counts)
    {
      ghost var b, all := state.workers[0], calls == ALL_OK;
      if stream[id].code == "" {
        SkipCall(state, id, Ok, clock);
        Follow(Act(0, Ok, clock), all);
        return true;
      }
      var first := Claim(id, calls.claim, clock, b);
      if first.None? {
        LeadsAnyway(old(state), state, calls.claim == Ok, all);
        return false;
      }
      ghost var t := state;
      if first.value {
        ok := CreditAndAck(id, calls, clock, b);
        LeadsOn(old(state), t, state, calls.claim == Ok, all, all);
      } else {
        ok := Ack(id, calls.ack, clock, b);
        LeadsOn(old(state), t, state, calls.claim == Ok, calls.ack == Ok, all);
      }
    }

    /** ProcessOnce, which began at `start`, is about to handle entry `id` of its batch first..cursor;
        `smooth` means that nothing has gone wrong. */
    ghost predicate Midway(start: State, batch: seq<nat>, first: nat, id: nat, smooth: bool)
      reads this, db
    {
      && first <= id <= cursor && |batch| == cursor - first && (forall k | 0 <= k < |batch| :: batch[k] == first + k)
      && Stands(Ready(batch, id - first)) && Leads(start, state, smooth) && Range(id, cursor) <= pending
    }

    /** It has given up at entry `id`. */
    ghost predicate GaveUp(start: State, batch: seq<nat>, first: nat, id: nat)
      reads this, db
    {
      && first <= id < cursor && Leads(start, state, false)
      && Stands(Returned(batch, id - first, false)) && Range(id + 1, cursor) <= pending
    }

    /** One turn of the loop in ProcessOnce. */
    method HandleNext(ghost start: State, ghost batch: seq<nat>, first: nat, id: nat, calls: Calls, clock: int,
                      ghost smooth: bool) returns (ok: bool)
      requires Midway(start, batch, first, id, smooth) && id < cursor && (smooth ==> calls == ALL_OK)
      modifies this`state, this`pending, db`claims, db`counts
      ensures if ok then Midway(start, batch, first, id + 1, smooth) else GaveUp(start, batch, first, id)
      ensures smooth ==> ok
    {
      ghost var s := state;
      ok := Handle(id, calls, clock);
      LeadsOn(start, s, state, smooth, calls == ALL_OK, smooth);
      LeadsAnyway(start, state, smooth, false);
    }

    /** XREADGROUP ">": delivers the next entries, which become pending; None on an error. */
    method ReadGroup(out: Outcome) returns (n: Option<nat>)
      requires Valid() && Idle(state, 0)
      modifies this`cursor, this`pending, this`state
      ensures Leads(old(state), state, out == Ok)
      ensures cursor == if out == Fail then old(cursor) else old(cursor) + Min(32, |stream| - old(cursor))
      ensures pending == old(pending) + Range(old(cursor), cursor)
      ensures n == if out == Ok then Some(cursor - old(cursor)) else None
      ensures Stands(if out == Ok then Ready(Stretch(old(cursor), cursor - old(cursor)), 0) else Returned([], 0, false))
    {
      ReadCall(state, out);
      var size := Min(BATCH_SIZE, |stream| - cursor);
      if out != Fail {
        pending := pending + Range(cursor, cursor + size);
        cursor := cursor + size;
      }
      Follow(Read(0, out), out == Ok);
      return if out == Ok then Some(size) else None;
    }

    /** The loop of ProcessOnce over the entries first..cursor just delivered. */
    method HandleBatch(ghost start: State, ghost batch: seq<nat>, first: nat, answers: nat -> Calls, clock: int,
                       ghost smooth: bool) returns (processed: nat, ok: bool)
      requires Midway(start, batch, first, first, smooth) && (smooth ==> forall k :: answers(k) == ALL_OK)
      modifies this`state, this`pending, db`claims, db`counts
      ensures if ok then Midway(start, batch, first, cursor, smooth) && processed == cursor - first
              else GaveUp(start, batch, first, first + processed)
      ensures smooth ==> ok
    {
      processed := 0;
      var id, end := first, cursor;
      while id < end
        invariant processed == id - first && id <= end && Midway(start, batch, first, id, smooth)
      {
        ok := HandleNext(start, batch, first, id, answers(id), clock, smooth);
        if !ok { return; }
        id := id + 1;
        processed := processed + 1;
      }
      ok := true;
      assert id == cursor;
    }

    /** ProcessOnce once the batch first..cursor has been delivered. */
    method HandleDelivered(ghost start: State, first: nat, answers: nat -> Calls, clock: int, ghost smooth: bool)
      returns (processed: nat, ok: bool)
      requires first <= cursor && Midway(start, Stretch(first, cursor - first), first, first, smooth)
      requires smooth ==> forall k :: answers(k) == ALL_OK
      modifies this`state, this`pending, db`claims, db`counts
      ensures Valid() && Idle(state, 0) && Leads(start, state, smooth)
      ensures forall i: nat :: ReturnedNil(Verdicts(state, 0), i) <==> i < processed
      ensures forall i | first <= i < first + processed :: Dealt(state, i)
      ensures if ok then processed == cursor - first
              else processed < cursor - first && Range(first + processed + 1, cursor) <= pending
      ensures smooth ==> ok
    {
      processed, ok := HandleBatch(start, Stretch(first, cursor - first), first, answers, clock, smooth);
      FrontHandled(state, first, Stretch(first, cursor - first), processed, ok);
    }

    /** ProcessOnce: `answers` says how the calls for each entry end. It is a run of the machine, a smooth one when
        every call answers. The number returned is that of the entries at the front of the batch whose `handle`
        returned nil; the next one's did not, unless that was all; what is behind it stays pending. */
    method ProcessOnce(read: Outcome, answers: nat -> Calls, clock: int) returns (processed: nat, ok: bool)
      requires Valid() && Idle(state, 0)
      modifies this`state, this`cursor, this`pending, db`claims, db`counts
      ensures Valid() && Idle(state, 0)
      ensures Leads(old(state), state, read == Ok && forall k :: answers(k) == ALL_OK)
      ensures cursor == if read == Fail then old(cursor) else old(cursor) + Min(32, |stream| - old(cursor))
      ensures processed <= cursor - old(cursor)
      ensures forall i: nat :: ReturnedNil(Verdicts(state, 0), i) <==> i < processed
      ensures forall i | old(cursor) <= i < old(cursor) + processed :: Dealt(state, i)
      ensures ok ==> read == Ok && processed == cursor - old(cursor)
      ensures !ok && read == Ok ==>
        processed < cursor - old(cursor) && Range(old(cursor) + processed + 1, cursor) <= pending
      ensures read != Ok ==> processed == 0 && Range(old(cursor), cursor) <= pending
      ensures read == Ok && (forall k :: answers(k) == ALL_OK) ==> ok
    {
      ghost var s, smooth := state, read == Ok && forall k :: answers(k) == ALL_OK;
      var first := cursor;
      var batch := ReadGroup(read);
      LeadsAnyway(s, state, read == Ok, smooth);
      if batch.None? {
        FrontHandled(state, first, [], 0, false);
        return 0, false;
      }
      processed, ok := HandleDelivered(s, first, answers, clock, smooth);
    }

    /** Repeating ProcessOnce while nothing fails, and with nobody else at work: it stops with nothing undelivered;
        the counters have gone up by one group-by pass over what was delivered, wherever the batches were cut; and
        of that only malformed entries are pending. */
    method Drain(clock: int)
      requires Valid() && Quiet(state) && Stamped(stream, cursor)
      modifies this`state, this`cursor, this`pending, db`claims, db`counts
      ensures Valid() && Quiet(state) && Leads(old(state), state, true) && cursor == |stream|
      ensures pending == old(pending) + Malformed(stream, old(cursor), |stream|)
      ensures Tallied(db.rows, stream, old(cursor), |stream|, old(db.counts), db.counts)
    {
      LeadsNowhere(state);
      while true
        invariant Valid() && Idle(state, 0) && Leads(old(state), state, true)
        decreases |stream| - cursor
      {
        ghost var t := state;
        var n, ok := ProcessOnce(Ok, _ => ALL_OK, clock);
        LeadsOn(old(state), t, state, true, true, true);
        if n == 0 { break; }
      }
      SmoothlyLed(old(state), state);
    }
  }

  lemma TallyGrows(rows: map<nat, Row>, stream: seq<Event>, e: Event, k: Key)
    ensures Tally(rows, stream + [e], 0, |stream| + 1, k) ==
            Tally(rows, stream, 0, |stream|, k) + if Matches(rows, e, k) then 1 else 0
  {
    TallyOfPrefix(rows, stream, e, |stream|, k);
  }

  lemma {:induction false} TallyOfPrefix(rows: map<nat, Row>, stream: seq<Event>, e: Event, hi: nat, k: Key)
    requires hi <= |stream|
    ensures Tally(rows, stream + [e], 0, hi, k) == Tally(rows, stream, 0, hi, k)
    decreases hi
  {
    if hi > 0 {
      TallyOfPrefix(rows, stream, e, hi - 1, k);
    }
  }

  lemma OneMoreEvent(rows: map<nat, Row>, stream: seq<Event>, e: Event, middle: map<Key, nat>, after: map<Key, nat>)
    requires Tallied(rows, stream, 0, |stream|, map[], middle)
    requires Tallied(rows, stream + [e], |stream|, |stream| + 1, middle, after)
    ensures Tallied(rows, stream + [e], 0, |stream| + 1, map[], after)
  {
    forall k: Key ensures Count(after, k) == Tally(rows, stream + [e], 0, |stream| + 1, k) {
      TallyGrows(rows, stream, e, k);
      assert (stream + [e])[|stream|] == e;
      assert Tally(rows, stream + [e], |stream|, |stream|, k) == 0;
    }
  }

  /** Everything in the stream has been consumed, and the counters show each of it once. */
  ghost predicate UpToDate(consumer: Consumer)
    reads consumer, consumer.db
  {
    && consumer.Valid() && Quiet(consumer.state) && consumer.cursor == |consumer.stream|
    && Tallied(consumer.db.rows, consumer.stream, 0, |consumer.stream|, map[], consumer.db.counts)
  }

  method OpenWithLink(db: Database, code: string, longURL: string) returns (consumer: Consumer, made: Reply<nat>)
    requires db.View() == EMPTY && CodeSpace.ValidCustom(code)
    modifies db
    ensures fresh(consumer) && consumer.db == db && consumer.stream == [] && UpToDate(consumer)
    ensures if 1 <= |longURL| <= 2048 then made == Done(1) && db.rows == map[1 := Row(1, Some(code), longURL, None, 0)]
            else made.Refused? && db.rows == map[]
  {
    consumer := new Consumer(db, [], CodeSpace.INIT);
    made := db.CreateWithCode(code, longURL, None, 0);
    consumer.TableMoved(CodeSpace.InsertCustom(code, longURL, None, 0, Ok));
  }

  method CountClick(consumer: Consumer, e: Event, clock: int)
    requires UpToDate(consumer) && e.ts.Some?
    modifies consumer`stream, consumer`state, consumer`cursor, consumer`pending, consumer.db`claims, consumer.db`counts
    ensures UpToDate(consumer) && consumer.stream == old(consumer.stream) + [e]
  {
    ghost var before, middle := consumer.stream, consumer.db.counts;
    consumer.Append(e);
    consumer.Drain(clock);
    OneMoreEvent(consumer.db.rows, before, e, middle, consumer.db.counts);
  }

  method CountEach(consumer: Consumer, events: seq<Event>, clock: int)
    requires UpToDate(consumer) && Stamped(events, 0)
    modifies consumer`stream, consumer`state, consumer`cursor, consumer`pending, consumer.db`claims, consumer.db`counts
    ensures UpToDate(consumer) && consumer.stream == old(consumer.stream) + events
  {
    for i := 0 to |events|
      invariant UpToDate(consumer) && consumer.stream == old(consumer.stream) + events[..i]
    {
      CountClick(consumer, events[i], clock);
      assert events[..i + 1] == events[..i] + [events[i]];
    }
    assert events[..|events|] == events;
  }

  /** A client of it all: a link is made after the consumer is up, and events keep coming in between batches. */
  method CountClicks(db: Database, code: string, longURL: string, events: seq<Event>, clock: int)
    returns (made: Reply<nat>)
    requires db.View() == EMPTY && CodeSpace.ValidCustom(code) && Stamped(events, 0)
    modifies db
    ensures if 1 <= |longURL| <= 2048 then made == Done(1) && db.rows == map[1 := Row(1, Some(code), longURL, None, 0)]
            else made.Refused? && db.rows == map[]
    ensures forall k: Key :: Count(db.counts, k) == Tally(db.rows, events, 0, |events|, k)
  {
    var consumer;
    consumer, made := OpenWithLink(db, code, longURL);
    CountEach(consumer, events, clock);
    assert [] + events == events;
  }
}
