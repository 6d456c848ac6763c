/** Runs showing that the conditions and bounds proved in Idempotency are the right ones. */
module IdempotencyWitness {
  import opened Common
  import opened Schema
  import opened Idempotency
  import CodeSpace
  import Base62

  ghost predicate GoodRun(s: State, ls: seq<Label>) {
    PromptRun(s, ls) && RememberedRun(s, ls)
  }

  lemma Prepend(s: State, l: Label, ls: seq<Label>)
    requires Prompt(s) && Remembered(s) && Answered(s, l) && !l.LoseResp?
    requires Next(s, l).Some? && GoodRun(Next(s, l).value, ls)
    ensures GoodRun(s, [l] + ls) && Run(s, [l] + ls) == Run(Next(s, l).value, ls)
  {
    assert ([l] + ls)[1..] == ls;
  }

  const AUTO := Params(None, "u", None)

  ghost function Start(): State {
    State(0, None, None, CodeSpace.INIT, map[], {}, {}, {}, map[], {}, None)
  }

  /** Of the requests 0..n-1, all seen to miss, the first k are finished. */
  ghost predicate Lined(s: State, k: nat, n: nat) {
    && s.reqs.Keys == s.early && |s.early| == n && s.blind == {}
    && (forall r | r in s.reqs :: r < n && s.reqs[r].params == AUTO)
    && (forall r | 0 <= r < n :: r in s.reqs && (if r < k then s.reqs[r].phase.Finished? else s.reqs[r].phase.Missed?))
  }

  /** Time stands at 0, the lock is free, and k rows have been created under the key. */
  ghost predicate Table(s: State, k: nat) {
    && s.now == 0 && s.lock == None && (s.firstSet == None || s.firstSet == Some(0))
    && (k == 0 ==> s.firstSet == None && s.resp == None)
    && CodeSpace.Inv(s.space) && s.space.custom == {} && s.space.db.nextId == k + 1
    && |s.authors| == k && (forall id | id in s.authors :: id <= k)
  }

  ghost predicate Stage(s: State, k: nat, n: nat) {
    Table(s, k) && Lined(s, k, n)
  }

  lemma Look(s: State, k: nat) returns (t: State, u: State)
    requires Stage(s, 0, k)
    ensures Next(s, Arrive(k, AUTO)) == Some(t) && Next(t, Act(k, Ok)) == Some(u)
    ensures t == s.(reqs := s.reqs[k := Request(AUTO, Arrived)])
    ensures u == s.(reqs := s.reqs[k := Request(AUTO, Missed)], early := s.early + {k})
  {
    t := NewRequest(s, k);
    u := FirstGet(t, k);
    assert u.reqs == s.reqs[k := Request(AUTO, Missed)];
  }

  lemma NewRequest(s: State, k: nat) returns (t: State)
    requires Stage(s, 0, k)
    ensures Next(s, Arrive(k, AUTO)) == Some(t) && t == s.(reqs := s.reqs[k := Request(AUTO, Arrived)])
  {
    assert k !in s.reqs by { assert k !in s.early; }
    t := Next(s, Arrive(k, AUTO)).value;
  }

  lemma FirstGet(t: State, k: nat) returns (u: State)
    requires k in t.reqs && t.reqs[k].phase == Arrived && t.resp == None && t.firstSet == None
    ensures Next(t, Act(k, Ok)) == Some(u)
    ensures u == t.(reqs := t.reqs[k := t.reqs[k].(phase := Missed)], early := t.early + {k})
  {
    u := Next(t, Act(k, Ok)).value;
  }

  lemma LookAdvances(s: State, k: nat, u: State)
    requires Lined(s, 0, k) && u == s.(reqs := s.reqs[k := Request(AUTO, Missed)], early := s.early + {k})
    ensures Lined(u, 0, k + 1)
  {
    assert k !in s.early;
    assert u.reqs.Keys == s.reqs.Keys + {k};
    assert |u.early| == k + 1;
  }

  lemma LookNext(s: State, k: nat) returns (t: State, u: State)
    requires Stage(s, 0, k)
    ensures Next(s, Arrive(k, AUTO)) == Some(t) && Next(t, Act(k, Ok)) == Some(u) && Stage(u, 0, k + 1)
    ensures Prompt(s) && Remembered(s) && Prompt(t) && Remembered(t)
  {
    t, u := Look(s, k);
    LookAdvances(s, k, u);
  }

  /** The lock is free, so the request claims it and inserts its row. */
  lemma Insertion(s: State, k: nat, n: nat) returns (c: State, t: State)
    requires Stage(s, k, n) && k < n <= MAX_ID
    ensures Next(s, Act(k, Ok)) == Some(c) && Next(c, Act(k, Ok)) == Some(t)
    ensures c == s.(reqs := s.reqs[k := Request(AUTO, Inserting(Some(0)))], lock := Some(LOCK_TTL),
                    claimers := s.claimers + {k})
    ensures t == c.(space := t.space, reqs := s.reqs[k := Request(AUTO, Assigning(Some(0), k + 1))],
                    authors := s.authors[k + 1 := k])
    ensures k + 1 in t.space.inFlight
    ensures t.space.custom == {} && CodeSpace.Inv(t.space) && t.space.db.nextId == k + 2
  {
    c := Next(s, Act(k, Ok)).value;
    t := Next(c, Act(k, Ok)).value;
    CodeSpace.StepKeepsInv(s.space, InsertCall(AUTO, 0, Ok));
    assert t.reqs == s.reqs[k := Request(AUTO, Assigning(Some(0), k + 1))];
  }

  lemma Coding(t: State, k: nat) returns (u: State, v: State)
    requires k in t.reqs && t.reqs[k] == Request(AUTO, Assigning(Some(0), k + 1))
    requires k + 1 in t.space.inFlight && t.space.custom == {} && CodeSpace.Inv(t.space)
    ensures Next(t, Act(k, Ok)) == Some(u) && Next(u, Act(k, Ok)) == Some(v)
    ensures u == t.(space := u.space, reqs := t.reqs[k := u.reqs[k]])
    ensures u.reqs[k].phase.Reading? && u.reqs[k].phase.claim == Some(0)
    ensures v == u.(reqs := t.reqs[k := v.reqs[k]])
    ensures v.reqs[k].phase.Recording? && v.reqs[k].phase.since == 0 && v.reqs[k].phase.row.code.Some?
    ensures u.space.custom == {} && CodeSpace.Inv(u.space) && u.space.db.nextId == t.space.db.nextId
  {
    var code := Base62.Encode(k + 1);
    CodeSpace.AssignConflictsIff(t.space, k + 1);
    CodeSpace.StepKeepsInv(t.space, CodeSpace.AssignCode(k + 1, Ok));
    u := Next(t, Act(k, Ok)).value;
    FindIs(u.space.db, k + 1, code);
    v := Next(u, Act(k, Ok)).value;
    assert v.reqs == t.reqs[k := v.reqs[k]];
  }

  lemma Recorded(v: State, k: nat) returns (w: State, x: State)
    requires k in v.reqs && v.reqs[k].phase.Recording? && v.reqs[k].phase.row.code.Some? && v.now == 0
    ensures Next(v, Act(k, Ok)) == Some(w) && Next(w, Act(k, Ok)) == Some(x)
    ensures w.reqs == v.reqs[k := w.reqs[k]]
    ensures w.reqs[k].phase == Releasing(v.reqs[k].phase.since, v.reqs[k].phase.id, v.reqs[k].phase.row)
    ensures w.now == 0 && w.lock == v.lock && w.firstSet == (if v.firstSet.None? then Some(0) else v.firstSet)
    ensures x == v.(resp := x.resp, records := x.records, firstSet := w.firstSet, lock := None,
                    reqs := v.reqs[k := v.reqs[k].(phase := x.reqs[k].phase)])
    ensures x.reqs[k].phase.Finished?
  {
    w := Next(v, Act(k, Ok)).value;
    x := Next(w, Act(k, Ok)).value;
    assert x.reqs == v.reqs[k := v.reqs[k].(phase := x.reqs[k].phase)];
  }

  ghost predicate Calm(s: State) {
    s.now == 0 && (s.firstSet == None || s.firstSet == Some(0)) &&
    forall r | r in s.reqs && Holding(s.reqs[r].phase) :: Since(s.reqs[r].phase) == 0
  }

  lemma StageIsCalm(s: State, k: nat, n: nat)
    requires Stage(s, k, n)
    ensures Calm(s)
  {}

  lemma CalmChange(s: State, t: State, k: nat)
    requires Calm(s) && k in t.reqs && t.reqs == s.reqs[k := t.reqs[k]]
    requires t.now == 0 && (t.firstSet == None || t.firstSet == Some(0))
    requires Holding(t.reqs[k].phase) ==> Since(t.reqs[k].phase) == 0
    ensures Calm(t)
  {}

  lemma LineAdvances(s: State, k: nat, n: nat, x: State)
    requires Lined(s, k, n) && k < n && x.early == s.early && x.blind == s.blind
    requires k in x.reqs && x.reqs == s.reqs[k := x.reqs[k]]
    requires x.reqs[k].phase.Finished? && x.reqs[k].params == AUTO
    ensures Lined(x, k + 1, n)
  {}

  lemma TableAdvances(s: State, k: nat, x: State)
    requires Table(s, k) && x.authors == s.authors[k + 1 := k]
    requires x.now == 0 && x.lock == None && x.firstSet == Some(0)
    requires CodeSpace.Inv(x.space) && x.space.custom == {} && x.space.db.nextId == k + 2
    ensures Table(x, k + 1)
  {
    assert k + 1 !in s.authors;
    assert x.authors.Keys == s.authors.Keys + {k + 1};
  }

  lemma CalmPrepend(s: State, k: nat, ls: seq<Label>)
    requires Calm(s) && Next(s, Act(k, Ok)).Some? && GoodRun(Next(s, Act(k, Ok)).value, ls)
    ensures GoodRun(s, [Act(k, Ok)] + ls) && Run(s, [Act(k, Ok)] + ls) == Run(Next(s, Act(k, Ok)).value, ls)
  {
    Prepend(s, Act(k, Ok), ls);
  }

  /** Request k has inserted its row since stage s, and has yet to give it a code. */
  ghost predicate HasInserted(s: State, t: State, k: nat) {
    && CodeSpace.Inv(t.space) && t.space.custom == {} && t.space.db.nextId == k + 2 && k + 1 in t.space.inFlight
    && t == s.(space := t.space, lock := Some(LOCK_TTL), claimers := s.claimers + {k},
               reqs := s.reqs[k := Request(AUTO, Assigning(Some(0), k + 1))], authors := s.authors[k + 1 := k])
  }

  /** Request k has read its coded row back since stage s, and has yet to record it. */
  ghost predicate HasCoded(s: State, v: State, k: nat) {
    && CodeSpace.Inv(v.space) && v.space.custom == {} && v.space.db.nextId == k + 2
    && k in v.reqs && v.reqs[k].phase.Recording? && v.reqs[k].params == AUTO
    && v.reqs[k].phase.since == 0 && v.reqs[k].phase.row.code.Some?
    && v == s.(space := v.space, lock := Some(LOCK_TTL), claimers := s.claimers + {k},
               reqs := s.reqs[k := v.reqs[k]], authors := s.authors[k + 1 := k])
  }

  /** From every stage the remaining requests can create their rows one after the other. */
  lemma {:induction false} CreateRest(s: State, k: nat, n: nat) returns (ls: seq<Label>)
    requires Stage(s, k, n) && k <= n <= MAX_ID
    ensures GoodRun(s, ls) && Run(s, ls).Some? && Stage(Run(s, ls).value, n, n)
    decreases n - k, 2
  {
    StageIsCalm(s, k, n);
    if k == n {
      ls := [];
    } else {
      var c, t := Insertion(s, k, n);
      ls := CodeRest(s, t, k, n);
      CalmChange(s, c, k);
      CalmPrepend(c, k, ls);
      CalmPrepend(s, k, [Act(k, Ok)] + ls);
      ls := [Act(k, Ok)] + ([Act(k, Ok)] + ls);
    }
  }

  lemma {:induction false} CodeRest(s: State, t: State, k: nat, n: nat) returns (ls: seq<Label>)
    requires Stage(s, k, n) && k < n <= MAX_ID && HasInserted(s, t, k)
    ensures GoodRun(t, ls) && Run(t, ls).Some? && Stage(Run(t, ls).value, n, n)
    decreases n - k, 1
  {
    var u, v := Coding(t, k);
    assert v.reqs == s.reqs[k := v.reqs[k]];
    ls := RecordRest(s, v, k, n);
    StageIsCalm(s, k, n);
    CalmChange(s, t, k);
    CalmChange(t, u, k);
    CalmPrepend(u, k, ls);
    CalmPrepend(t, k, [Act(k, Ok)] + ls);
    ls := [Act(k, Ok)] + ([Act(k, Ok)] + ls);
  }

  lemma {:induction false} RecordRest(s: State, v: State, k: nat, n: nat) returns (ls: seq<Label>)
    requires Stage(s, k, n) && k < n <= MAX_ID && HasCoded(s, v, k)
    ensures GoodRun(v, ls) && Run(v, ls).Some? && Stage(Run(v, ls).value, n, n)
    decreases n - k, 0
  {
    var w, x := Recorded(v, k);
    LineAdvances(s, k, n, x);
    TableAdvances(s, k, x);
    ls := CreateRest(x, k + 1, n);
    StageIsCalm(s, k, n);
    CalmChange(s, v, k);
    CalmChange(v, w, k);
    ls := PrependRecord(v, w, x, k, ls);
  }

  lemma PrependRecord(v: State, w: State, x: State, k: nat, rest: seq<Label>) returns (ls: seq<Label>)
    requires Calm(v) && Calm(w) && Next(v, Act(k, Ok)) == Some(w) && Next(w, Act(k, Ok)) == Some(x) && GoodRun(x, rest)
    ensures GoodRun(v, ls) && Run(v, ls) == Run(x, rest)
  {
    CalmPrepend(w, k, rest);
    CalmPrepend(v, k, [Act(k, Ok)] + rest);
    ls := [Act(k, Ok)] + ([Act(k, Ok)] + rest);
  }

  lemma {:induction false} LookAll(s: State, k: nat, n: nat) returns (ls: seq<Label>)
    requires Stage(s, 0, k) && k <= n <= MAX_ID
    ensures GoodRun(s, ls) && Run(s, ls).Some? && Stage(Run(s, ls).value, n, n)
    decreases n - k
  {
    if k == n {
      ls := CreateRest(s, 0, n);
    } else {
      var t, u := LookNext(s, k);
      ls := LookAll(u, k + 1, n);
      ls := PrependLook(s, t, u, k, ls);
    }
  }

  lemma PrependLook(s: State, t: State, u: State, k: nat, rest: seq<Label>) returns (ls: seq<Label>)
    requires Prompt(s) && Remembered(s) && Prompt(t) && Remembered(t) && GoodRun(u, rest)
    requires Next(s, Arrive(k, AUTO)) == Some(t) && Next(t, Act(k, Ok)) == Some(u)
    ensures GoodRun(s, ls) && Run(s, ls) == Run(u, rest)
  {
    Prepend(t, Act(k, Ok), rest);
    Prepend(s, Arrive(k, AUTO), [Act(k, Ok)] + rest);
    ls := [Arrive(k, AUTO)] + ([Act(k, Ok)] + rest);
  }

  /** The bound on rows per key is met: n prompt requests under one key, Redis answering every
      call and nothing expiring, can all write a row if all of them looked before the first Set. */
  lemma RowBoundIsTight(n: nat)
    requires n <= MAX_ID
    ensures exists ls | PromptRun(Start(), ls) && RememberedRun(Start(), ls) && Run(Start(), ls).Some? ::
      var t := Run(Start(), ls).value;
      |t.authors| == n == |t.early| && t.blind == {} && t.reqs.Keys == t.early
  {
    var ls := LookAll(Start(), 0, n);
  }

  // ------------------------------------------------- what goes wrong otherwise

  /** Every call of a request in the run answers. */
  ghost predicate AllAnswer(ls: seq<Label>) {
    forall l | l in ls && l.Act? :: l.out == Ok
  }

  ghost predicate Reachable(s: State) {
    exists ls :: AllAnswer(ls) && Run(Start(), ls) == Some(s)
  }

  lemma {:induction false} RunThenStep(s: State, ls: seq<Label>, l: Label)
    requires Run(s, ls).Some?
    ensures Run(s, ls + [l]) == Next(Run(s, ls).value, l)
    decreases |ls|
  {
    if ls == [] {
      assert [l][1..] == [];
    } else {
      RunThenStep(Next(s, ls[0]).value, ls[1..], l);
      assert (ls + [l])[1..] == ls[1..] + [l];
    }
  }

  lemma ReachNext(s: State, l: Label)
    requires Reachable(s) && Next(s, l).Some? && (l.Act? ==> l.out == Ok)
    ensures Reachable(Next(s, l).value)
  {
    var ls :| AllAnswer(ls) && Run(Start(), ls) == Some(s);
    RunThenStep(Start(), ls, l);
    assert AllAnswer(ls + [l]);
  }

  const CHOSEN := Params(Some("abc"), "u", None)
  const FIRST_ROW := Row(1, Some("abc"), "u", None, 0)
  const STRANGER := FIRST_ROW.(id := 2)
  const FIRST_TABLE := CodeSpace.State(Db(map[1 := FIRST_ROW], 2, map[], {}), {}, {}, {1})
  const BARE_TABLE := CodeSpace.State(Db(map[], 2, map[], {}), {}, {}, {1})
  const OTHER_TABLE := CodeSpace.State(Db(map[2 := STRANGER], 3, map[], {}), {}, {}, {1, 2})

  /** Requests 1 and 2 have missed; request 0 has created "abc", recorded it, and is about to release. */
  ghost predicate AboutToRelease(s: State) {
    && s.now == 0 && s.resp == Some(Stamp("abc", RESP_TTL)) && s.lock == Some(LOCK_TTL)
    && s.space == FIRST_TABLE && s.authors == map[1 := 0]
    && s.reqs == map[0 := Request(CHOSEN, Releasing(0, 1, FIRST_ROW)),
                     1 := Request(AUTO, Missed), 2 := Request(AUTO, Missed)]
  }

  lemma ThreeArrived() returns (s: State)
    ensures Reachable(s)
    ensures s == Start().(reqs :=
      map[0 := Request(CHOSEN, Arrived), 1 := Request(AUTO, Arrived), 2 := Request(AUTO, Arrived)])
  {
    s := Start();
    assert Run(s, []) == Some(s);
    ReachNext(s, Arrive(0, CHOSEN));
    s := Next(s, Arrive(0, CHOSEN)).value;
    ReachNext(s, Arrive(1, AUTO));
    s := Next(s, Arrive(1, AUTO)).value;
    ReachNext(s, Arrive(2, AUTO));
    s := Next(s, Arrive(2, AUTO)).value;
  }

  lemma ThreeMissed() returns (s: State)
    ensures Reachable(s)
    ensures s == Start().(reqs :=
      map[0 := Request(CHOSEN, Missed), 1 := Request(AUTO, Missed), 2 := Request(AUTO, Missed)],
                          early := s.early)
  {
    s := ThreeArrived();
    var u := FirstGet(s, 0);
    ReachNext(s, Act(0, Ok));
    var v := FirstGet(u, 1);
    ReachNext(u, Act(1, Ok));
    s := FirstGet(v, 2);
    ReachNext(v, Act(2, Ok));
  }

  lemma ChosenIsValid()
    ensures CodeSpace.ValidCustom("abc")
  {
    assert CodeSpace.Lower("abc")[1] == 'b';
  }

  /** "abc" is free in an empty table. */
  lemma ChosenInserted(space: CodeSpace.State)
    requires space.db == Db(map[], space.db.nextId, map[], {}) && space.db.nextId <= MAX_ID
    ensures var id := space.db.nextId;
      CodeSpace.Next(space, CodeSpace.InsertCustom("abc", "u", None, 0, Ok)) ==
      Some(space.(db := Db(map[id := FIRST_ROW.(id := id)], id + 1, map[], {}), custom := space.custom + {id}))
  {
    ChosenIsValid();
    assert !Taken(space.db, "abc");
  }

  lemma FirstClaimed() returns (s: State)
    ensures Reachable(s) && s.now == 0 && s.resp == None && s.lock == Some(LOCK_TTL) && s.authors == map[]
    ensures s.space == CodeSpace.INIT
    ensures s.reqs == map[0 := Request(CHOSEN, Inserting(Some(0))),
                          1 := Request(AUTO, Missed), 2 := Request(AUTO, Missed)]
  {
    s := ThreeMissed();
    ReachNext(s, Act(0, Ok));
    s := Next(s, Act(0, Ok)).value;
  }

  lemma FirstInserted() returns (s: State)
    ensures Reachable(s) && s.now == 0 && s.resp == None && s.lock == Some(LOCK_TTL) && s.authors == map[1 := 0]
    ensures s.space == FIRST_TABLE
    ensures s.reqs == map[0 := Request(CHOSEN, Reading(Some(0), 1, "abc")),
                          1 := Request(AUTO, Missed), 2 := Request(AUTO, Missed)]
  {
    s := FirstClaimed();
    ChosenInserted(s.space);
    ReachNext(s, Act(0, Ok));
    s := Next(s, Act(0, Ok)).value;
  }

  lemma FirstReadBack() returns (s: State)
    ensures Reachable(s) && s.now == 0 && s.resp == None && s.lock == Some(LOCK_TTL) && s.authors == map[1 := 0]
    ensures s.space == FIRST_TABLE
    ensures s.reqs == map[0 := Request(CHOSEN, Recording(0, 1, FIRST_ROW)),
                          1 := Request(AUTO, Missed), 2 := Request(AUTO, Missed)]
  {
    s := FirstInserted();
    FindIs(s.space.db, 1, "abc");
    ReachNext(s, Act(0, Ok));
    s := Next(s, Act(0, Ok)).value;
  }

  lemma ReleaseReached() returns (s: State)
    ensures Reachable(s) && AboutToRelease(s)
  {
    s := FirstReadBack();
    ReachNext(s, Act(0, Ok));
    s := Next(s, Act(0, Ok)).value;
  }

  /** Request 0 comes to its Release at the very end of its lock's life; all others are prompt. */
  ghost predicate OnlyZeroIsLate(u: State) {
    && 0 in u.reqs && u.reqs[0].phase.Releasing? && u.now == u.reqs[0].phase.since + LOCK_TTL
    && (forall r | r in u.reqs && r != 0 && Holding(u.reqs[r].phase) :: u.now < Since(u.reqs[r].phase) + LOCK_TTL)
  }

  /** Promptness matters because Release deletes whatever lock is there: every call answers and a single
      request is late, by no more than an instant, and yet its Release lets a second claimer in beside a first,
      both of them within their time. */
  lemma LateReleaseBreaksExclusion()
    ensures exists u, v, s :: (
      Reachable(u) && OnlyZeroIsLate(u) && Next(u, Act(0, Ok)) == Some(v) && Next(v, Act(2, Ok)) == Some(s) &&
      1 in s.reqs && 2 in s.reqs && s.reqs[1].phase == s.reqs[2].phase == Inserting(Some(s.now)))
  {
    var u := SecondCreator();
    var v := Next(u, Act(0, Ok)).value;
    var s := Next(v, Act(2, Ok)).value;
    assert 1 in s.reqs && 2 in s.reqs;
  }

  /** The lock has run out and request 1 has claimed it. */
  lemma SecondCreator() returns (u: State)
    ensures Reachable(u) && OnlyZeroIsLate(u) && u.reqs.Keys == {0, 1, 2}
    ensures u.reqs[1].phase == Inserting(Some(u.now)) && u.reqs[2].phase.Missed?
  {
    var s := ReleaseReached();
    ReachNext(s, Tick(LOCK_TTL));
    s := Next(s, Tick(LOCK_TTL)).value;
    ReachNext(s, Act(1, Ok));
    u := Next(s, Act(1, Ok)).value;
  }

  lemma TableBared()
    ensures CodeSpace.Next(FIRST_TABLE, CodeSpace.Remove("abc", Ok)) == Some(BARE_TABLE) && CodeSpace.Inv(BARE_TABLE)
  {
    FindIs(FIRST_TABLE.db, 1, "abc");
    assert FIRST_TABLE.db.rows - {1} == map[];
  }

  lemma TableRetaken()
    ensures CodeSpace.Next(BARE_TABLE, CodeSpace.InsertCustom("abc", "u", None, 0, Ok)) == Some(OTHER_TABLE)
    ensures CodeSpace.Inv(OTHER_TABLE)
  {
    TableBared();
    ChosenInserted(BARE_TABLE);
    assert {1} + {2} == {1, 2};
    CodeSpace.StepKeepsInv(BARE_TABLE, CodeSpace.InsertCustom("abc", "u", None, 0, Ok));
  }

  /** Somebody deletes the first row and takes its code. */
  lemma CodeTaken(s: State) returns (t: State)
    requires Reachable(s) && s.authors == map[1 := 0] && s.space == FIRST_TABLE
    ensures Reachable(t) && t == s.(space := OTHER_TABLE)
  {
    var gone, again := Other(CodeSpace.Remove("abc", Ok)), Other(CodeSpace.InsertCustom("abc", "u", None, 0, Ok));
    TableBared();
    TableRetaken();
    ReachNext(s, gone);
    t := Next(s, gone).value;
    ReachNext(t, again);
    t := Next(t, again).value;
  }

  lemma CodeChangesHands() returns (s: State)
    ensures Reachable(s) && s.now == 0 && s.resp == Some(Stamp("abc", RESP_TTL)) && s.authors == map[1 := 0]
    ensures s.space == OTHER_TABLE && 3 !in s.reqs
  {
    s := ReleaseReached();
    s := CodeTaken(s);
  }

  /** If the recorded row is deleted and somebody else takes its code, a replay reports success
      with a row that no request under the key ever wrote. */
  lemma ReplayMayServeAnotherLink()
    ensures exists s :: (
      Reachable(s) && 3 in s.reqs && s.reqs[3].phase.Finished? &&
      s.reqs[3].phase.result.Replayed? && s.reqs[3].phase.result.row.id !in s.authors)
  {
    var s := CodeChangesHands();
    s := ThirdReplays(s);
  }

  /** The code on record is a stranger's by now, and request 3 replays it. */
  lemma ThirdReplays(s: State) returns (t: State)
    requires Reachable(s) && s.now == 0 && s.resp == Some(Stamp("abc", RESP_TTL)) && 3 !in s.reqs
    requires s.space == OTHER_TABLE
    ensures Reachable(t) && 3 in t.reqs && t.reqs[3].phase == Finished(Replayed(STRANGER))
    ensures t.records == s.records && t.authors == s.authors && t.space == s.space
  {
    var u := ThirdLooks(s);
    TableRetaken();
    FindIs(u.space.db, 2, "abc");
    ReachNext(u, Act(3, Ok));
    t := Next(u, Act(3, Ok)).value;
  }

  lemma ThirdLooks(s: State) returns (t: State)
    requires Reachable(s) && s.now == 0 && s.resp == Some(Stamp("abc", RESP_TTL)) && 3 !in s.reqs
    ensures Reachable(t) && 3 in t.reqs && t.reqs[3] == Request(AUTO, Replaying("abc"))
    ensures t.records == s.records && t.authors == s.authors && t.space == s.space
  {
    ReachNext(s, Arrive(3, AUTO));
    t := Next(s, Arrive(3, AUTO)).value;
    ReachNext(t, Act(3, Ok));
    t := Next(t, Act(3, Ok)).value;
  }

  /** Before request 0 reads its row back, somebody deletes it and takes its code. */
  lemma SwappedBeforeRead() returns (s: State)
    ensures Reachable(s) && s.now == 0 && s.resp == None && s.lock == Some(LOCK_TTL) && s.authors == map[1 := 0]
    ensures s.space == OTHER_TABLE
    ensures s.reqs == map[0 := Request(CHOSEN, Reading(Some(0), 1, "abc")),
                          1 := Request(AUTO, Missed), 2 := Request(AUTO, Missed)]
  {
    s := FirstInserted();
    s := CodeTaken(s);
  }

  lemma StrangerRecorded() returns (s: State)
    ensures Reachable(s) && s.now == 0 && s.resp == Some(Stamp("abc", RESP_TTL)) && s.authors == map[1 := 0]
    ensures s.space == OTHER_TABLE
    ensures 3 !in s.reqs && Record(0, 1, STRANGER) in s.records
  {
    s := SwappedBeforeRead();
    TableRetaken();
    FindIs(s.space.db, 2, "abc");
    ReachNext(s, Act(0, Ok));
    s := Next(s, Act(0, Ok)).value;
    ReachNext(s, Act(0, Ok));
    s := Next(s, Act(0, Ok)).value;
  }

  /** createOne reads its row back by code. If the row is deleted and its code taken again before that,
      the claimer records a stranger's row, and the replay serves it while it is live and recorded. */
  lemma RecordedRowMayBeAnotherLink()
    ensures exists s, rec: Record :: (
      Reachable(s) && 3 in s.reqs && s.reqs[3].phase == Finished(Replayed(rec.row)) &&
      rec in s.records && rec.row.id in s.space.db.rows && rec.row.id !in s.authors)
  {
    var s := StrangerRecorded();
    s := ThirdReplays(s);
    assert Record(0, 1, STRANGER) in s.records;
  }
}
