/** The create of Service, uninterrupted, as a run of the machine of Idempotency: what the machine's requests do to
    the table and to Redis is what the program does, call for call. */
module CreateRun {
  import opened Common
  import opened Schema
  import opened Idempotency
  import S = Service
  import CodeSpace
  import Base62

  lemma Front(s: State, l: Label, rest: seq<Label>)
    requires Next(s, l).Some?
    ensures Run(s, [l] + rest) == Run(Next(s, l).value, rest)
  {
    assert ([l] + rest)[1..] == rest;
  }

  lemma {:induction false} RunJoin(s: State, a: seq<Label>, b: seq<Label>)
    requires Run(s, a).Some?
    ensures Run(s, a + b) == Run(Run(s, a).value, b)
    decreases |a|
  {
    if a == [] {
      assert a + b == b;
    } else {
      RunJoin(Next(s, a[0]).value, a[1..], b);
      assert (a + b)[1..] == a[1..] + b;
    }
  }

  /** Only the table and request r moved. */
  ghost predicate OnlyCreated(s: State, t: State, r: nat)
    requires r in s.reqs
  {
    && r in t.reqs && t.reqs == s.reqs[r := s.reqs[r].(phase := t.reqs[r].phase)]
    && t == s.(space := t.space, authors := t.authors, reqs := t.reqs)
  }

  // ------------------------------------------------- createOne

  /** What the writing half of createOne leads to: the read back, or a failure. */
  ghost predicate Written(s: State, t: State, r: nat, claim: Option<int>, store: S.StoreCalls,
                          error: Option<S.CreateError>)
    requires r in s.reqs
  {
    var params, id := s.reqs[r].params, s.space.db.nextId;
    && OnlyCreated(s, t, r) && CodeSpace.Inv(t.space)
    && S.PutOnce(s.space.db, t.space.db, params, s.now, store, error)
    && t.reqs[r].phase == if error.None? then Reading(claim, id, S.Wanted(params, id)) else Finished(Failed)
  }

  lemma CustomIsRun(s: State, r: nat, claim: Option<int>, store: S.StoreCalls)
    returns (ls: seq<Label>, t: State, error: Option<S.CreateError>)
    requires r in s.reqs && s.reqs[r].phase == Inserting(claim) && CodeSpace.Inv(s.space)
    requires s.reqs[r].params.custom.Some?
    ensures Run(s, ls) == Some(t) && Written(s, t, r, claim, store, error)
  {
    var params, l := s.reqs[r].params, Act(r, store.insert);
    TableStep(s, l);
    t := Next(s, l).value;
    Front(s, l, []);
    ls := [l] + [];
    var code := params.custom.value;
    error := if !CodeSpace.ValidCustom(code) then Some(S.BadCode)
             else if store.insert != Ok || !S.Storable(s.space.db, params) then Some(S.Internal)
             else if Taken(s.space.db, code) then Some(S.CodeTaken)
             else None;
  }

  lemma InsertedBare(s: State, r: nat, claim: Option<int>, out: Outcome)
    requires r in s.reqs && s.reqs[r].phase == Inserting(claim) && CodeSpace.Inv(s.space)
    requires s.reqs[r].params.custom.None?
    ensures var t, id, params := Next(s, Act(r, out)).value, s.space.db.nextId, s.reqs[r].params;
      && OnlyCreated(s, t, r) && CodeSpace.Inv(t.space)
      && t.space.db == (if out == Fail || id > MAX_ID then s.space.db
                        else if !UrlFormat(params.longURL) then s.space.db.(nextId := id + 1)
                        else s.space.db.(nextId := id + 1, rows :=
                               s.space.db.rows[id := Row(id, None, params.longURL, params.expiresAt, s.now)]))
      && t.reqs[r].phase == (if out == Ok && S.Storable(s.space.db, params) then Assigning(claim, id)
                             else Finished(Failed))
      && (out == Ok && S.Storable(s.space.db, params) ==> id in t.space.inFlight)
  {
    TableStep(s, Act(r, out));
  }

  lemma Assigned(s: State, r: nat, claim: Option<int>, id: nat, out: Outcome)
    requires r in s.reqs && s.reqs[r].phase == Assigning(claim, id) && CodeSpace.Inv(s.space)
    requires id in s.space.inFlight && id in s.space.db.rows && s.space.db.rows[id].code.None?
    ensures Next(s, Act(r, out)).Some?
    ensures var t, code := Next(s, Act(r, out)).value, Base62.Encode(id);
      && OnlyCreated(s, t, r) && CodeSpace.Inv(t.space)
      && t.space.db == (if out == Fail || Taken(s.space.db, code) then s.space.db
                        else s.space.db.(rows := s.space.db.rows[id := s.space.db.rows[id].(code := Some(code))]))
      && t.reqs[r].phase == if out == Ok && !Taken(s.space.db, code) then Reading(claim, id, code) else Finished(Failed)
  {
    CodeSpace.GeneratedCodeFits(id);
    TableStep(s, Act(r, out));
  }

  /** Insert and update together, on the table. */
  lemma AutoPut(before: Db, after: Db, params: Params, now: int, store: S.StoreCalls)
    requires params.custom.None? && before.nextId !in before.rows
    requires store.insert == Ok && S.Storable(before, params)
    requires
      var id, code := before.nextId, Base62.Encode(before.nextId);
      var bare := Row(id, None, params.longURL, params.expiresAt, now);
      after == before.(nextId := id + 1, rows := before.rows[id :=
        if store.assign == Fail || Taken(before, code) then bare else bare.(code := Some(code))])
    ensures S.PutOnce(before, after, params, now, store,
      if store.assign != Ok then Some(S.Internal)
      else if Taken(before, Base62.Encode(before.nextId)) then Some(S.Collision)
      else None)
  {}

  lemma AutoCoded(s: State, u: State, t: State, r: nat, claim: Option<int>, store: S.StoreCalls)
    returns (error: Option<S.CreateError>)
    requires r in s.reqs && s.reqs[r].phase == Inserting(claim) && s.reqs[r].params.custom.None?
    requires CodeSpace.Inv(s.space) && Next(s, Act(r, Ok)) == Some(u) && store.insert == Ok
    requires r in u.reqs && u.reqs[r].phase.Assigning? && Next(u, Act(r, store.assign)) == Some(t)
    ensures Written(s, t, r, claim, store, error)
  {
    var id := s.space.db.nextId;
    var code := Base62.Encode(id);
    InsertedBare(s, r, claim, Ok);
    S.SameCodes(s.space.db, u.space.db, id, code);
    Assigned(u, r, claim, id, store.assign);
    AutoPut(s.space.db, t.space.db, s.reqs[r].params, s.now, store);
    error := if store.assign != Ok then Some(S.Internal)
             else if Taken(s.space.db, code) then Some(S.Collision)
             else None;
  }

  lemma AutoBare(s: State, r: nat, claim: Option<int>, store: S.StoreCalls)
    requires r in s.reqs && s.reqs[r].phase == Inserting(claim) && s.reqs[r].params.custom.None?
    requires CodeSpace.Inv(s.space) && Next(s, Act(r, store.insert)).Some?
    requires var t := Next(s, Act(r, store.insert)).value; r in t.reqs && !t.reqs[r].phase.Assigning?
    ensures Written(s, Next(s, Act(r, store.insert)).value, r, claim, store, Some(S.Internal))
  {
    InsertedBare(s, r, claim, store.insert);
  }

  lemma AutoIsRun(s: State, r: nat, claim: Option<int>, store: S.StoreCalls)
    returns (ls: seq<Label>, t: State, error: Option<S.CreateError>)
    requires r in s.reqs && s.reqs[r].phase == Inserting(claim) && CodeSpace.Inv(s.space)
    requires s.reqs[r].params.custom.None?
    ensures Run(s, ls) == Some(t) && Written(s, t, r, claim, store, error)
  {
    InsertedBare(s, r, claim, store.insert);
    var u := Next(s, Act(r, store.insert)).value;
    t, ls, error := u, [], Some(S.Internal);
    if u.reqs[r].phase.Assigning? {
      Assigned(u, r, claim, s.space.db.nextId, store.assign);
      error := AutoCoded(s, u, Next(u, Act(r, store.assign)).value, r, claim, store);
      t := Next(u, Act(r, store.assign)).value;
      Front(u, Act(r, store.assign), []);
      ls := [Act(r, store.assign)] + [];
    } else {
      AutoBare(s, r, claim, store);
    }
    Front(s, Act(r, store.insert), ls);
    ls := [Act(r, store.insert)] + ls;
  }

  /** What the request has come to when createOne ends with this result. */
  ghost predicate Ended(t: State, r: nat, claim: Option<int>, id: nat, res: S.Result) {
    && r in t.reqs
    && match res
       case Made(row) =>
         t.reqs[r].phase == if claim.Some? then Recording(claim.value, id, row) else Finished(Created(row))
       case Again(row) => t.reqs[r].phase == Finished(Replayed(row))
       case Failed(_) => t.reqs[r].phase == Finished(Failed)
  }

  /** createOne, as `Service.LinkService.CreateOne` is proved to act, is a run of the machine with the same table and
      the same result, whichever of its calls fail. */
  lemma CreateOneIsRun(s: State, r: nat, claim: Option<int>, store: S.StoreCalls)
    returns (ls: seq<Label>, t: State, res: S.Result)
    requires r in s.reqs && s.reqs[r].phase == Inserting(claim) && CodeSpace.Inv(s.space)
    ensures Run(s, ls) == Some(t) && OnlyCreated(s, t, r) && CodeSpace.Inv(t.space)
    ensures S.CreatedOnce(s.space.db, t.space.db, s.reqs[r].params, s.now, store, res)
    ensures Ended(t, r, claim, s.space.db.nextId, res)
  {
    var id, u, error := s.space.db.nextId, s, Some(S.Internal);
    if s.reqs[r].params.custom.Some? {
      ls, u, error := CustomIsRun(s, r, claim, store);
    } else {
      ls, u, error := AutoIsRun(s, r, claim, store);
    }
    t, res := u, if error.Some? then S.Failed(error.value) else S.Failed(S.Internal);
    if error.None? {
      FindIs(u.space.db, id, S.Wanted(s.reqs[r].params, id));
      t := Next(u, Act(r, store.read)).value;
      Front(u, Act(r, store.read), []);
      RunJoin(s, ls, [Act(r, store.read)] + []);
      ls := ls + ([Act(r, store.read)] + []);
      if store.read == Ok { res := S.Made(u.space.db.rows[id]); }
    }
  }

  // ------------------------------------------------- createIdempotent

  /** What createIdempotent does to the table and to the key's two entries when it need not wait. */
  ghost predicate CreatedUnder(s: State, t: State, params: Params, calls: S.IdemCalls, store: S.StoreCalls,
                               replay: Outcome, res: S.Result)
  {
    if calls.first == Ok && s.resp.Some? && s.now < s.resp.value.deadline then
      && t.space == s.space && t.resp == s.resp && t.lock == s.lock
      && res == S.Replayed(s.space.db, s.resp.value.code, replay)
    else
      && S.CreatedOnce(s.space.db, t.space.db, params, s.now, store, res)
      && if calls.first == calls.claim == Ok then
           && t.resp == (if res.Failed? || calls.record == Fail then s.resp
                         else Some(Stamp(res.row.code.value, s.now + 24 * 3600 * SECOND)))
           && t.lock == (if res.Failed? || calls.release == Fail then Some(s.now + 10 * SECOND) else None)
         else
           && t.resp == s.resp
           && t.lock == if calls.first == Ok && calls.claim == Lost && (s.lock.Some? ==> s.lock.value <= s.now)
                        then Some(s.now + 10 * SECOND)
                        else s.lock
  }

  /** The request has ended with this result. */
  ghost predicate Answers(t: State, r: nat, res: S.Result) {
    Ended(t, r, None, 0, res)
  }

  lemma ReplayIsRun(s: State, r: nat, replay: Outcome) returns (ls: seq<Label>, t: State, res: S.Result)
    requires r in s.reqs && s.reqs[r].phase == Arrived && RespLive(s)
    ensures Run(s, ls) == Some(t) && OnlyCreated(s, t, r) && t.space == s.space
    ensures res == S.Replayed(s.space.db, s.resp.value.code, replay) && Answers(t, r, res)
  {
    var u := Next(s, Act(r, Ok)).value;
    t := Next(u, Act(r, replay)).value;
    Front(u, Act(r, replay), []);
    Front(s, Act(r, Ok), [Act(r, replay)]);
    ls := [Act(r, Ok)] + [Act(r, replay)];
    res := S.Replayed(s.space.db, s.resp.value.code, replay);
  }

  /** The two calls that decide whether the request may create, when it may. */
  lemma LooksAreRun(s: State, r: nat, calls: S.IdemCalls) returns (ls: seq<Label>, t: State, claim: Option<int>)
    requires r in s.reqs && s.reqs[r].phase == Arrived && !(calls.first == Ok && RespLive(s))
    requires calls.first == calls.claim == Ok ==> !LockLive(s)
    ensures Run(s, ls) == Some(t) && r in t.reqs && t.space == s.space && t.resp == s.resp && t.now == s.now
    ensures t.reqs[r] == Request(s.reqs[r].params, Inserting(claim))
    ensures claim == if calls.first == calls.claim == Ok then Some(s.now) else None
    ensures t.lock == if calls.first == Ok && calls.claim != Fail && !LockLive(s) then Some(s.now + 10 * SECOND)
                      else s.lock
  {
    t := Next(s, Act(r, calls.first)).value;
    ls, claim := [], None;
    if calls.first == Ok {
      var u := t;
      t := Next(u, Act(r, calls.claim)).value;
      Front(u, Act(r, calls.claim), []);
      ls := [Act(r, calls.claim)] + [];
      if calls.claim == Ok { claim := Some(s.now); }
    }
    Front(s, Act(r, calls.first), ls);
    ls := [Act(r, calls.first)] + ls;
  }

  /** The Set and the Release of a claimer that has created. */
  lemma RecordIsRun(s: State, r: nat, since: int, id: nat, row: Row, calls: S.IdemCalls)
    returns (ls: seq<Label>, t: State)
    requires r in s.reqs && s.reqs[r].phase == Recording(since, id, row) && row.code.Some?
    ensures Run(s, ls) == Some(t) && t.space == s.space && r in t.reqs && t.reqs[r].phase == Finished(Created(row))
    ensures t.resp == if calls.record == Fail then s.resp else Some(Stamp(row.code.value, s.now + 24 * 3600 * SECOND))
    ensures t.lock == if calls.release == Fail then s.lock else None
  {
    var u := Next(s, Act(r, calls.record)).value;
    t := Next(u, Act(r, calls.release)).value;
    Front(u, Act(r, calls.release), []);
    Front(s, Act(r, calls.record), [Act(r, calls.release)]);
    ls := [Act(r, calls.record)] + [Act(r, calls.release)];
  }

  /** createOne and, for a claimer that has created, the recording. */
  lemma CreateAndRecord(s: State, r: nat, claim: Option<int>, calls: S.IdemCalls, store: S.StoreCalls)
    returns (ls: seq<Label>, t: State, res: S.Result)
    requires r in s.reqs && s.reqs[r].phase == Inserting(claim) && CodeSpace.Inv(s.space)
    ensures Run(s, ls) == Some(t) && Answers(t, r, res)
    ensures S.CreatedOnce(s.space.db, t.space.db, s.reqs[r].params, s.now, store, res)
    ensures t.resp == if claim.None? || res.Failed? || calls.record == Fail then s.resp
                      else Some(Stamp(res.row.code.value, s.now + 24 * 3600 * SECOND))
    ensures t.lock == if claim.None? || res.Failed? || calls.release == Fail then s.lock else None
  {
    ls, t, res := CreateOneIsRun(s, r, claim, store);
    if claim.Some? && res.Made? {
      var record, u := RecordIsRun(t, r, claim.value, s.space.db.nextId, res.row, calls);
      RunJoin(s, ls, record);
      ls, t := ls + record, u;
    }
  }

  /** From the first Get on. */
  lemma CallsAreRun(s: State, r: nat, calls: S.IdemCalls, store: S.StoreCalls, replay: Outcome)
    returns (ls: seq<Label>, t: State, res: S.Result)
    requires r in s.reqs && s.reqs[r].phase == Arrived && CodeSpace.Inv(s.space)
    requires calls.first == calls.claim == Ok && !RespLive(s) ==> !LockLive(s)
    ensures Run(s, ls) == Some(t) && Answers(t, r, res)
    ensures CreatedUnder(s, t, s.reqs[r].params, calls, store, replay, res)
  {
    if calls.first == Ok && RespLive(s) {
      ls, t, res := ReplayIsRun(s, r, replay);
    } else {
      var u, claim, rest;
      ls, u, claim := LooksAreRun(s, r, calls);
      rest, t, res := CreateAndRecord(u, r, claim, calls, store);
      RunJoin(s, ls, rest);
      ls := ls + rest;
    }
  }

  /** createIdempotent, as `Service.LinkService.CreateIdempotent` is proved to act when it finds the key remembered,
      gets the claim or cannot ask, is a run of the machine with the same table, the same Redis entries and the same
      result, whichever of its calls fail. */
  lemma CreateIsRun(s: State, r: nat, params: Params, calls: S.IdemCalls, store: S.StoreCalls, replay: Outcome)
    returns (ls: seq<Label>, t: State, res: S.Result)
    requires r !in s.reqs && CodeSpace.Inv(s.space)
    requires calls.first == calls.claim == Ok && s.lock.Some? && s.now < s.lock.value ==>
               s.resp.Some? && s.now < s.resp.value.deadline
    ensures Run(s, ls) == Some(t) && Answers(t, r, res)
    ensures CreatedUnder(s, t, params, calls, store, replay, res)
  {
    var u := Next(s, Arrive(r, params)).value;
    ls, t, res := CallsAreRun(u, r, calls, store, replay);
    Front(s, Arrive(r, params), ls);
    ls := [Arrive(r, params)] + ls;
  }
}
