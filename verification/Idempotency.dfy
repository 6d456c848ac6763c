/** Idempotent create (internal/service/url.go, createIdempotent, replay and createOne;
    internal/idempotency/store.go) as a state machine: any number of requests carrying one
    Idempotency-Key, interleaved call by call with each other, with every other writer of
    the table, with failing calls, with crashes and with the passage of time. */
module Idempotency {
  import opened Common
  import opened Schema
  import CodeSpace
  import Base62

  const RESP_TTL := 24 * 3600 * SECOND
  const LOCK_TTL := 10 * SECOND
  const WAIT_POLLS := 5

  /** A remembered response: the code, and when Redis drops it. */
  datatype Stamp = Stamp(code: string, deadline: int)

  datatype Params = Params(custom: Option<string>, longURL: string, expiresAt: Option<int>)

  datatype Result = Created(row: Row) | Replayed(row: Row) | Failed

  /** Where a request is. `claim` is the time its SET NX succeeded, None when it creates
      without the lock because Redis did not answer. From the insert on, `id` is the row it inserted;
      the program forgets that after an insert with a custom code, so there it is history only. */
  datatype Phase =
    | Arrived
    | Missed
    | Inserting(claim: Option<int>)
    | Assigning(claim: Option<int>, id: nat)
    | Reading(claim: Option<int>, id: nat, code: string)
    | Recording(since: int, id: nat, row: Row)
    | Releasing(since: int, id: nat, row: Row)
    | Polling(left: nat)
    | Replaying(code: string)
    | Finished(result: Result)

  datatype Request = Request(params: Params, phase: Phase)

  /** A Set of the response: the request, the row it had inserted, and the row it had read back
      and whose code it recorded. */
  datatype Record = Record(author: nat, id: nat, row: Row)

  /** The key's two Redis entries, the table and the requests, then history only:
      `early` had their first Get miss before any Set, `blind` had it fail,
      `claimers` won the lock, `authors` says which request inserted which row. */
  datatype State = State(
    now: int, resp: Option<Stamp>, lock: Option<int>,
    space: CodeSpace.State, reqs: map<nat, Request>,
    early: set<nat>, blind: set<nat>, claimers: set<nat>,
    authors: map<nat, nat>, records: set<Record>, firstSet: Option<int>)

  /** `Act` is the next call of request r, which its phase determines; the last two are Redis losing a key early. */
  datatype Label =
    | Arrive(r: nat, params: Params)
    | Act(r: nat, out: Outcome)
    | Crash(r: nat)
    | Tick(dt: nat)
    | Other(l: CodeSpace.Label)
    | LoseLock
    | LoseResp

  ghost predicate Initial(s: State) {
    && CodeSpace.Inv(s.space)
    && s.resp == None && s.lock == None && s.reqs == map[]
    && s.early == s.blind == s.claimers == {} && s.authors == map[] && s.records == {} && s.firstSet == None
  }

  predicate RespLive(s: State) {
    s.resp.Some? && s.now < s.resp.value.deadline
  }

  predicate LockLive(s: State) {
    s.lock.Some? && s.now < s.lock.value
  }

  predicate InCreate(p: Phase) {
    p.Inserting? || p.Assigning? || p.Reading?
  }

  /** From the successful Claim to the Release. */
  predicate Holding(p: Phase) {
    (InCreate(p) && p.claim.Some?) || p.Recording? || p.Releasing?
  }

  function Since(p: Phase): int
    requires Holding(p)
  {
    if InCreate(p) then p.claim.value else p.since
  }

  function Go(s: State, r: nat, p: Phase): State
    requires r in s.reqs
  {
    s.(reqs := s.reqs[r := s.reqs[r].(phase := p)])
  }

  function InsertCall(params: Params, now: int, out: Outcome): CodeSpace.Label {
    if params.custom.Some?
    then CodeSpace.InsertCustom(params.custom.value, params.longURL, params.expiresAt, now, out)
    else CodeSpace.InsertAuto(params.longURL, params.expiresAt, now, out)
  }

  /** The insert of createOne, custom or automatic, and the request's next phase. */
  ghost function Inserted(s: State, r: nat, out: Outcome): State
    requires r in s.reqs && s.reqs[r].phase.Inserting?
  {
    var Request(params, phase) := s.reqs[r];
    var t := CodeSpace.Next(s.space, InsertCall(params, s.now, out));
    if t.None? then Go(s, r, Finished(Failed))   // validateCustomCode
    else
      var reply := Insert(s.space.db, params.custom, params.longURL, params.expiresAt, s.now).1;
      var s' := s.(space := t.value,
                   authors := if out != Fail && reply.Done? then s.authors[reply.value := r] else s.authors);
      Go(s', r, if out != Ok || reply.Refused? then Finished(Failed)
                else if params.custom.Some? then Reading(phase.claim, reply.value, params.custom.value)
                else Assigning(phase.claim, reply.value))
  }

  ghost predicate Touches(l: CodeSpace.Label, ids: set<nat>) {
    (l.AssignCode? || l.Abandon?) && l.id in ids
  }

  /** The next call of a request that has not finished. */
  ghost function Advance(s: State, r: nat, out: Outcome): Option<State>
    requires r in s.reqs
  {
    match s.reqs[r].phase
    case Arrived =>                                   // idem.Get
      Some(if out != Ok then Go(s.(blind := s.blind + {r}), r, Inserting(None))
           else if RespLive(s) then Go(s, r, Replaying(s.resp.value.code))
           else if s.firstSet.None? then Go(s.(early := s.early + {r}), r, Missed)
           else Go(s, r, Missed))
    case Missed =>                                    // idem.Claim
      var granted := out != Fail && !LockLive(s);
      var s' := if granted then s.(lock := Some(s.now + LOCK_TTL)) else s;
      Some(if out != Ok then Go(s', r, Inserting(None))
           else if granted then Go(s'.(claimers := s.claimers + {r}), r, Inserting(Some(s.now)))
           else Go(s', r, Polling(WAIT_POLLS)))
    case Inserting(claim) =>                          // store.Create or store.CreateWithCode
      Some(Inserted(s, r, out))
    case Assigning(claim, id) =>                      // store.SetCode
      var t := CodeSpace.Next(s.space, CodeSpace.AssignCode(id, out));
      if t.None? then None
      else
        var code := Base62.Encode(id);
        var reply := Assign(s.space.db, id, code).1;
        Some(Go(s.(space := t.value), r,
                if out == Ok && reply.Done? then Reading(claim, id, code) else Finished(Failed)))
    case Reading(claim, id, code) =>                      // store.GetByCode
      var row := Find(s.space.db, code);
      Some(Go(s, r, if out != Ok || row.None? then Finished(Failed)
                    else if claim.Some? then Recording(claim.value, id, row.value)
                    else Finished(Created(row.value))))
    case Recording(since, id, row) =>                 // idem.Set
      if row.code.None? then None
      else
        var s' := if out == Fail then s
                  else s.(resp := Some(Stamp(row.code.value, s.now + RESP_TTL)),
                          records := s.records + {Record(r, id, row)},
                          firstSet := if s.firstSet.None? then Some(s.now) else s.firstSet);
        Some(Go(s', r, Releasing(since, id, row)))
    case Releasing(since, id, row) =>                 // idem.Release
      Some(Go(if out == Fail then s else s.(lock := None), r, Finished(Created(row))))
    case Polling(left) =>                             // idem.Get, after a pause
      Some(Go(s, r, if left == 0 then Finished(Failed)
                    else if out == Ok && RespLive(s) then Replaying(s.resp.value.code)
                    else Polling(left - 1)))
    case Replaying(code) =>                           // replay's store.GetByCode
      var row := Find(s.space.db, code);
      Some(Go(s, r, Finished(if out == Ok && row.Some? then Replayed(row.value) else Failed)))
    case Finished(_) => None
  }

  /** One atomic step, or None when the label does not fit the state. */
  ghost function Next(s: State, l: Label): Option<State> {
    match l
    case Arrive(r, params) =>
      if r in s.reqs then None
      else Some(s.(reqs := s.reqs[r := Request(params, Arrived)]))
    case Act(r, out) => if r in s.reqs then Advance(s, r, out) else None
    case Crash(r) =>
      if r !in s.reqs || s.reqs[r].phase.Finished? then None
      else if s.reqs[r].phase.Assigning? then
        var t := CodeSpace.Next(s.space, CodeSpace.Abandon(s.reqs[r].phase.id));
        if t.None? then None else Some(Go(s.(space := t.value), r, Finished(Failed)))
      else Some(Go(s, r, Finished(Failed)))
    case Tick(dt) => Some(s.(now := s.now + dt))
    case Other(op) =>
      var t := CodeSpace.Next(s.space, op);
      if t.None? || Touches(op, s.authors.Keys) then None else Some(s.(space := t.value))
    case LoseLock => Some(s.(lock := None))
    case LoseResp => Some(s.(resp := None))
  }

  ghost function Run(s: State, ls: seq<Label>): Option<State>
    decreases |ls|
  {
    if ls == [] then Some(s)
    else
      var t := Next(s, ls[0]);
      if t.None? then None else Run(t.value, ls[1..])
  }

  // ------------------------------------------------- the table underneath

  /** The table call, if any, that a label makes. */
  ghost function TableCall(s: State, l: Label): Option<CodeSpace.Label> {
    match l
    case Act(r, out) =>
      if r !in s.reqs then None else
      var Request(params, phase) := s.reqs[r];
      if phase.Assigning? then Some(CodeSpace.AssignCode(phase.id, out))
      else if !phase.Inserting? then None
      else Some(InsertCall(params, s.now, out))
    case Crash(r) =>
      if r in s.reqs && s.reqs[r].phase.Assigning? then Some(CodeSpace.Abandon(s.reqs[r].phase.id)) else None
    case Other(op) => Some(op)
    case _ => None
  }

  /** Every label moves the table by at most one call of the code-space machine. */
  lemma TableStep(s: State, l: Label)
    requires CodeSpace.Inv(s.space) && Next(s, l).Some?
    ensures CodeSpace.Inv(Next(s, l).value.space)
    ensures CodeSpace.Settled(s.space, Next(s, l).value.space)
  {
    var c := TableCall(s, l);
    if c.Some? && CodeSpace.Next(s.space, c.value).Some? {
      CodeSpace.StepKeepsInv(s.space, c.value);
    }
  }

  // ------------------------------------------------- replay fidelity

  /** `row` is a coded row of the past: while its id is live, the table still holds exactly it. */
  ghost predicate Genuine(db: Db, row: Row) {
    row.code.Some? && row.id < db.nextId && (row.id in db.rows ==> db.rows[row.id] == row)
  }

  ghost predicate OnRecord(s: State, code: string) {
    exists rec | rec in s.records :: rec.row.code == Some(code)
  }

  /** Request r inserted row `id`, and that row has this code while it lives. */
  ghost predicate Inserts(s: State, r: nat, id: nat, code: Option<string>) {
    && id in s.authors && s.authors[id] == r && id < s.space.db.nextId
    && (id in s.space.db.rows ==> s.space.db.rows[id].code == code && code.Some?)
  }

  /** The row that was read is the row that was inserted, while that lives. */
  ghost predicate OwnRow(s: State, r: nat, id: nat, row: Row) {
    Inserts(s, r, id, row.code) && (id in s.space.db.rows ==> s.space.db.rows[id] == row)
  }

  /** A replayed row carries a recorded code and, unless the row its recorder had inserted
      has been deleted, it is that row. */
  ghost predicate Faithful(s: State, row: Row) {
    exists rec | rec in s.records ::
      rec.row.code == row.code && (rec.id in s.space.db.rows ==> s.space.db.rows[rec.id] == rec.row == row)
  }

  /** The row is the one that request r inserted, while that lives. */
  ghost predicate OfItsOwn(s: State, r: nat, row: Row) {
    exists id | id in s.authors :: OwnRow(s, r, id, row)
  }

  ghost predicate PhaseOk(s: State, r: nat, p: Phase) {
    match p
    case Inserting(claim) => claim.Some? ==> r in s.claimers
    case Assigning(claim, id) =>
      && (claim.Some? ==> r in s.claimers)
      && id in s.authors && s.authors[id] == r && id in s.space.inFlight
    case Reading(claim, id, code) => (claim.Some? ==> r in s.claimers) && Inserts(s, r, id, Some(code))
    case Recording(since, id, row) => r in s.claimers && Genuine(s.space.db, row) && OwnRow(s, r, id, row)
    case Releasing(since, id, row) => r in s.claimers && Genuine(s.space.db, row) && OwnRow(s, r, id, row)
    case Replaying(code) => OnRecord(s, code)
    case Finished(result) =>
      (result.Replayed? ==> Faithful(s, result.row)) && (result.Created? ==> OfItsOwn(s, r, result.row))
    case _ => true
  }

  /** Only a request past its insert, and not one that replayed, can have written. */
  predicate MayHaveWritten(p: Phase) {
    p.Assigning? || p.Reading? || p.Recording? || p.Releasing? || (p.Finished? && !p.result.Replayed?)
  }

  ghost predicate Inv(s: State) {
    && CodeSpace.Inv(s.space)
    && (s.resp.Some? ==> OnRecord(s, s.resp.value.code))
    && (forall rec | rec in s.records ::
          rec.author in s.claimers && Genuine(s.space.db, rec.row) && OwnRow(s, rec.author, rec.id, rec.row))
    && (forall r | r in s.reqs :: PhaseOk(s, r, s.reqs[r].phase))
    && (forall id | id in s.authors ::
          id < s.space.db.nextId && s.authors[id] in s.reqs && MayHaveWritten(s.reqs[s.authors[id]].phase))
    && (forall i, j | i in s.authors && j in s.authors && s.authors[i] == s.authors[j] :: i == j)
  }

  /** What a step by request `mover` (None: by the environment) leaves alone. */
  ghost predicate Undisturbed(s: State, t: State, mover: Option<nat>) {
    && CodeSpace.Inv(t.space) && CodeSpace.Settled(s.space, t.space)
    && s.claimers <= t.claimers && s.records <= t.records
    && (forall id | id in s.authors :: id in t.authors && t.authors[id] == s.authors[id])
    && (forall id | id in s.authors && Some(s.authors[id]) != mover && id in s.space.inFlight :: id in t.space.inFlight)
    && (forall q | q in s.reqs && Some(q) != mover :: q in t.reqs && t.reqs[q] == s.reqs[q])
  }

  lemma PhaseStays(s: State, t: State, mover: Option<nat>, q: nat)
    requires Inv(s) && Undisturbed(s, t, mover) && q in s.reqs && Some(q) != mover
    ensures PhaseOk(t, q, t.reqs[q].phase)
  {
    match s.reqs[q].phase
    case Replaying(code) =>
      var rec :| rec in s.records && rec.row.code == Some(code);
      assert rec in t.records;
    case Finished(result) =>
      if result.Replayed? {
        var rec :| rec in s.records && rec.row.code == result.row.code &&
          (rec.id in s.space.db.rows ==> s.space.db.rows[rec.id] == rec.row == result.row);
        assert rec in t.records;
      }
      if result.Created? {
        var id :| id in s.authors && OwnRow(s, q, id, result.row);
        assert OwnRow(t, q, id, result.row);
      }
    case _ =>
  }

  /** A step that writes no row and records nothing keeps the invariant if the mover is in order. */
  lemma QuietStep(s: State, t: State, mover: Option<nat>)
    requires Inv(s) && Undisturbed(s, t, mover)
    requires t.records == s.records && t.authors == s.authors && (t.resp == s.resp || t.resp == None)
    requires forall q | q in t.reqs && q !in s.reqs :: Some(q) == mover
    requires mover.Some? ==>
               && mover.value in t.reqs
               && PhaseOk(t, mover.value, t.reqs[mover.value].phase)
               && (mover.value in s.reqs && MayHaveWritten(s.reqs[mover.value].phase)
                   ==> MayHaveWritten(t.reqs[mover.value].phase))
    ensures Inv(t)
  {
    forall q | q in t.reqs ensures PhaseOk(t, q, t.reqs[q].phase) {
      if Some(q) != mover { PhaseStays(s, t, mover, q); }
    }
    RecordsStay(s, t);
    AuthorsStay(s, t, mover);
  }

  lemma AuthorsStay(s: State, t: State, mover: Option<nat>)
    requires Inv(s) && Undisturbed(s, t, mover) && t.authors == s.authors
    requires mover.Some? && mover.value in s.reqs && MayHaveWritten(s.reqs[mover.value].phase) ==>
               mover.value in t.reqs && MayHaveWritten(t.reqs[mover.value].phase)
    ensures forall id | id in t.authors ::
      id < t.space.db.nextId && t.authors[id] in t.reqs && MayHaveWritten(t.reqs[t.authors[id]].phase)
  {}

  /** The same for a step that is no table call. */
  lemma RedisOnly(s: State, t: State, r: nat)
    requires Inv(s) && t.space == s.space && s.claimers <= t.claimers
    requires t.records == s.records && t.authors == s.authors && t.resp == s.resp
    requires r in t.reqs && t.reqs == s.reqs[r := t.reqs[r]] && PhaseOk(t, r, t.reqs[r].phase)
    requires r in s.reqs && MayHaveWritten(s.reqs[r].phase) ==> MayHaveWritten(t.reqs[r].phase)
    ensures Inv(t)
  {
    QuietStep(s, t, Some(r));
  }

  /** What the insert of createOne does: at most one new row, whose author is the request. */
  ghost predicate InsertShape(s: State, t: State, r: nat)
    requires r in s.reqs && s.reqs[r].phase.Inserting?
  {
    var id := s.space.db.nextId;
    && r in t.reqs
    && t == s.(space := t.space, authors := t.authors, reqs := s.reqs[r := s.reqs[r].(phase := t.reqs[r].phase)])
    && (t.authors == s.authors || (t.authors == s.authors[id := r] && id < t.space.db.nextId))
    && s.space.inFlight <= t.space.inFlight
    && var p := t.reqs[r].phase;
       && MayHaveWritten(p) && (p.Finished? || p.Reading? || p.Assigning?)
       && (p.Finished? ==> p.result == Failed)
       && (p.Reading? || p.Assigning? ==> p.claim == s.reqs[r].phase.claim)
       && (p.Reading? || p.Assigning? ==> p.id == id && id in t.authors && t.authors[id] == r)
       && (p.Assigning? ==> id in t.space.inFlight)
       && (p.Reading? ==> id in t.space.db.rows && t.space.db.rows[id].code == Some(p.code))
  }

  lemma InsertedHasShape(s: State, r: nat, out: Outcome)
    requires r in s.reqs && s.reqs[r].phase.Inserting?
    ensures InsertShape(s, Inserted(s, r, out), r)
  {}

  lemma ShapeKeepsInv(s: State, t: State, r: nat)
    requires Inv(s) && r in s.reqs && s.reqs[r].phase.Inserting? && InsertShape(s, t, r)
    requires CodeSpace.Inv(t.space) && CodeSpace.Settled(s.space, t.space)
    ensures Inv(t)
  {
    ShapePhases(s, t, r);
    RecordsStay(s, t);
  }

  lemma ShapePhases(s: State, t: State, r: nat)
    requires Inv(s) && r in s.reqs && s.reqs[r].phase.Inserting? && InsertShape(s, t, r)
    requires CodeSpace.Inv(t.space) && CodeSpace.Settled(s.space, t.space)
    ensures forall q | q in t.reqs :: PhaseOk(t, q, t.reqs[q].phase)
  {
    assert Undisturbed(s, t, Some(r));
    forall q | q in t.reqs ensures PhaseOk(t, q, t.reqs[q].phase) {
      if q != r { PhaseStays(s, t, Some(r), q); } else { InserterOk(s, t, r); }
    }
  }

  lemma InserterOk(s: State, t: State, r: nat)
    requires Inv(s) && r in s.reqs && s.reqs[r].phase.Inserting? && InsertShape(s, t, r)
    ensures PhaseOk(t, r, t.reqs[r].phase)
  {
    assert PhaseOk(s, r, s.reqs[r].phase);
  }

  lemma RecordsStay(s: State, t: State)
    requires Inv(s) && t.records == s.records && s.claimers <= t.claimers && CodeSpace.Settled(s.space, t.space)
    requires forall id | id in s.authors :: id in t.authors && t.authors[id] == s.authors[id]
    ensures forall rec | rec in t.records ::
      rec.author in t.claimers && Genuine(t.space.db, rec.row) && OwnRow(t, rec.author, rec.id, rec.row)
  {
    forall rec | rec in s.records ensures Genuine(t.space.db, rec.row) && OwnRow(t, rec.author, rec.id, rec.row) {
      assert Genuine(s.space.db, rec.row) && OwnRow(s, rec.author, rec.id, rec.row);
    }
  }

  lemma InsertStep(s: State, r: nat, out: Outcome)
    requires Inv(s) && r in s.reqs && s.reqs[r].phase.Inserting?
    ensures Inv(Inserted(s, r, out))
  {
    InsertedHasShape(s, r, out);
    TableStep(s, Act(r, out));
    ShapeKeepsInv(s, Inserted(s, r, out), r);
  }

  lemma RecordStep(s: State, r: nat, out: Outcome)
    requires Inv(s) && r in s.reqs && s.reqs[r].phase.Recording? && Advance(s, r, out).Some?
    ensures Inv(Advance(s, r, out).value)
  {
    RecordKeeps(s, Advance(s, r, out).value, r);
  }

  /** What is recorded is the row the request read, which is the one it inserted. */
  lemma RecordKeeps(s: State, t: State, r: nat)
    requires Inv(s) && r in s.reqs && s.reqs[r].phase.Recording?
    requires t == s.(resp := t.resp, records := t.records, firstSet := t.firstSet, reqs := t.reqs)
    requires r in t.reqs && t.reqs == s.reqs[r := t.reqs[r]] && MayHaveWritten(t.reqs[r].phase)
    requires PhaseOk(t, r, t.reqs[r].phase)
    requires var p := s.reqs[r].phase;
      || (t.resp == s.resp && t.records == s.records)
      || (t.records == s.records + {Record(r, p.id, p.row)} && t.resp.Some? && Some(t.resp.value.code) == p.row.code)
    ensures Inv(t)
  {
    assert PhaseOk(s, r, s.reqs[r].phase);
    forall q | q in t.reqs ensures PhaseOk(t, q, t.reqs[q].phase) {
      if q != r { PhaseStays(s, t, Some(r), q); }
    }
    if t.records != s.records {
      assert Record(r, s.reqs[r].phase.id, s.reqs[r].phase.row) in t.records;
    }
  }

  lemma ReplayStep(s: State, r: nat, out: Outcome)
    requires Inv(s) && r in s.reqs && s.reqs[r].phase.Replaying?
    ensures Inv(Advance(s, r, out).value)
  {
    var t := Advance(s, r, out).value;
    var code := s.reqs[r].phase.code;
    if t.reqs[r].phase.result.Replayed? {
      var rec :| rec in s.records && rec.row.code == Some(code);
      if rec.id in s.space.db.rows {
        FindIs(s.space.db, rec.id, code);
      }
    }
    RedisOnly(s, t, r);
  }

  lemma ReadStep(s: State, r: nat, out: Outcome)
    requires Inv(s) && r in s.reqs && s.reqs[r].phase.Reading?
    ensures Inv(Advance(s, r, out).value)
  {
    var t, p := Advance(s, r, out).value, s.reqs[r].phase;
    assert PhaseOk(s, r, p);
    if p.id in s.space.db.rows {
      FindIs(s.space.db, p.id, p.code);
    }
    RedisOnly(s, t, r);
  }

  /** A table call that inserts nothing, by a request that had its row already. */
  lemma TableOnly(s: State, t: State, r: nat)
    requires Inv(s) && r in s.reqs && s.reqs[r].phase.Assigning?
    requires r in t.reqs && t == s.(space := t.space, reqs := s.reqs[r := t.reqs[r]])
    requires CodeSpace.Inv(t.space) && CodeSpace.Settled(s.space, t.space)
    requires t.space.inFlight == s.space.inFlight || t.space.inFlight == s.space.inFlight - {s.reqs[r].phase.id}
    requires var p := t.reqs[r].phase;
      p == Finished(Failed) || (p.Reading? && p.claim == s.reqs[r].phase.claim && Inserts(t, r, p.id, Some(p.code)))
    ensures Inv(t)
  {
    assert PhaseOk(s, r, s.reqs[r].phase);
    QuietStep(s, t, Some(r));
  }

  lemma AssignStep(s: State, r: nat, out: Outcome)
    requires Inv(s) && r in s.reqs && s.reqs[r].phase.Assigning? && Advance(s, r, out).Some?
    ensures Inv(Advance(s, r, out).value)
  {
    TableStep(s, Act(r, out));
    TableOnly(s, Advance(s, r, out).value, r);
  }

  lemma GetStep(s: State, r: nat, out: Outcome)
    requires Inv(s) && r in s.reqs && s.reqs[r].phase.Arrived?
    ensures Inv(Advance(s, r, out).value)
  {
    RedisOnly(s, Advance(s, r, out).value, r);
  }

  lemma ClaimStep(s: State, r: nat, out: Outcome)
    requires Inv(s) && r in s.reqs && s.reqs[r].phase.Missed?
    ensures Inv(Advance(s, r, out).value)
  {
    RedisOnly(s, Advance(s, r, out).value, r);
  }

  lemma PollStep(s: State, r: nat, out: Outcome)
    requires Inv(s) && r in s.reqs && s.reqs[r].phase.Polling?
    ensures Inv(Advance(s, r, out).value)
  {
    RedisOnly(s, Advance(s, r, out).value, r);
  }

  lemma ReleaseStep(s: State, r: nat, out: Outcome)
    requires Inv(s) && r in s.reqs && s.reqs[r].phase.Releasing?
    ensures Inv(Advance(s, r, out).value)
  {
    RedisOnly(s, Advance(s, r, out).value, r);
  }

  lemma CrashStep(s: State, r: nat)
    requires Inv(s) && Next(s, Crash(r)).Some?
    ensures Inv(Next(s, Crash(r)).value)
  {
    TableStep(s, Crash(r));
    if s.reqs[r].phase.Assigning? {
      TableOnly(s, Next(s, Crash(r)).value, r);
    } else {
      RedisOnly(s, Next(s, Crash(r)).value, r);
    }
  }

  lemma OtherStep(s: State, op: CodeSpace.Label)
    requires Inv(s) && Next(s, Other(op)).Some?
    ensures Inv(Next(s, Other(op)).value)
  {
    TableStep(s, Other(op));
    OthersStayInFlight(s, op);
    var t := Next(s, Other(op)).value;
    assert Undisturbed(s, t, None);
    QuietStep(s, t, None);
  }

  /** Other writers finish none of the key's rows. */
  lemma OthersStayInFlight(s: State, op: CodeSpace.Label)
    requires Next(s, Other(op)).Some?
    ensures forall id | id in s.authors && id in s.space.inFlight :: id in Next(s, Other(op)).value.space.inFlight
  {}

  lemma LossStep(s: State)
    requires Inv(s)
    ensures Inv(Next(s, LoseResp).value)
  {
    QuietStep(s, Next(s, LoseResp).value, None);
  }

  lemma StepKeepsInv(s: State, l: Label)
    requires Inv(s) && Next(s, l).Some?
    ensures Inv(Next(s, l).value)
  {
    match l
    case Act(r, out) =>
      var p := s.reqs[r].phase;
      if p.Inserting? { InsertStep(s, r, out); }
      else if p.Recording? { RecordStep(s, r, out); }
      else if p.Replaying? { ReplayStep(s, r, out); }
      else if p.Reading? { ReadStep(s, r, out); }
      else if p.Assigning? { AssignStep(s, r, out); }
      else if p.Arrived? { GetStep(s, r, out); }
      else if p.Missed? { ClaimStep(s, r, out); }
      else if p.Polling? { PollStep(s, r, out); }
      else { ReleaseStep(s, r, out); }
    case Arrive(r, params) => QuietStep(s, Next(s, l).value, Some(r));
    case Crash(r) => CrashStep(s, r);
    case Tick(dt) => QuietStep(s, Next(s, l).value, None);
    case Other(op) => OtherStep(s, op);
    case LoseLock => QuietStep(s, Next(s, l).value, None);
    case LoseResp => LossStep(s);
  }

  lemma {:induction false} RunKeepsInv(s: State, ls: seq<Label>)
    requires Inv(s) && Run(s, ls).Some?
    ensures Inv(Run(s, ls).value)
    decreases |ls|
  {
    if ls != [] {
      StepKeepsInv(s, ls[0]);
      RunKeepsInv(Next(s, ls[0]).value, ls[1..]);
    }
  }

  /** In every run, whatever fails or expires: a replayed result wrote no row, it carries a code that some
      claimer recorded for the key, and it is exactly the row that claimer had inserted, unless that
      row has been deleted. */
  lemma ReplayFidelity(s: State, ls: seq<Label>, r: nat)
    requires Initial(s) && Run(s, ls).Some?
    ensures var t := Run(s, ls).value;
      r in t.reqs && t.reqs[r].phase.Finished? && t.reqs[r].phase.result.Replayed? ==>
        && (forall id | id in t.authors :: t.authors[id] != r)
        && exists rec | rec in t.records ::
             && rec.author in t.claimers && rec.id in t.authors && t.authors[rec.id] == rec.author
             && rec.row.code == t.reqs[r].phase.result.row.code
             && (rec.id in t.space.db.rows ==> t.reqs[r].phase.result.row == rec.row == t.space.db.rows[rec.id])
  {
    RunKeepsInv(s, ls);
    var t := Run(s, ls).value;
    if r in t.reqs && t.reqs[r].phase.Finished? && t.reqs[r].phase.result.Replayed? {
      assert PhaseOk(t, r, t.reqs[r].phase);
      var rec :| rec in t.records && rec.row.code == t.reqs[r].phase.result.row.code &&
        (rec.id in t.space.db.rows ==> t.space.db.rows[rec.id] == rec.row == t.reqs[r].phase.result.row);
      assert OwnRow(t, rec.author, rec.id, rec.row);
    }
  }

  /** At the moment of the replay: what is read is the row that the recorder of the code had inserted
      exactly if that row is live. */
  lemma ReplayReadsOriginalIff(s: State, r: nat, rec: Record)
    requires Inv(s) && r in s.reqs && s.reqs[r].phase.Replaying?
    requires rec in s.records && rec.row.code == Some(s.reqs[r].phase.code)
    ensures var result := Next(s, Act(r, Ok)).value.reqs[r].phase.result;
      && (result.Replayed? && result.row.id == rec.id <==> rec.id in s.space.db.rows)
      && (rec.id in s.space.db.rows ==> result.row == s.space.db.rows[rec.id])
  {
    var code := s.reqs[r].phase.code;
    assert OwnRow(s, rec.author, rec.id, rec.row);
    if rec.id in s.space.db.rows {
      FindIs(s.space.db, rec.id, code);
    }
    var result := Next(s, Act(r, Ok)).value.reqs[r].phase.result;
    if result.Replayed? {
      var id :| id in s.space.db.rows && s.space.db.rows[id] == result.row;
    }
  }

  // ------------------------------------------------- what a created row holds

  predicate AsAsked(row: Row, params: Params, id: nat) {
    && row.longURL == params.longURL && row.expiresAt == params.expiresAt
    && (params.custom.Some? ==> row.code == params.custom)
    && (params.custom.None? && row.code.Some? ==> row.code == Some(Base62.Encode(id)))
  }

  /** The rows made under the key hold what their requests asked for. */
  ghost predicate Asked(s: State) {
    forall id | id in s.authors && id in s.space.db.rows ::
      s.authors[id] in s.reqs && AsAsked(s.space.db.rows[id], s.reqs[s.authors[id]].params, id)
  }

  /** A step keeps what the rows hold, but for SetCode. */
  lemma RowsStay(s: State, l: Label)
    requires CodeSpace.Inv(s.space) && Next(s, l).Some?
    ensures var t := Next(s, l).value; forall id | id in s.space.db.rows && id in t.space.db.rows ::
      var row, row' := s.space.db.rows[id], t.space.db.rows[id];
      row' == row || (row.code.None? && row' == row.(code := Some(Base62.Encode(id))))
  {
    TableStep(s, l);
    var c := TableCall(s, l);
    if c.Some? && CodeSpace.Next(s.space, c.value).Some? {
      CodeSpace.ContentsStay(s.space, c.value);
    }
  }

  lemma RequestsStay(s: State, l: Label)
    requires Next(s, l).Some?
    ensures forall q | q in s.reqs :: q in Next(s, l).value.reqs && Next(s, l).value.reqs[q].params == s.reqs[q].params
    ensures !(l.Act? && s.reqs[l.r].phase.Inserting?) ==> Next(s, l).value.authors == s.authors
  {}

  lemma InsertAsAsked(s: State, r: nat, out: Outcome)
    requires r in s.reqs && s.reqs[r].phase.Inserting?
    ensures var t, id := Inserted(s, r, out), s.space.db.nextId;
      t.authors == s.authors ||
      (t.authors == s.authors[id := r] && id in t.space.db.rows && AsAsked(t.space.db.rows[id], s.reqs[r].params, id))
  {}

  lemma StepKeepsAsked(s: State, l: Label)
    requires Inv(s) && Asked(s) && Next(s, l).Some?
    ensures Asked(Next(s, l).value)
  {
    var t := Next(s, l).value;
    RowsStay(s, l);
    TableStep(s, l);
    RequestsStay(s, l);
    if l.Act? && s.reqs[l.r].phase.Inserting? { InsertAsAsked(s, l.r, l.out); }
    forall id | id in t.authors && id in t.space.db.rows
      ensures t.authors[id] in t.reqs && AsAsked(t.space.db.rows[id], t.reqs[t.authors[id]].params, id)
    {
      if id in s.authors && t.authors[id] == s.authors[id] && id < s.space.db.nextId {
        assert AsAsked(s.space.db.rows[id], s.reqs[s.authors[id]].params, id);
      }
    }
  }

  lemma {:induction false} RunKeepsAsked(s: State, ls: seq<Label>)
    requires Inv(s) && Asked(s) && Run(s, ls).Some?
    ensures Asked(Run(s, ls).value)
    decreases |ls|
  {
    if ls != [] {
      StepKeepsAsked(s, ls[0]);
      StepKeepsInv(s, ls[0]);
      RunKeepsAsked(Next(s, ls[0]).value, ls[1..]);
    }
  }

  /** In every run: what a create returns is the row that this request inserted, for as long as it lives, and that
      has the URL, the expiry and the code asked for, the code of its id if none was. */
  lemma CreatedIsOwnRow(s: State, ls: seq<Label>, r: nat)
    requires Initial(s) && Run(s, ls).Some?
    ensures var t := Run(s, ls).value;
      r in t.reqs && t.reqs[r].phase.Finished? && t.reqs[r].phase.result.Created? ==>
        var row, params := t.reqs[r].phase.result.row, t.reqs[r].params;
        exists id | id in t.authors && t.authors[id] == r :: id in t.space.db.rows ==>
          && t.space.db.rows[id] == row && row.longURL == params.longURL && row.expiresAt == params.expiresAt
          && row.code == if params.custom.Some? then params.custom else Some(Base62.Encode(id))
  {
    RunKeepsInv(s, ls);
    RunKeepsAsked(s, ls);
    var t := Run(s, ls).value;
    if r in t.reqs && t.reqs[r].phase.Finished? && t.reqs[r].phase.result.Created? {
      assert PhaseOk(t, r, t.reqs[r].phase);
      var id :| id in t.authors && OwnRow(t, r, id, t.reqs[r].phase.result.row);
      assert id in t.space.db.rows ==> AsAsked(t.space.db.rows[id], t.reqs[r].params, id);
    }
  }

  // ------------------------------------------------- waiting for another

  /** Along this run request r, a waiter, polls n times, and no poll finds a response. */
  ghost predicate PollsInVain(s: State, ls: seq<Label>, r: nat, n: nat)
    decreases |ls|
  {
    if ls == [] then n == 0
    else
      && Next(s, ls[0]).Some? && ls[0] != Crash(r)
      && if ls[0].Act? && ls[0].r == r
         then n > 0 && !(ls[0].out == Ok && RespLive(s)) && PollsInVain(Next(s, ls[0]).value, ls[1..], r, n - 1)
         else PollsInVain(Next(s, ls[0]).value, ls[1..], r, n)
  }

  lemma OthersLeaveAlone(s: State, l: Label, r: nat)
    requires r in s.reqs && Next(s, l).Some? && l != Crash(r) && !(l.Act? && l.r == r)
    ensures r in Next(s, l).value.reqs && Next(s, l).value.reqs[r] == s.reqs[r]
  {}

  lemma {:induction false} VainPollsCount(s: State, ls: seq<Label>, r: nat, left: nat, n: nat)
    requires r in s.reqs && s.reqs[r].phase == Polling(left) && PollsInVain(s, ls, r, n) && n <= left
    ensures Run(s, ls).Some?
    ensures var t := Run(s, ls).value; r in t.reqs && t.reqs[r].phase == Polling(left - n)
    decreases |ls|
  {
    if ls != [] {
      var l := ls[0];
      if l.Act? && l.r == r {
        VainPollsCount(Next(s, l).value, ls[1..], r, left - 1, n - 1);
      } else {
        OthersLeaveAlone(s, l, r);
        VainPollsCount(Next(s, l).value, ls[1..], r, left, n);
      }
    }
  }

  /** A request that is refused the claim polls up to five times, whatever goes on beside it: after fewer polls in
      vain the next one that answers and finds a response replays its code, and after five it gives up. */
  lemma WaiterPollsFiveTimes(s: State, r: nat, ls: seq<Label>, n: nat)
    requires r in s.reqs && s.reqs[r].phase.Missed? && LockLive(s)
    requires n <= 5 && PollsInVain(Next(s, Act(r, Ok)).value, ls, r, n)
    ensures Run(Next(s, Act(r, Ok)).value, ls).Some?
    ensures var t := Run(Next(s, Act(r, Ok)).value, ls).value;
      && r in t.reqs && t.reqs[r].phase == Polling(5 - n)
      && (n < 5 && t.resp.Some? && t.now < t.resp.value.deadline ==>
            Next(t, Act(r, Ok)).value.reqs[r].phase == Replaying(t.resp.value.code))
      && (n == 5 ==> forall out :: Next(t, Act(r, out)).value.reqs[r].phase == Finished(Failed))
  {
    var waiting := Next(s, Act(r, Ok)).value;
    assert waiting.reqs[r].phase == Polling(5);
    VainPollsCount(waiting, ls, r, 5, n);
  }

  // ------------------------------------------------- mutual exclusion

  /** Redis answers the two calls that decide whether a request may create, and does not lose the lock. */
  predicate Answered(s: State, l: Label) {
    && !l.LoseLock?
    && (l.Act? && l.r in s.reqs && (s.reqs[l.r].phase.Arrived? || s.reqs[l.r].phase.Missed?) ==> l.out == Ok)
  }

  /** Every claimer is done with the key before its lock expires. */
  predicate Prompt(s: State) {
    forall r | r in s.reqs && Holding(s.reqs[r].phase) :: s.now < Since(s.reqs[r].phase) + LOCK_TTL
  }

  ghost predicate PromptRun(s: State, ls: seq<Label>)
    decreases |ls|
  {
    Prompt(s) && (ls == [] || (Answered(s, ls[0]) && Next(s, ls[0]).Some? && PromptRun(Next(s, ls[0]).value, ls[1..])))
  }

  ghost predicate Exclusive(s: State) {
    && (forall r | r in s.reqs && InCreate(s.reqs[r].phase) :: s.reqs[r].phase.claim.Some? && r in s.claimers)
    && (forall r | r in s.reqs && Holding(s.reqs[r].phase) :: s.lock == Some(Since(s.reqs[r].phase) + LOCK_TTL))
    && (forall q, r | q in s.reqs && r in s.reqs && Holding(s.reqs[q].phase) && Holding(s.reqs[r].phase) :: q == r)
    && (forall id | id in s.authors :: s.authors[id] in s.claimers)
  }

  /** A lock that is free has no holder, so the claim that takes it makes the only one. */
  lemma ExclusiveClaim(s: State, r: nat)
    requires Exclusive(s) && Prompt(s) && r in s.reqs && s.reqs[r].phase.Missed?
    ensures Exclusive(Advance(s, r, Ok).value)
  {
    if !LockLive(s) {
      assert forall q | q in s.reqs :: !Holding(s.reqs[q].phase);
    }
  }

  lemma ExclusiveInsert(s: State, t: State, r: nat)
    requires Exclusive(s) && r in s.reqs && s.reqs[r].phase.Inserting? && InsertShape(s, t, r)
    ensures Exclusive(t)
  {}

  /** No other call makes a holder; only a holder touches the lock, and by doing so stops holding. */
  ghost predicate HolderShape(s: State, t: State, r: nat)
    requires r in s.reqs
  {
    var p := s.reqs[r].phase;
    && r in t.reqs && t.reqs == s.reqs[r := t.reqs[r]]
    && t.authors == s.authors && t.claimers == s.claimers
    && var p' := t.reqs[r].phase;
       && (Holding(p') ==> Holding(p) && Since(p') == Since(p))
       && (InCreate(p') ==> InCreate(p) && p'.claim == p.claim)
       && (t.lock == s.lock || (Holding(p) && !Holding(p')))
  }

  lemma ActHasHolderShape(s: State, r: nat, out: Outcome)
    requires r in s.reqs && !s.reqs[r].phase.Inserting? && !s.reqs[r].phase.Missed?
    requires Answered(s, Act(r, out)) && Advance(s, r, out).Some?
    ensures HolderShape(s, Advance(s, r, out).value, r)
  {}

  lemma ExclusiveAct(s: State, t: State, r: nat)
    requires Exclusive(s) && r in s.reqs && HolderShape(s, t, r)
    ensures Exclusive(t)
  {}

  lemma ExclusiveStep(s: State, l: Label)
    requires Exclusive(s) && Prompt(s) && Answered(s, l) && Next(s, l).Some?
    ensures Exclusive(Next(s, l).value)
  {
    if l.Act? {
      if s.reqs[l.r].phase.Inserting? {
        InsertedHasShape(s, l.r, l.out);
        ExclusiveInsert(s, Next(s, l).value, l.r);
      } else if s.reqs[l.r].phase.Missed? {
        ExclusiveClaim(s, l.r);
      } else {
        ActHasHolderShape(s, l.r, l.out);
        ExclusiveAct(s, Next(s, l).value, l.r);
      }
    }
  }

  lemma {:induction false} ExclusiveRun(s: State, ls: seq<Label>)
    requires Exclusive(s) && PromptRun(s, ls)
    ensures Run(s, ls).Some? && Exclusive(Run(s, ls).value)
    decreases |ls|
  {
    if ls != [] {
      ExclusiveStep(s, ls[0]);
      ExclusiveRun(Next(s, ls[0]).value, ls[1..]);
    }
  }

  /** In every prompt run at most one request is inside createOne, despite the ownerless Release,
      and every row made for the key is a claimer's. */
  lemma AtMostOneCreator(s: State, ls: seq<Label>)
    requires Initial(s) && PromptRun(s, ls)
    ensures Run(s, ls).Some?
    ensures var t := Run(s, ls).value;
      && (forall q, r | q in t.reqs && r in t.reqs && InCreate(t.reqs[q].phase) && InCreate(t.reqs[r].phase) :: q == r)
      && (forall id | id in t.authors :: t.authors[id] in t.claimers)
  {
    ExclusiveRun(s, ls);
  }

  // ------------------------------------------------- rows per key

  /** The first recorded response has not had time to expire; a run is remembered if Redis does not lose it either. */
  predicate Remembered(s: State) {
    s.firstSet.Some? ==> s.now < s.firstSet.value + RESP_TTL
  }

  ghost predicate RememberedRun(s: State, ls: seq<Label>)
    decreases |ls|
  {
    Remembered(s) &&
    (ls == [] || (!ls[0].LoseResp? && Next(s, ls[0]).Some? && RememberedRun(Next(s, ls[0]).value, ls[1..])))
  }

  ghost predicate Bounded(s: State) {
    && (s.firstSet.Some? ==> s.resp.Some? && s.firstSet.value <= s.now &&
                             s.resp.value.deadline >= s.firstSet.value + RESP_TTL)
    && (forall r | r in s.reqs && r !in s.early + s.blind ::
          var p := s.reqs[r].phase; p.Arrived? || p.Replaying? || p.Finished?)
    && (forall id | id in s.authors :: s.authors[id] in s.early + s.blind)
  }

  lemma BoundedStep(s: State, l: Label)
    requires Bounded(s) && Remembered(s) && Next(s, l).Some? && !l.LoseResp?
    ensures Bounded(Next(s, l).value)
  {
    if l.Act? && s.reqs[l.r].phase.Inserting? {
      InsertedHasShape(s, l.r, l.out);
    }
  }

  lemma {:induction false} BoundedRun(s: State, ls: seq<Label>)
    requires Bounded(s) && RememberedRun(s, ls)
    ensures Run(s, ls).Some? && Bounded(Run(s, ls).value)
    decreases |ls|
  {
    if ls != [] {
      BoundedStep(s, ls[0]);
      BoundedRun(Next(s, ls[0]).value, ls[1..]);
    }
  }

  /** While the response is remembered, a request whose first Get followed a Set (and did not fail)
      writes nothing, so a key has no more rows than requests that looked before the first Set. */
  lemma RowsPerKeyBounded(s: State, ls: seq<Label>)
    requires Initial(s) && RememberedRun(s, ls)
    ensures Run(s, ls).Some?
    ensures var t := Run(s, ls).value;
      && (forall id | id in t.authors :: t.authors[id] in t.early + t.blind)
      && |t.authors| <= |t.early + t.blind|
  {
    BoundedRun(s, ls);
    RunKeepsInv(s, ls);
    InjectiveFits(Run(s, ls).value.authors, Run(s, ls).value.early + Run(s, ls).value.blind);
  }

  lemma {:induction false} AnsweredRunIsSighted(s: State, ls: seq<Label>)
    requires s.blind == {} && PromptRun(s, ls)
    ensures Run(s, ls).Some? && Run(s, ls).value.blind == {}
    decreases |ls|
  {
    if ls != [] {
      AnsweredRunIsSighted(Next(s, ls[0]).value, ls[1..]);
    }
  }

  /** Where Redis also answers, rows per key never exceed the requests whose first Get preceded the first Set. */
  lemma RowsPerKeyWhenAnswered(s: State, ls: seq<Label>)
    requires Initial(s) && PromptRun(s, ls) && RememberedRun(s, ls)
    ensures Run(s, ls).Some?
    ensures var t := Run(s, ls).value;
      && (forall id | id in t.authors :: t.authors[id] in t.early)
      && |t.authors| <= |t.early|
  {
    RowsPerKeyBounded(s, ls);
    AnsweredRunIsSighted(s, ls);
    assert Run(s, ls).value.early + {} == Run(s, ls).value.early;
  }
}
