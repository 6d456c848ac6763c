/** The analytics consumer (internal/consumer/consumer.go) as a state machine: any number of workers
    read batches from one consumer group and handle them call by call, interleaved with each other
    and with every writer of `urls`, any call failing and any worker crashing anywhere. */
module Analytics {
  import opened Common
  import opened Schema
  import opened Ledger
  import CodeSpace

  const BATCH_SIZE := 32

  /** A stream entry; its id is its position. `ts` is None when it does not parse. */
  datatype Event = Event(code: string, referrer: string, ts: Option<int>)

  /** What `handle` does next for the entry at hand. */
  datatype Stage =
    | AtClaim
    | AtLookup(day: int)
    | AtTotal(url: nat, day: int)
    | AtReferrer(url: nat, day: int)
    | AtAck

  /** A worker inside ProcessOnce, or after it returned `count` entries of `batch` handled. */
  datatype Worker =
    | Busy(batch: seq<nat>, done: nat, stage: Stage)
    | Returned(batch: seq<nat>, count: nat, ok: bool)

  /** The table, the stream with its group's cursor and pending set, and the workers;
      then history only: acknowledged entries, the upserts that took effect, the entries handed out
      through ">", and what the `handle` calls of each worker's latest batch returned, true for nil. */
  datatype State = State(
    space: CodeSpace.State, stream: seq<Event>, cursor: nat, pending: set<nat>, workers: map<nat, Worker>,
    acked: set<nat>, log: seq<Hit>, handed: seq<nat>, verdicts: map<nat, seq<bool>>)

  /** `Act` is the next call of a busy worker; `clock` is what time.Now would answer then.
      `Redeliver` hands a delivered entry out again, which this program never asks for. */
  datatype Label =
    | Publish(e: Event)
    | Read(w: nat, out: Outcome)
    | Redeliver(w: nat, entry: nat)
    | Act(w: nat, out: Outcome, clock: int)
    | Crash(w: nat)
    | Table(op: CodeSpace.Label)

  ghost predicate Initial(s: State) {
    && CodeSpace.Inv(s.space) && s.space.db.counts == map[] && s.space.db.claims == {}
    && s.cursor == 0 && s.pending == s.acked == {} && s.workers == map[] && s.log == [] && s.handed == []
    && s.verdicts == map[]
  }

  /** eventDay: the UTC day of the timestamp, or of the clock when there is none. */
  function DayOf(e: Event, clock: int): int {
    (if e.ts.Some? then e.ts.value else clock) / 86400
  }

  predicate Idle(s: State, w: nat) {
    w !in s.workers || s.workers[w].Returned?
  }

  predicate AtWork(s: State, w: nat) {
    w in s.workers && s.workers[w].Busy? && s.workers[w].done < |s.workers[w].batch|
  }

  function Entry(s: State, w: nat): nat
    requires AtWork(s, w)
  {
    s.workers[w].batch[s.workers[w].done]
  }

  function Put(s: State, w: nat, worker: Worker): State {
    s.(workers := s.workers[w := worker])
  }

  /** `handle` returned nil: count the entry and take the next one. */
  function Handled(b: Worker): Worker
    requires b.Busy?
  {
    if b.done + 1 < |b.batch| then Busy(b.batch, b.done + 1, AtClaim) else Returned(b.batch, b.done + 1, true)
  }

  /** `handle` returned an error: ProcessOnce gives up on the rest of the batch. */
  function Failed(b: Worker): Worker
    requires b.Busy?
  {
    Returned(b.batch, b.done, false)
  }

  function Verdicts(s: State, w: nat): seq<bool> {
    if w in s.verdicts then s.verdicts[w] else []
  }

  /** `handle` returns to ProcessOnce. */
  function Return(s: State, w: nat, isNil: bool): State
    requires AtWork(s, w)
  {
    var b := s.workers[w];
    Put(s, w, if isNil then Handled(b) else Failed(b)).(verdicts := s.verdicts[w := Verdicts(s, w) + [isNil]])
  }

  /** ProcessOnce has its batch, or nothing. */
  function Take(s: State, w: nat, worker: Worker): State {
    Put(s, w, worker).(verdicts := s.verdicts[w := []])
  }

  function WithDb(s: State, db: Db): State {
    s.(space := s.space.(db := db))
  }

  /** An upsert of `handle`; the worker goes to `next` if the call answers. */
  ghost function Raise(s: State, w: nat, out: Outcome, key: Key, next: Stage): State
    requires AtWork(s, w)
  {
    var b := s.workers[w];
    var (db, r) := Upsert(s.space.db, key);
    if out == Fail || r.Refused? then Return(s, w, false)
    else
      var t := WithDb(s, db).(log := s.log + [Hit(Entry(s, w), key)]);
      if out == Ok then Put(t, w, b.(stage := next)) else Return(t, w, false)
  }

  ghost function Advance(s: State, w: nat, out: Outcome, clock: int): State
    requires AtWork(s, w) && Entry(s, w) < |s.stream|
  {
    var b := s.workers[w];
    var id := Entry(s, w);
    var e := s.stream[id];
    match b.stage
    case AtClaim =>
      if e.code == "" then Return(s, w, true)         // without an ack
      else if out == Fail then Return(s, w, false)
      else
        var (db, first) := Schema.Claim(s.space.db, id);
        var t := WithDb(s, db);
        if out == Lost then Return(t, w, false)
        else Put(t, w, b.(stage := if first then AtLookup(DayOf(e, clock)) else AtAck))
    case AtLookup(day) =>
      var row := Find(s.space.db, e.code);
      if out != Ok then Return(s, w, false)
      else Put(s, w, b.(stage := if row.Some? then AtTotal(row.value.id, day) else AtAck))
    case AtTotal(url, day) =>
      Raise(s, w, out, Key(url, day, Total), if e.referrer != "" then AtReferrer(url, day) else AtAck)
    case AtReferrer(url, day) =>
      Raise(s, w, out, Key(url, day, Referrer(e.referrer)), AtAck)
    case AtAck =>
      var s' := if out == Fail then s else s.(pending := s.pending - {id}, acked := s.acked + {id});
      Return(s', w, out == Ok)
  }

  function Min(a: nat, b: nat): nat {
    if a < b then a else b
  }

  /** XREADGROUP ">": the next entries never delivered, which become pending. */
  function ReadBatch(s: State, w: nat, out: Outcome): State
    requires s.cursor <= |s.stream|
  {
    var n := Min(BATCH_SIZE, |s.stream| - s.cursor);
    var batch := seq(n, i requires 0 <= i < n => s.cursor + i);
    if out == Fail then Take(s, w, Returned([], 0, false))
    else
      var s' := s.(cursor := s.cursor + n, pending := s.pending + (set k | k in batch), handed := s.handed + batch);
      Take(s', w, if out == Lost then Returned([], 0, false)
                  else if n == 0 then Returned([], 0, true)
                  else Busy(batch, 0, AtClaim))
  }

  /** One atomic step, or None when the label does not fit the state. */
  ghost function Next(s: State, l: Label): Option<State> {
    match l
    case Publish(e) => Some(s.(stream := s.stream + [e]))
    case Read(w, out) => if Idle(s, w) && s.cursor <= |s.stream| then Some(ReadBatch(s, w, out)) else None
    case Redeliver(w, k) => if Idle(s, w) && k < s.cursor then Some(Take(s, w, Busy([k], 0, AtClaim))) else None
    case Act(w, out, clock) =>
      if AtWork(s, w) && Entry(s, w) < |s.stream| then Some(Advance(s, w, out, clock)) else None
    case Crash(w) =>
      if AtWork(s, w) then Some(Put(s, w, Failed(s.workers[w]))) else None
    case Table(op) =>
      var t := CodeSpace.Next(s.space, op);
      if t.None? then None else Some(s.(space := t.value))
  }

  ghost function Run(s: State, ls: seq<Label>): Option<State>
    decreases |ls|
  {
    if ls == [] then Some(s)
    else
      var t := Next(s, ls[0]);
      if t.None? then None else Run(t.value, ls[1..])
  }

  // ------------------------------------------------- at most once, balanced books

  predicate AfterClaim(stage: Stage) {
    stage.AtLookup? || stage.AtTotal? || stage.AtReferrer?
  }

  /** A worker past the claim of an entry and not yet past its upserts. */
  predicate Owns(s: State, w: nat, id: nat) {
    AtWork(s, w) && AfterClaim(s.workers[w].stage) && Entry(s, w) == id
  }

  /** No event raised a total twice, or referrer counters twice. */
  ghost predicate NoRepeat(log: seq<Hit>) {
    forall i, j | 0 <= i < j < |log| && log[i].event == log[j].event :: log[i].key.dim.Total? != log[j].key.dim.Total?
  }

  ghost predicate HasTotal(log: seq<Hit>, id: nat) {
    exists h | h in log :: h.event == id && h.key.dim.Total?
  }

  ghost predicate HasReferrer(log: seq<Hit>, id: nat) {
    exists h | h in log :: h.event == id && h.key.dim.Referrer?
  }

  ghost predicate StageOk(s: State, w: nat)
    requires AtWork(s, w)
  {
    var id := Entry(s, w);
    match s.workers[w].stage
    case AtClaim => true
    case AtLookup(day) => !HasTotal(s.log, id) && !HasReferrer(s.log, id)
    case AtTotal(url, day) => url < s.space.db.nextId && !HasTotal(s.log, id) && !HasReferrer(s.log, id)
    case AtReferrer(url, day) =>
      && url < s.space.db.nextId && Hit(id, Key(url, day, Total)) in s.log && !HasReferrer(s.log, id)
      && id < |s.stream| && s.stream[id].referrer != ""
    case AtAck => true
  }

  ghost predicate HitOk(s: State, h: Hit) {
    && h.event in s.space.db.claims && h.event < |s.stream| && h.key.url < s.space.db.nextId
    && (h.key.dim.Referrer? ==>
          && h.key.dim.value == s.stream[h.event].referrer != ""
          && Hit(h.event, Key(h.key.url, h.key.day, Total)) in s.log)
  }

  ghost predicate Inv(s: State) {
    && CodeSpace.Inv(s.space)
    && Balanced(s.space.db, s.log)
    && NoRepeat(s.log)
    && (forall h | h in s.log :: HitOk(s, h))
    && (forall w | AtWork(s, w) :: StageOk(s, w))
    && (forall w | AtWork(s, w) && AfterClaim(s.workers[w].stage) :: Entry(s, w) in s.space.db.claims)
    && (forall v, w | AtWork(s, v) && AtWork(s, w) && AfterClaim(s.workers[v].stage) && AfterClaim(s.workers[w].stage)
                      && Entry(s, v) == Entry(s, w) :: v == w)
  }

  /** At most worker `w` changed, and what it owns now it owned before or has just claimed. */
  ghost predicate OnlyMoves(s: State, t: State, w: nat) {
    && (forall v | v != w :: AtWork(t, v) == AtWork(s, v) && (AtWork(s, v) ==> t.workers[v] == s.workers[v]))
    && (AtWork(t, w) && AfterClaim(t.workers[w].stage) ==>
          Entry(t, w) in t.space.db.claims &&
          (Owns(s, w, Entry(t, w)) || Entry(t, w) !in s.space.db.claims))
  }

  ghost predicate Grows(s: State, t: State) {
    && s.space.db.claims <= t.space.db.claims
    && s.space.db.nextId <= t.space.db.nextId
    && |s.stream| <= |t.stream| && s.stream == t.stream[..|s.stream|]
  }

  /** A step that credits nothing. */
  lemma QuietStep(s: State, t: State, w: nat)
    requires Inv(s) && OnlyMoves(s, t, w) && Grows(s, t) && t.log == s.log
    requires CodeSpace.Inv(t.space) && Balanced(t.space.db, t.log)
    requires AtWork(t, w) ==> StageOk(t, w)
    ensures Inv(t)
  {
    forall v | AtWork(t, v) ensures StageOk(t, v) {
      assert v != w ==> StageOk(s, v);
    }
    forall h | h in t.log ensures HitOk(t, h) {
      assert HitOk(s, h);
    }
  }

  /** A step of worker `w` that raises a counter for the entry it owns. */
  lemma CreditStep(s: State, t: State, w: nat, h: Hit)
    requires Inv(s) && OnlyMoves(s, t, w) && Grows(s, t) && t.log == s.log + [h]
    requires CodeSpace.Inv(t.space) && Balanced(t.space.db, t.log)
    requires Owns(s, w, h.event) && HitOk(t, h)
    requires if h.key.dim.Total? then !HasTotal(s.log, h.event) else !HasReferrer(s.log, h.event)
    requires AtWork(t, w) ==> StageOk(t, w)
    ensures Inv(t)
  {
    forall v | AtWork(t, v) ensures StageOk(t, v) {
      if v != w {
        assert StageOk(s, v);
        assert AfterClaim(s.workers[v].stage) ==> Entry(s, v) != h.event;
      }
    }
    HitsStay(s, t, h);
  }

  lemma HitsStay(s: State, t: State, h: Hit)
    requires Grows(s, t) && t.log == s.log + [h] && HitOk(t, h) && NoRepeat(s.log)
    requires if h.key.dim.Total? then !HasTotal(s.log, h.event) else !HasReferrer(s.log, h.event)
    requires forall g | g in s.log :: HitOk(s, g)
    ensures NoRepeat(t.log) && forall g | g in t.log :: HitOk(t, g)
  {
    forall g | g in t.log ensures HitOk(t, g) {
      assert g != h ==> HitOk(s, g);
    }
  }

  lemma UpsertKeepsSpace(space: CodeSpace.State, key: Key)
    requires CodeSpace.Inv(space)
    ensures CodeSpace.Inv(space.(db := Upsert(space.db, key).0))
  {}

  lemma ClaimKeepsSpace(space: CodeSpace.State, id: nat)
    requires CodeSpace.Inv(space)
    ensures CodeSpace.Inv(space.(db := Schema.Claim(space.db, id).0))
  {}

  lemma TableKeepsBalance(space: CodeSpace.State, op: CodeSpace.Label, log: seq<Hit>)
    requires CodeSpace.Inv(space) && Balanced(space.db, log) && CodeSpace.Next(space, op).Some?
    requires forall h | h in log :: h.key.url < space.db.nextId
    ensures Balanced(CodeSpace.Next(space, op).value.db, log)
    ensures CodeSpace.Next(space, op).value.db.claims == space.db.claims
  {
    match op
    case InsertAuto(u, e, at, out) => InsertKeepsBalance(space.db, log, None, u, e, at);
    case InsertCustom(code, u, e, at, out) => InsertKeepsBalance(space.db, log, Some(code), u, e, at);
    case Remove(code, out) => DeleteKeepsBalance(space.db, log, code);
    case AssignCode(id, out) =>
    case Abandon(id) =>
  }

  lemma TableStep(s: State, op: CodeSpace.Label)
    requires Inv(s) && Next(s, Table(op)).Some?
    ensures Inv(Next(s, Table(op)).value)
  {
    CodeSpace.StepKeepsInv(s.space, op);
    assert forall h | h in s.log :: HitOk(s, h);
    TableKeepsBalance(s.space, op, s.log);
    QuietStep(s, Next(s, Table(op)).value, 0);
  }

  lemma ClaimStep(s: State, w: nat, out: Outcome, clock: int)
    requires Inv(s) && AtWork(s, w) && Entry(s, w) < |s.stream| && s.workers[w].stage.AtClaim?
    ensures Inv(Advance(s, w, out, clock))
  {
    var id := Entry(s, w);
    ClaimKeepsSpace(s.space, id);
    var t := Advance(s, w, out, clock);
    if id !in s.space.db.claims {
      assert forall h | h in s.log :: HitOk(s, h);
    }
    QuietStep(s, t, w);
  }

  lemma LookupStep(s: State, w: nat, out: Outcome, clock: int)
    requires Inv(s) && AtWork(s, w) && Entry(s, w) < |s.stream| && s.workers[w].stage.AtLookup?
    ensures Inv(Advance(s, w, out, clock))
  {
    assert StageOk(s, w);
    QuietStep(s, Advance(s, w, out, clock), w);
  }

  lemma NotYetCredited(log: seq<Hit>, id: nat, key: Key)
    requires if key.dim.Total? then !HasTotal(log, id) else !HasReferrer(log, id)
    ensures id !in Events(log, key)
    ensures key.dim.Referrer? ==> id !in ReferredEvents(log, key.url, key.day)
  {}

  /** An upsert that took effect leads from `s` to `t` and, once the worker moves on, to `u`. */
  lemma RaisedStep(s: State, t: State, u: State, w: nat, key: Key, next: Stage)
    requires Inv(s) && AtWork(s, w) && AfterClaim(s.workers[w].stage)
    requires key.url < s.space.db.nextId && Entry(s, w) < |s.stream|
    requires if key.dim.Total? then !HasTotal(s.log, Entry(s, w)) else !HasReferrer(s.log, Entry(s, w))
    requires key.dim.Referrer? ==>
               && key.dim.value == s.stream[Entry(s, w)].referrer != ""
               && Hit(Entry(s, w), Key(key.url, key.day, Total)) in s.log
    requires next.AtAck? ||
               (key.dim.Total? && next == AtReferrer(key.url, key.day) && !HasReferrer(s.log, Entry(s, w))
                && s.stream[Entry(s, w)].referrer != "")
    requires t.log == s.log + [Hit(Entry(s, w), key)] && Grows(s, t) && t.workers == s.workers && t.stream == s.stream
    requires CodeSpace.Inv(t.space) && Balanced(t.space.db, t.log)
    requires u == Put(t, w, s.workers[w].(stage := next)) || u == Return(t, w, false)
    ensures Inv(u)
  {
    var h := Hit(Entry(s, w), key);
    assert h in u.log;
    assert next.AtReferrer? ==> !HasReferrer(u.log, Entry(s, w));
    CreditStep(s, u, w, h);
  }

  lemma BooksAfterRaise(s: State, id: nat, key: Key)
    requires CodeSpace.Inv(s.space) && Balanced(s.space.db, s.log) && key.url in s.space.db.rows
    requires if key.dim.Total? then !HasTotal(s.log, id) else !HasReferrer(s.log, id)
    ensures CodeSpace.Inv(s.space.(db := Upsert(s.space.db, key).0))
    ensures Balanced(Upsert(s.space.db, key).0, s.log + [Hit(id, key)])
  {
    UpsertKeepsSpace(s.space, key);
    NotYetCredited(s.log, id, key);
    CreditKeeps(s.space.db, s.log, Hit(id, key));
  }

  lemma GivingUp(s: State, w: nat)
    requires Inv(s) && AtWork(s, w)
    ensures Inv(Return(s, w, false))
  {
    QuietStep(s, Return(s, w, false), w);
  }

  /** Either upsert of `handle`, made for the entry its worker owns and has not yet credited. */
  lemma RaiseStep(s: State, w: nat, out: Outcome, key: Key, next: Stage)
    requires Inv(s) && AtWork(s, w) && AfterClaim(s.workers[w].stage)
    requires key.url < s.space.db.nextId && Entry(s, w) < |s.stream|
    requires if key.dim.Total? then !HasTotal(s.log, Entry(s, w)) else !HasReferrer(s.log, Entry(s, w))
    requires key.dim.Referrer? ==>
               && key.dim.value == s.stream[Entry(s, w)].referrer != ""
               && Hit(Entry(s, w), Key(key.url, key.day, Total)) in s.log
    requires next.AtAck? ||
               (key.dim.Total? && next == AtReferrer(key.url, key.day) && !HasReferrer(s.log, Entry(s, w))
                && s.stream[Entry(s, w)].referrer != "")
    ensures Inv(Raise(s, w, out, key, next))
  {
    if out == Fail || Upsert(s.space.db, key).1.Refused? {
      GivingUp(s, w);
    } else {
      BooksAfterRaise(s, Entry(s, w), key);
      var b := s.workers[w];
      var t := WithDb(s, Upsert(s.space.db, key).0).(log := s.log + [Hit(Entry(s, w), key)]);
      RaisedStep(s, t, if out == Ok then Put(t, w, b.(stage := next)) else Return(t, w, false), w, key, next);
    }
  }

  lemma UpsertStep(s: State, w: nat, out: Outcome, clock: int)
    requires Inv(s) && AtWork(s, w) && Entry(s, w) < |s.stream|
    requires s.workers[w].stage.AtTotal? || s.workers[w].stage.AtReferrer?
    ensures Inv(Advance(s, w, out, clock))
  {
    assert StageOk(s, w);
    var e := s.stream[Entry(s, w)];
    match s.workers[w].stage
    case AtTotal(url, day) =>
      RaiseStep(s, w, out, Key(url, day, Total), if e.referrer != "" then AtReferrer(url, day) else AtAck);
    case AtReferrer(url, day) =>
      RaiseStep(s, w, out, Key(url, day, Referrer(e.referrer)), AtAck);
  }

  lemma AckStep(s: State, w: nat, out: Outcome, clock: int)
    requires Inv(s) && AtWork(s, w) && Entry(s, w) < |s.stream| && s.workers[w].stage.AtAck?
    ensures Inv(Advance(s, w, out, clock))
  {
    QuietStep(s, Advance(s, w, out, clock), w);
  }

  lemma ActStep(s: State, w: nat, out: Outcome, clock: int)
    requires Inv(s) && AtWork(s, w) && Entry(s, w) < |s.stream|
    ensures Inv(Advance(s, w, out, clock))
  {
    match s.workers[w].stage
    case AtClaim => ClaimStep(s, w, out, clock);
    case AtLookup(_) => LookupStep(s, w, out, clock);
    case AtTotal(_, _) => UpsertStep(s, w, out, clock);
    case AtReferrer(_, _) => UpsertStep(s, w, out, clock);
    case AtAck => AckStep(s, w, out, clock);
  }

  lemma TakeStep(s: State, l: Label, w: nat)
    requires Inv(s) && Next(s, l).Some? && (l.Read? || l.Redeliver?) && l.w == w
    ensures Inv(Next(s, l).value)
  {
    QuietStep(s, Next(s, l).value, w);
  }

  lemma StepKeepsInv(s: State, l: Label)
    requires Inv(s) && Next(s, l).Some?
    ensures Inv(Next(s, l).value)
  {
    match l
    case Act(w, out, clock) => ActStep(s, w, out, clock);
    case Read(w, out) => TakeStep(s, l, w);
    case Redeliver(w, k) => TakeStep(s, l, w);
    case Crash(w) => QuietStep(s, Next(s, l).value, w);
    case Publish(e) => QuietStep(s, Next(s, l).value, 0);
    case Table(op) => TableStep(s, op);
  }

  // ------------------------------------------------- whose clicks a counter holds

  predicate DayFits(s: State, id: nat, day: int)
    requires id < |s.stream|
  {
    var ts := s.stream[id].ts;
    ts.Some? ==> day * 86400 <= ts.value < (day + 1) * 86400
  }

  /** The event's code names the link, while that lives, and the day is the event's. */
  predicate Names(s: State, id: nat, url: nat, day: int)
    requires id < |s.stream|
  {
    && DayFits(s, id, day) && url < s.space.db.nextId
    && (url in s.space.db.rows ==> s.space.db.rows[url].code == Some(s.stream[id].code))
  }

  ghost predicate Heading(s: State, w: nat)
    requires AtWork(s, w)
  {
    Entry(s, w) < |s.stream| &&
    match s.workers[w].stage
    case AtClaim => true
    case AtLookup(day) => DayFits(s, Entry(s, w), day)
    case AtTotal(url, day) => Names(s, Entry(s, w), url, day)
    case AtReferrer(url, day) => Names(s, Entry(s, w), url, day)
    case AtAck => true
  }

  /** Every raise was for the link its event names, on the event's day, and so is every raise to come. */
  ghost predicate Attributed(s: State) {
    && s.cursor <= |s.stream|
    && (forall h | h in s.log :: h.event < |s.stream| && Names(s, h.event, h.key.url, h.key.day))
    && (forall w | AtWork(s, w) :: Heading(s, w))
    && (forall w: nat, i: nat | AtWork(s, w) && i < |s.workers[w].batch| :: s.workers[w].batch[i] < s.cursor)
  }

  /** A step that leaves the log as it is, or adds a hit of worker `w` that names its link. */
  lemma StaysAttributed(s: State, t: State, w: nat)
    requires Attributed(s) && CodeSpace.Settled(s.space, t.space)
    requires |s.stream| <= |t.stream| && s.stream == t.stream[..|s.stream|] && s.cursor <= t.cursor <= |t.stream|
    requires t.log == s.log ||
      exists h :: t.log == s.log + [h] && h.event < |t.stream| && Names(t, h.event, h.key.url, h.key.day)
    requires forall v | AtWork(t, v) ::
      (AtWork(s, v) && t.workers[v] == s.workers[v]) ||
      (v == w && Heading(t, v) && forall i | 0 <= i < |t.workers[v].batch| :: t.workers[v].batch[i] < t.cursor)
    ensures Attributed(t)
  {
    forall h | h in s.log ensures h.event < |t.stream| && Names(t, h.event, h.key.url, h.key.day) {
      NameStays(s, t, h.event, h.key.url, h.key.day);
    }
    forall v | AtWork(t, v) && AtWork(s, v) && t.workers[v] == s.workers[v] ensures Heading(t, v) {
      assert Heading(s, v);
      var id, stage := Entry(s, v), s.workers[v].stage;
      if stage.AtTotal? || stage.AtReferrer? {
        NameStays(s, t, id, stage.url, stage.day);
      }
    }
  }

  lemma NameStays(s: State, t: State, id: nat, url: nat, day: int)
    requires id < |s.stream| <= |t.stream| && s.stream == t.stream[..|s.stream|]
    requires CodeSpace.Settled(s.space, t.space) && Names(s, id, url, day)
    ensures Names(t, id, url, day)
  {
    assert t.stream[id] == t.stream[..|s.stream|][id];
  }

  lemma ActStaysAttributed(s: State, w: nat, out: Outcome, clock: int)
    requires CodeSpace.Inv(s.space) && Attributed(s) && AtWork(s, w) && Entry(s, w) < |s.stream|
    requires !s.workers[w].stage.AtTotal? && !s.workers[w].stage.AtReferrer?
    ensures Attributed(Advance(s, w, out, clock))
  {
    assert Heading(s, w);
    StaysAttributed(s, Advance(s, w, out, clock), w);
  }

  lemma RaiseStaysAttributed(s: State, w: nat, out: Outcome, clock: int)
    requires CodeSpace.Inv(s.space) && Attributed(s) && AtWork(s, w) && Entry(s, w) < |s.stream|
    requires s.workers[w].stage.AtTotal? || s.workers[w].stage.AtReferrer?
    ensures Attributed(Advance(s, w, out, clock))
  {
    var t := Advance(s, w, out, clock);
    assert Heading(s, w);
    if t.log != s.log {
      var h := t.log[|s.log|];
      assert t.log == s.log + [h] && Names(t, h.event, h.key.url, h.key.day);
    }
    StaysAttributed(s, t, w);
  }

  lemma StepKeepsAttributed(s: State, l: Label)
    requires CodeSpace.Inv(s.space) && Attributed(s) && Next(s, l).Some?
    ensures Attributed(Next(s, l).value)
  {
    var t := Next(s, l).value;
    match l
    case Act(w, out, clock) =>
      if s.workers[w].stage.AtTotal? || s.workers[w].stage.AtReferrer? {
        RaiseStaysAttributed(s, w, out, clock);
      } else {
        ActStaysAttributed(s, w, out, clock);
      }
    case Read(w, out) => StaysAttributed(s, t, w);
    case Redeliver(w, k) => StaysAttributed(s, t, w);
    case Crash(w) => StaysAttributed(s, t, w);
    case Publish(e) => StaysAttributed(s, t, 0);
    case Table(op) => TableStaysAttributed(s, op);
  }

  lemma TableStaysAttributed(s: State, op: CodeSpace.Label)
    requires CodeSpace.Inv(s.space) && Attributed(s) && Next(s, Table(op)).Some?
    ensures Attributed(Next(s, Table(op)).value)
  {
    CodeSpace.StepKeepsInv(s.space, op);
    StaysAttributed(s, Next(s, Table(op)).value, 0);
  }

  lemma {:induction false} RunKeepsInv(s: State, ls: seq<Label>)
    requires Inv(s) && Attributed(s) && Run(s, ls).Some?
    ensures Inv(Run(s, ls).value) && Attributed(Run(s, ls).value)
    decreases |ls|
  {
    if ls != [] {
      StepKeepsInv(s, ls[0]);
      StepKeepsAttributed(s, ls[0]);
      RunKeepsInv(Next(s, ls[0]).value, ls[1..]);
    }
  }

  /** What a counter's key says about the events behind it. */
  predicate Fits(s: State, id: nat, k: Key) {
    && id < |s.stream| && Names(s, id, k.url, k.day)
    && (k.dim.Referrer? ==> k.dim.value == s.stream[id].referrer != "")
  }

  /** In every run, with redelivery, several workers, and errors or crashes between any two calls,
      an event raises at most one total and at most one referrer counter, each by one:
      a live counter is the number of distinct events in its name, all of which carry its link's code,
      its day if their timestamp parses, and its referrer. */
  lemma AtMostOnce(s: State, ls: seq<Label>)
    requires Initial(s) && Run(s, ls).Some?
    ensures var t := Run(s, ls).value;
      && NoRepeat(t.log)
      && (forall k: Key | k.url in t.space.db.rows :: Count(t.space.db.counts, k) == |Events(t.log, k)|)
      && (forall k: Key, id | id in Events(t.log, k) :: Fits(t, id, k))
      && (forall k: Key, id | id in Events(t.log, k) && t.stream[id].ts.Some? ::
            k.day * 86400 <= t.stream[id].ts.value < (k.day + 1) * 86400)
      && (forall k | k in t.space.db.counts :: k.url in t.space.db.rows)
  {
    InitialInv(s);
    RunKeepsInv(s, ls);
    assert forall h | h in Run(s, ls).value.log :: HitOk(Run(s, ls).value, h);
  }

  lemma InitialInv(s: State)
    requires Initial(s)
    ensures Inv(s) && Attributed(s)
  {
    forall u, d ensures Sum(ReferrerCounts(s.space.db.counts, u, d)) == |ReferredEvents(s.log, u, d)| {
      assert ReferrerCounts(s.space.db.counts, u, d) == map[];
      assert ReferredEvents(s.log, u, d) == {};
    }
    forall k: Key ensures Events(s.log, k) == {} {}
  }

  /** Counted events of a url and day that no referrer counter shows:
      those without a referrer, and those that never got past the second upsert. */
  ghost function Unreferred(s: State, url: nat, day: int): set<nat> {
    set id | id in Events(s.log, Key(url, day, Total)) &&
             id < |s.stream| && (s.stream[id].referrer == "" || !HasReferrer(s.log, id))
  }

  lemma ReferredAreCounted(t: State, url: nat, day: int)
    requires Inv(t)
    ensures ReferredEvents(t.log, url, day) <= Events(t.log, Key(url, day, Total))
  {
    assert forall h | h in t.log :: HitOk(t, h);
  }

  lemma Gap(t: State, url: nat, day: int)
    requires Inv(t)
    ensures |ReferredEvents(t.log, url, day)| + |Unreferred(t, url, day)| == |Events(t.log, Key(url, day, Total))|
  {
    var all, referred := Events(t.log, Key(url, day, Total)), ReferredEvents(t.log, url, day);
    ReferredAreCounted(t, url, day);
    forall id ensures id in Unreferred(t, url, day) <==> id in all && id !in referred {
      UnreferredIff(t, url, day, id);
    }
    assert all == referred + Unreferred(t, url, day);
  }

  lemma ReferrersFallShort(t: State, url: nat, day: int)
    requires Inv(t) && url in t.space.db.rows
    ensures Sum(ReferrerCounts(t.space.db.counts, url, day)) + |Unreferred(t, url, day)| ==
            Count(t.space.db.counts, Key(url, day, Total))
  {
    Gap(t, url, day);
    BooksSay(t.space.db, t.log, url, day);
  }

  lemma BooksSay(db: Db, log: seq<Hit>, url: nat, day: int)
    requires Balanced(db, log) && url in db.rows
    ensures Count(db.counts, Key(url, day, Total)) == |Events(log, Key(url, day, Total))|
    ensures Sum(ReferrerCounts(db.counts, url, day)) == |ReferredEvents(log, url, day)|
  {}

  /** At every moment of every run the referrer counters of a live url and day fall short of the total
      by exactly the unreferred events. Deletes and refused upserts do not disturb this. */
  lemma Conservation(s: State, ls: seq<Label>, url: nat, day: int)
    requires Initial(s) && Run(s, ls).Some? && url in Run(s, ls).value.space.db.rows
    ensures var t := Run(s, ls).value; var counts := t.space.db.counts;
      Sum(ReferrerCounts(counts, url, day)) + |Unreferred(t, url, day)| == Count(counts, Key(url, day, Total))
  {
    InitialInv(s);
    RunKeepsInv(s, ls);
    ReferrersFallShort(Run(s, ls).value, url, day);
  }

  lemma UnreferredIff(t: State, url: nat, day: int, id: nat)
    requires Inv(t)
    ensures id in Unreferred(t, url, day) <==>
            id in Events(t.log, Key(url, day, Total)) && id !in ReferredEvents(t.log, url, day)
  {
    assert forall h | h in t.log :: HitOk(t, h);
    if id in Events(t.log, Key(url, day, Total)) && id !in ReferredEvents(t.log, url, day) && HasReferrer(t.log, id) {
      var h :| h in t.log && h.event == id && h.key.dim.Referrer?;
      OneTotal(t.log, Hit(id, Key(url, day, Total)), Hit(id, Key(h.key.url, h.key.day, Total)));
      assert false;
    }
  }

  lemma OneTotal(log: seq<Hit>, g: Hit, h: Hit)
    requires NoRepeat(log) && g in log && h in log && g.event == h.event && g.key.dim.Total? && h.key.dim.Total?
    ensures g == h
  {
    var i :| 0 <= i < |log| && log[i] == g;
    var j :| 0 <= j < |log| && log[j] == h;
  }

  /** Upserts are only ever added, and an id that was free below nextId stays free. */
  ghost predicate Onwards(s: State, t: State) {
    && s.log <= t.log && s.space.db.nextId <= t.space.db.nextId
    && (forall id | id in t.space.db.rows && id < s.space.db.nextId :: id in s.space.db.rows)
  }

  lemma StepGoesOnwards(s: State, l: Label)
    requires CodeSpace.Inv(s.space) && Next(s, l).Some?
    ensures Onwards(s, Next(s, l).value)
  {
    if l.Table? {
      CodeSpace.StepKeepsInv(s.space, l.op);
    } else if l.Act? {
      CallGoesOnwards(s, l.w, l.out, l.clock);
    }
  }

  lemma CallGoesOnwards(s: State, w: nat, out: Outcome, clock: int)
    requires AtWork(s, w) && Entry(s, w) < |s.stream|
    ensures Onwards(s, Advance(s, w, out, clock))
  {}

  lemma {:induction false} RunGoesOnwards(s: State, ls: seq<Label>)
    requires Inv(s) && Run(s, ls).Some?
    ensures Onwards(s, Run(s, ls).value)
    decreases |ls|
  {
    if ls != [] {
      StepKeepsInv(s, ls[0]);
      StepGoesOnwards(s, ls[0]);
      RunGoesOnwards(Next(s, ls[0]).value, ls[1..]);
    }
  }

  /** The events credited to any of some counters. */
  function EventsAt(log: seq<Hit>, keys: set<Key>): set<nat> {
    set h | h in log && h.key in keys :: h.event
  }

  /** Counters of totals hold disjoint sets of events, so their sum counts the events of all of them. */
  lemma {:induction false} SumIsUnion(m: map<Key, nat>, log: seq<Hit>)
    requires NoRepeat(log)
    requires forall k | k in m :: k.dim.Total? && m[k] == |Events(log, k)|
    ensures Sum(m) == |EventsAt(log, m.Keys)|
    decreases |m|
  {
    if k :| k in m {
      var rest := m - {k};
      assert rest.Keys == m.Keys - {k};
      SumPick(m, k);
      SumIsUnion(rest, log);
      assert EventsAt(log, m.Keys) == Events(log, k) + EventsAt(log, rest.Keys);
      NoEventTwice(log, k, rest.Keys);
    }
  }

  /** No event is in the name of two totals. */
  lemma NoEventTwice(log: seq<Hit>, k: Key, ks: set<Key>)
    requires NoRepeat(log) && k !in ks && k.dim.Total? && forall j | j in ks :: j.dim.Total?
    ensures Events(log, k) !! EventsAt(log, ks)
  {
    forall id | id in Events(log, k) && id in EventsAt(log, ks) ensures false {
      var g :| g in log && g.key == k && g.event == id;
      var h :| h in log && h.key in ks && h.event == id;
      OneTotal(log, g, h);
    }
  }

  /** All the totals of a live link together are the number of distinct clicks counted for it. */
  lemma TotalIsClicks(t: State, url: nat)
    requires Inv(t) && url in t.space.db.rows
    ensures Sum(TotalCounts(t.space.db.counts, url)) == |ClickEvents(t.log, url)|
  {
    var m := TotalCounts(t.space.db.counts, url);
    assert forall k | k in m :: Count(t.space.db.counts, k) == m[k];
    SumIsUnion(m, t.log);
    forall h | h in t.log && h.key.url == url && h.key.dim.Total? ensures h.key in m {
      assert h.event in Events(t.log, h.key);
    }
    assert EventsAt(t.log, m.Keys) == ClickEvents(t.log, url);
  }
}
