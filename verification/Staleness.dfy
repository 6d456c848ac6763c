/** Resolve, create and delete of internal/service/url.go interleaved call by call over a shared
    table and cache: how old a row Resolve may serve. */
module Staleness {
  import opened Common
  import opened Schema
  import opened Cache
  import Resolver
  import CodeSpace

  /** A Resolve between two of its calls. `readAt` is when the row at hand was read, from cache or table. */
  datatype Phase =
    | Probing(code: string)
    | Checking(code: string, row: Row, readAt: int)
    | Evicting(code: string)
    | Fetching(code: string)
    | Vetting(code: string, row: Row, readAt: int)
    | Sizing(code: string, row: Row, readAt: int, checkedAt: int)
    | Storing(code: string, row: Row, readAt: int, checkedAt: int, sized: int)
    | Served(code: string, row: Row, readAt: int, checkedAt: int)
    | Denied

  /** A row that was deleted, and when. */
  datatype Grave = Grave(row: Row, at: int)

  /** History only: `graves`, when each row came to have its code, and when each cache entry was written. */
  datatype State = State(
    now: int, space: CodeSpace.State, cache: Entries, lookups: map<nat, Phase>,
    graves: map<nat, Grave>, codedAt: map<nat, int>, writtenAt: map<string, int>)

  /** `Act` is the next call of a lookup; `DropEntry` a cache delete on behalf of a delete, or Redis
      losing an entry; a delete whose cache delete fails, comes late or never, is a `Table` step
      with no `DropEntry`, a late one, or none. */
  datatype Label =
    | Begin(r: nat, code: string)
    | Act(r: nat, out: Outcome)
    | Table(op: CodeSpace.Label)
    | DropEntry(code: string)
    | Tick(dt: nat)

  function Go(s: State, r: nat, p: Phase): State {
    s.(lookups := s.lookups[r := p])
  }

  /** What a call does to the lookup that makes it. */
  ghost function Advance(s: State, r: nat, out: Outcome): Option<State>
    requires r in s.lookups
  {
    match s.lookups[r]
    case Probing(code) =>                             // cache.Get
      var hit := Lookup(s.cache, code, s.now);
      Some(Go(s, r, if out == Ok && hit.Some? then Checking(code, hit.value, s.now) else Fetching(code)))
    case Checking(code, row, readAt) =>               // cached.ExpiresAt against time.Now
      Some(Go(s, r, if Resolver.HasExpired(row, s.now) then Evicting(code) else Served(code, row, readAt, s.now)))
    case Evicting(code) =>                            // cache.Delete
      Some(Go(if out == Fail then s else s.(cache := Drop(s.cache, code)), r, Fetching(code)))
    case Fetching(code) =>                            // store.GetByCode
      var row := Find(s.space.db, code);
      Some(Go(s, r, if out != Ok || row.None? then Denied else Vetting(code, row.value, s.now)))
    case Vetting(code, row, readAt) =>                // u.ExpiresAt against time.Now
      Some(Go(s, r, if Resolver.HasExpired(row, s.now) then Denied else Sizing(code, row, readAt, s.now)))
    case Sizing(code, row, readAt, checkedAt) =>      // time.Until in cache.Set
      Some(Go(s, r, Storing(code, row, readAt, checkedAt, s.now)))
    case Storing(code, row, readAt, checkedAt, sized) => // SET
      var s' := if out == Fail || Ttl(row, sized) <= 0 then s
                else s.(cache := Store(s.cache, code, row, sized, s.now), writtenAt := s.writtenAt[code := s.now]);
      Some(Go(s', r, Served(code, row, readAt, checkedAt)))
    case Served(_, _, _, _) => None
    case Denied => None
  }

  /** The row that a table step takes away is buried at the present time. */
  ghost function Bury(s: State, op: CodeSpace.Label, t: CodeSpace.State): map<nat, Grave> {
    if !op.Remove? then s.graves
    else
      var row := Find(s.space.db, op.code);
      if row.None? || row.value.id in t.db.rows then s.graves
      else s.graves[row.value.id := Grave(row.value, s.now)]
  }

  /** The row that a table step gives a code has it from the present time on. */
  ghost function Date(s: State, op: CodeSpace.Label, t: CodeSpace.State): map<nat, int> {
    if !op.InsertCustom? && !op.AssignCode? then s.codedAt
    else
      var id := if op.AssignCode? then op.id else s.space.db.nextId;
      if id !in t.db.rows || t.db.rows[id].code.None? || id in s.codedAt then s.codedAt
      else s.codedAt[id := s.now]
  }

  ghost function Next(s: State, l: Label): Option<State> {
    match l
    case Begin(r, code) => if r in s.lookups then None else Some(Go(s, r, Probing(code)))
    case Act(r, out) => if r in s.lookups then Advance(s, r, out) else None
    case Table(op) =>
      var t := CodeSpace.Next(s.space, op);
      if t.None? then None
      else Some(s.(space := t.value, graves := Bury(s, op, t.value), codedAt := Date(s, op, t.value)))
    case DropEntry(code) => Some(s.(cache := Drop(s.cache, code)))
    case Tick(dt) => Some(s.(now := s.now + dt))
  }

  ghost function Run(s: State, ls: seq<Label>): Option<State>
    decreases |ls|
  {
    if ls == [] then Some(s)
    else
      var t := Next(s, ls[0]);
      if t.None? then None else Run(t.value, ls[1..])
  }

  ghost predicate Initial(s: State) {
    && CodeSpace.Inv(s.space) && s.cache == map[] && s.lookups == map[] && s.graves == map[] && s.writtenAt == map[]
    && Dated(s)
  }

  /** Every row with a code has had it from some past time on. */
  ghost predicate Dated(s: State) {
    && (forall id | id in s.space.db.rows && s.space.db.rows[id].code.Some? :: id in s.codedAt)
    && (forall id | id in s.codedAt :: s.codedAt[id] <= s.now)
  }

  /** At some moment from `since` to `till` the table held exactly `row` under `code`: it has done so from a
      moment no later than `till` on, and does so still or did until a moment no earlier than `since`. */
  ghost predicate Stored(s: State, code: string, row: Row, since: int, till: int) {
    && row.code == Some(code) && row.id < s.space.db.nextId && since <= till <= s.now
    && row.id in s.codedAt && s.codedAt[row.id] <= till
    && if row.id in s.space.db.rows then s.space.db.rows[row.id] == row
       else row.id in s.graves && s.graves[row.id].row == row && s.graves[row.id].at >= since
  }

  /** A bound on the time between a lookup's table read and its cache write. */
  predicate Swift(s: State, d: nat) {
    forall r | r in s.lookups && s.lookups[r].Storing? :: s.now <= s.lookups[r].readAt + d
  }

  ghost predicate SwiftRun(s: State, ls: seq<Label>, d: nat)
    decreases |ls|
  {
    Swift(s, d) && (ls == [] || (Next(s, ls[0]).Some? && SwiftRun(Next(s, ls[0]).value, ls[1..], d)))
  }

  /** The row had not expired when it was checked, which was after it was read. */
  predicate Fit(s: State, row: Row, readAt: int, checkedAt: int) {
    readAt <= checkedAt <= s.now && !Resolver.HasExpired(row, checkedAt)
  }

  ghost predicate PhaseOk(s: State, p: Phase, d: nat) {
    match p
    case Checking(code, row, readAt) => readAt <= s.now && Stored(s, code, row, readAt - CACHE_TTL - d, readAt)
    case Vetting(code, row, readAt) => Stored(s, code, row, readAt, readAt)
    case Sizing(code, row, readAt, checkedAt) => Stored(s, code, row, readAt, readAt) && Fit(s, row, readAt, checkedAt)
    case Storing(code, row, readAt, checkedAt, sized) =>
      Stored(s, code, row, readAt, readAt) && Fit(s, row, readAt, checkedAt)
    case Served(code, row, readAt, checkedAt) =>
      Stored(s, code, row, readAt - CACHE_TTL - d, readAt) && Fit(s, row, readAt, checkedAt)
    case _ => true
  }

  ghost predicate EntryOk(s: State, code: string, d: nat)
    requires code in s.cache
  {
    && code in s.writtenAt && s.writtenAt[code] <= s.now
    && s.cache[code].deadline <= s.writtenAt[code] + CACHE_TTL
    && Stored(s, code, s.cache[code].row, s.writtenAt[code] - d, s.writtenAt[code])
  }

  ghost predicate Inv(s: State, d: nat) {
    && CodeSpace.Inv(s.space) && Dated(s)
    && (forall id | id in s.graves :: id < s.space.db.nextId && id !in s.space.db.rows)
    && (forall code | code in s.cache :: EntryOk(s, code, d))
    && (forall r | r in s.lookups :: PhaseOk(s, s.lookups[r], d))
  }

  /** What was on record stays on record. */
  ghost predicate Keeps(s: State, t: State) {
    && s.now <= t.now && CodeSpace.Inv(t.space) && Dated(t)
    && (forall id | id in t.graves :: id < t.space.db.nextId && id !in t.space.db.rows)
    && (forall code, row, since, till | Stored(s, code, row, since, till) :: Stored(t, code, row, since, till))
  }

  lemma PhaseKeeps(s: State, t: State, p: Phase, d: nat)
    requires Keeps(s, t) && PhaseOk(s, p, d)
    ensures PhaseOk(t, p, d)
  {}

  /** A step that leaves the table alone. */
  lemma Calm(s: State, t: State, d: nat)
    requires Inv(s, d) && t.space == s.space && t.graves == s.graves && t.codedAt == s.codedAt && s.now <= t.now
    ensures Keeps(s, t)
  {
    forall code, row, since, till | Stored(s, code, row, since, till) ensures Stored(t, code, row, since, till) {}
  }

  /** Lookups other than `mover` and entries other than the one just written are as they were. */
  lemma Assemble(s: State, t: State, mover: Option<nat>, d: nat)
    requires Inv(s, d) && Keeps(s, t)
    requires forall r | r in t.lookups && Some(r) != mover :: r in s.lookups && t.lookups[r] == s.lookups[r]
    requires mover.Some? ==> mover.value in t.lookups && PhaseOk(t, t.lookups[mover.value], d)
    requires forall code | code in t.cache ::
      EntryOk(t, code, d) ||
      (code in s.cache && t.cache[code] == s.cache[code] && code in s.writtenAt && code in t.writtenAt
       && t.writtenAt[code] == s.writtenAt[code])
    ensures Inv(t, d)
  {
    forall r | r in t.lookups ensures PhaseOk(t, t.lookups[r], d) {
      if Some(r) != mover { PhaseKeeps(s, t, s.lookups[r], d); }
    }
    forall code | code in t.cache ensures EntryOk(t, code, d) {
      assert code in s.cache ==> EntryOk(s, code, d);
    }
  }

  lemma TableStep(s: State, op: CodeSpace.Label, d: nat)
    requires Inv(s, d) && Next(s, Table(op)).Some?
    ensures Keeps(s, Next(s, Table(op)).value)
  {
    var t := Next(s, Table(op)).value;
    CodeSpace.StepKeepsInv(s.space, op);
    RowLeaves(s.space, op);
    TableDates(s, t, op);
    forall code, row, since, till | Stored(s, code, row, since, till) ensures Stored(t, code, row, since, till) {
      StaysOnRecord(s, t, op, code, row, since, till);
    }
  }

  /** Only a delete takes a row away, and only the one it names. */
  lemma RowLeaves(space: CodeSpace.State, op: CodeSpace.Label)
    requires CodeSpace.Inv(space) && CodeSpace.Next(space, op).Some?
    ensures forall id | id in space.db.rows && id !in CodeSpace.Next(space, op).value.db.rows ::
      op.Remove? && Find(space.db, op.code) == Some(space.db.rows[id])
  {}

  /** Only these two calls give a row a code. */
  lemma CodeComes(space: CodeSpace.State, op: CodeSpace.Label, id: nat)
    requires CodeSpace.Inv(space) && CodeSpace.Next(space, op).Some?
    requires var rows := CodeSpace.Next(space, op).value.db.rows; id in rows && rows[id].code.Some?
    requires id in space.db.rows ==> space.db.rows[id].code.None?
    ensures (op.InsertCustom? && id == space.db.nextId) || (op.AssignCode? && id == op.id)
  {}

  lemma TableDates(s: State, t: State, op: CodeSpace.Label)
    requires CodeSpace.Inv(s.space) && Dated(s) && Next(s, Table(op)) == Some(t)
    ensures Dated(t) && forall id | id in s.codedAt :: id in t.codedAt && t.codedAt[id] == s.codedAt[id]
  {
    forall id | id in t.space.db.rows && t.space.db.rows[id].code.Some? ensures id in t.codedAt {
      if !(id in s.space.db.rows && s.space.db.rows[id].code.Some?) {
        CodeComes(s.space, op, id);
      }
    }
  }

  lemma StaysOnRecord(s: State, t: State, op: CodeSpace.Label, code: string, row: Row, since: int, till: int)
    requires Next(s, Table(op)) == Some(t) && CodeSpace.Settled(s.space, t.space) && Stored(s, code, row, since, till)
    requires forall id | id in s.codedAt :: id in t.codedAt && t.codedAt[id] == s.codedAt[id]
    requires forall id | id in s.space.db.rows && id !in t.space.db.rows ::
      op.Remove? && Find(s.space.db, op.code) == Some(s.space.db.rows[id])
    requires CodeSpace.Inv(s.space)
    ensures Stored(t, code, row, since, till)
  {}

  lemma FetchStep(s: State, r: nat, out: Outcome, d: nat)
    requires Inv(s, d) && r in s.lookups && s.lookups[r].Fetching?
    ensures Inv(Advance(s, r, out).value, d)
  {
    Moved(s, Advance(s, r, out).value, r, d);
  }

  /** A call of lookup r that writes no entry. */
  lemma Moved(s: State, t: State, r: nat, d: nat)
    requires Inv(s, d) && r in t.lookups && t.lookups == s.lookups[r := t.lookups[r]]
    requires t == s.(lookups := t.lookups, cache := t.cache) && t.cache.Keys <= s.cache.Keys
    requires forall code | code in t.cache :: t.cache[code] == s.cache[code]
    requires PhaseOk(t, t.lookups[r], d)
    ensures Inv(t, d)
  {
    Calm(s, t, d);
    Assemble(s, t, Some(r), d);
  }

  lemma ProbeStep(s: State, r: nat, out: Outcome, d: nat)
    requires Inv(s, d) && r in s.lookups && s.lookups[r].Probing?
    ensures Inv(Advance(s, r, out).value, d)
  {
    var code := s.lookups[r].code;
    if IsLive(s.cache, code, s.now) {
      assert EntryOk(s, code, d);
    }
    Moved(s, Advance(s, r, out).value, r, d);
  }

  /** What the SET leaves behind: the row just read, under its code, for at most a minute. */
  lemma EntryWritten(s: State, t: State, r: nat, d: nat)
    requires Inv(s, d) && Swift(s, d) && r in s.lookups && s.lookups[r].Storing?
    requires var p := s.lookups[r];
      t == s.(cache := Store(s.cache, p.code, p.row, p.sized, s.now),
              writtenAt := s.writtenAt[p.code := s.now], lookups := t.lookups)
    requires s.lookups[r].code in t.cache && Ttl(s.lookups[r].row, s.lookups[r].sized) > 0
    ensures EntryOk(t, s.lookups[r].code, d)
  {
    assert PhaseOk(s, s.lookups[r], d);
  }

  lemma StoreStep(s: State, r: nat, out: Outcome, d: nat)
    requires Inv(s, d) && Swift(s, d) && r in s.lookups && s.lookups[r].Storing?
    ensures Inv(Advance(s, r, out).value, d)
  {
    var t, p := Advance(s, r, out).value, s.lookups[r];
    assert PhaseOk(s, p, d);
    Calm(s, t, d);
    if out != Fail && Ttl(p.row, p.sized) > 0 {
      WriteKeepsInv(s, t, r, d);
    } else {
      Moved(s, t, r, d);
    }
  }

  lemma WriteKeepsInv(s: State, t: State, r: nat, d: nat)
    requires Inv(s, d) && Swift(s, d) && r in s.lookups && s.lookups[r].Storing?
    requires Ttl(s.lookups[r].row, s.lookups[r].sized) > 0
    requires var p := s.lookups[r];
      t == s.(cache := Store(s.cache, p.code, p.row, p.sized, s.now), lookups := t.lookups,
              writtenAt := s.writtenAt[p.code := s.now])
    requires r in t.lookups && t.lookups == s.lookups[r := t.lookups[r]] && PhaseOk(t, t.lookups[r], d) && Keeps(s, t)
    ensures Inv(t, d)
  {
    EntryWritten(s, t, r, d);
    Assemble(s, t, Some(r), d);
  }

  lemma LocalStep(s: State, r: nat, out: Outcome, d: nat)
    requires Inv(s, d) && r in s.lookups && Advance(s, r, out).Some?
    requires var p := s.lookups[r]; p.Checking? || p.Evicting? || p.Vetting? || p.Sizing?
    ensures Inv(Advance(s, r, out).value, d)
  {
    assert PhaseOk(s, s.lookups[r], d);
    Moved(s, Advance(s, r, out).value, r, d);
  }

  lemma ActStep(s: State, r: nat, out: Outcome, d: nat)
    requires Inv(s, d) && Swift(s, d) && Next(s, Act(r, out)).Some?
    ensures Inv(Next(s, Act(r, out)).value, d)
  {
    if s.lookups[r].Fetching? { FetchStep(s, r, out, d); }
    else if s.lookups[r].Probing? { ProbeStep(s, r, out, d); }
    else if s.lookups[r].Storing? { StoreStep(s, r, out, d); }
    else { LocalStep(s, r, out, d); }
  }

  /** A step of the environment that leaves the table alone, or the start of lookup r. */
  lemma CalmStep(s: State, l: Label, d: nat)
    requires Inv(s, d) && Next(s, l).Some? && !l.Act? && !l.Table?
    ensures Inv(Next(s, l).value, d)
  {
    Calm(s, Next(s, l).value, d);
    Assemble(s, Next(s, l).value, if l.Begin? then Some(l.r) else None, d);
  }

  lemma StepKeepsInv(s: State, l: Label, d: nat)
    requires Inv(s, d) && Swift(s, d) && Next(s, l).Some?
    ensures Inv(Next(s, l).value, d)
  {
    match l
    case Table(op) =>
      TableStep(s, op, d);
      Assemble(s, Next(s, l).value, None, d);
    case Act(r, out) => ActStep(s, r, out, d);
    case Begin(r, code) => CalmStep(s, l, d);
    case DropEntry(code) => CalmStep(s, l, d);
    case Tick(dt) => CalmStep(s, l, d);
  }

  lemma {:induction false} SwiftRunKeepsInv(s: State, ls: seq<Label>, d: nat)
    requires Inv(s, d) && SwiftRun(s, ls, d)
    ensures Run(s, ls).Some? && Inv(Run(s, ls).value, d)
    decreases |ls|
  {
    if ls != [] {
      StepKeepsInv(s, ls[0], d);
      SwiftRunKeepsInv(Next(s, ls[0]).value, ls[1..], d);
    }
  }

  /** Over every interleaving, with any call failing and any cache delete late or missing: a row Resolve
      served after reading it at time t was stored under its code at some moment from t - 60 s - d to t,
      and had not expired when Resolve checked. */
  lemma BoundedStaleness(s: State, ls: seq<Label>, d: nat, r: nat)
    requires Initial(s) && SwiftRun(s, ls, d)
    ensures Run(s, ls).Some?
    ensures var t := Run(s, ls).value;
      r in t.lookups && t.lookups[r].Served? ==>
        var Served(code, row, readAt, checkedAt) := t.lookups[r];
        && Stored(t, code, row, readAt - 60 * SECOND - d, readAt)
        && readAt <= checkedAt && (row.expiresAt.Some? ==> checkedAt < row.expiresAt.value)
  {
    SwiftRunKeepsInv(s, ls, d);
  }

  // ------------------------------------------------- Resolve as a run

  lemma Front(s: State, l: Label, rest: seq<Label>)
    requires Next(s, l).Some?
    ensures Run(s, [l] + rest) == Run(Next(s, l).value, rest)
  {
    assert ([l] + rest)[1..] == rest;
  }

  /** Lookup r has ended with this answer. */
  ghost predicate Answered(s: State, r: nat, code: string, answer: Resolver.Answer) {
    && r in s.lookups
    && if answer.Found? then s.lookups[r].Served? && s.lookups[r].code == code && s.lookups[r].row == answer.row
       else s.lookups[r].Denied?
  }

  /** The cache write, of a row that has not expired. */
  lemma StoreIsRun(s: State, r: nat, code: string, row: Row, write: Outcome) returns (ls: seq<Label>, t: State)
    requires r in s.lookups && s.lookups[r] == Sizing(code, row, s.now, s.now)
    ensures Run(s, ls) == Some(t) && Answered(t, r, code, Resolver.Found(row))
    ensures t == s.(lookups := s.lookups[r := t.lookups[r]], writtenAt := t.writtenAt,
                    cache := if write == Fail then s.cache else Store(s.cache, code, row, s.now, s.now))
  {
    var c := Next(s, Act(r, Ok)).value;
    t := Next(c, Act(r, write)).value;
    Front(c, Act(r, write), []);
    Front(s, Act(r, Ok), [Act(r, write)]);
    ls := [Act(r, Ok)] + [Act(r, write)];
  }

  /** The table read and the cache write. */
  lemma FetchIsRun(s: State, r: nat, code: string, store: Outcome, write: Outcome) returns (ls: seq<Label>, t: State)
    requires r in s.lookups && s.lookups[r] == Fetching(code)
    ensures Run(s, ls) == Some(t)
    ensures
      var answer := if store == Ok then Resolver.ResolveBare(s.space.db, code, s.now) else Resolver.Unavailable;
      && Answered(t, r, code, answer)
      && t == s.(lookups := s.lookups[r := t.lookups[r]], writtenAt := t.writtenAt, cache :=
           if answer.Found? && write != Fail then Store(s.cache, code, answer.row, s.now, s.now) else s.cache)
  {
    var a := Next(s, Act(r, store)).value;
    t, ls := a, [];
    if a.lookups[r].Vetting? {
      var b := Next(a, Act(r, Ok)).value;
      t := b;
      if b.lookups[r].Sizing? {
        ls, t := StoreIsRun(b, r, code, b.lookups[r].row, write);
      }
      Front(a, Act(r, Ok), ls);
      ls := [Act(r, Ok)] + ls;
    }
    Front(s, Act(r, store), ls);
    ls := [Act(r, store)] + ls;
  }

  /** The cache read and, for an expired row, the cache delete. */
  lemma ProbeIsRun(s: State, r: nat, code: string, read: Outcome, evict: Outcome) returns (ls: seq<Label>, t: State)
    requires r in s.lookups && s.lookups[r] == Probing(code)
    ensures Run(s, ls) == Some(t) && r in t.lookups
    ensures
      var hit := if read == Ok then Lookup(s.cache, code, s.now) else None;
      var usable := hit.Some? && !Resolver.HasExpired(hit.value, s.now);
      && t == s.(lookups := s.lookups[r := t.lookups[r]],
                 cache := if hit.Some? && !usable && evict != Fail then Drop(s.cache, code) else s.cache)
      && if usable then Answered(t, r, code, Resolver.Found(hit.value)) else t.lookups[r] == Fetching(code)
  {
    var b := Next(s, Act(r, read)).value;
    t, ls := b, [];
    if b.lookups[r].Checking? {
      var c := Next(b, Act(r, Ok)).value;
      t := c;
      if c.lookups[r].Evicting? {
        t := Next(c, Act(r, evict)).value;
        Front(c, Act(r, evict), []);
        ls := [Act(r, evict)] + [];
      }
      Front(b, Act(r, Ok), ls);
      ls := [Act(r, Ok)] + ls;
    }
    Front(s, Act(r, read), ls);
    ls := [Act(r, read)] + ls;
  }

  lemma {:induction false} RunJoin(s: State, a: seq<Label>, b: seq<Label>)
    requires Run(s, a).Some?
    ensures Run(s, a + b) == Run(Run(s, a).value, b)
    decreases |a|
  {
    if a == [] {
      assert a + b == b;
    } else {
      RunJoin(Next(s, a[0]).value, a[1..], b);
      assert (a + b)[1..] == a[1..] + b;
    }
  }

  /** A Resolve that nothing interrupts is a run of the machine: `ResolveWith` says what it leaves in the cache
      and what it answers. */
  lemma ResolveIsRun(s: State, r: nat, code: string, calls: Resolver.CacheCalls, store: Outcome)
    returns (ls: seq<Label>, t: State)
    requires r !in s.lookups
    ensures Run(s, ls) == Some(t) && r in t.lookups
    ensures
      var (es, answer) := Resolver.ResolveWith(s.cache, s.space.db, code, s.now, calls, store);
      && t == s.(cache := es, lookups := s.lookups[r := t.lookups[r]], writtenAt := t.writtenAt)
      && Answered(t, r, code, answer)
  {
    var a := Next(s, Begin(r, code)).value;
    var probe, b := ProbeIsRun(a, r, code, calls.read, calls.evict);
    Front(s, Begin(r, code), probe);
    ls, t := [Begin(r, code)] + probe, b;
    if b.lookups[r].Fetching? {
      var fetch, c := FetchIsRun(b, r, code, store, calls.write);
      RunJoin(s, ls, fetch);
      ls, t := ls + fetch, c;
    }
  }

  // ------------------------------------------------- the bound is met

  const START := State(0, CodeSpace.INIT, map[], map[], map[], map[], map[])
  const LINK := Row(1, Some("abc"), "u", None, 0)

  ghost predicate Reached(s: State, d: nat) {
    Swift(s, d) && exists ls :: SwiftRun(START, ls, d) && Run(START, ls) == Some(s)
  }

  lemma {:induction false} RunThenStep(s: State, ls: seq<Label>, l: Label, d: nat)
    requires SwiftRun(s, ls, d) && Run(s, ls).Some? && Next(Run(s, ls).value, l).Some?
    requires Swift(Next(Run(s, ls).value, l).value, d)
    ensures SwiftRun(s, ls + [l], d) && Run(s, ls + [l]) == Next(Run(s, ls).value, l)
    decreases |ls|
  {
    if ls == [] {
      assert [l][1..] == [];
    } else {
      RunThenStep(Next(s, ls[0]).value, ls[1..], l, d);
      assert (ls + [l])[1..] == ls[1..] + [l];
    }
  }

  lemma Then(s: State, l: Label, d: nat) returns (t: State)
    requires Reached(s, d) && Next(s, l).Some? && Swift(Next(s, l).value, d)
    ensures Next(s, l) == Some(t) && Reached(t, d)
  {
    var ls :| SwiftRun(START, ls, d) && Run(START, ls) == Some(s);
    RunThenStep(START, ls, l, d);
    t := Next(s, l).value;
  }

  lemma LinkMade(d: nat) returns (s: State)
    ensures Reached(s, d)
    ensures s == START.(space := CodeSpace.State(Db(map[1 := LINK], 2, map[], {}), {}, {}, {1}), codedAt := map[1 := 0])
  {
    assert CodeSpace.ValidCustom("abc") by { assert CodeSpace.Lower("abc")[1] == 'b'; }
    assert SwiftRun(START, [], d) && Run(START, []) == Some(START);
    s := Then(START, Table(CodeSpace.InsertCustom("abc", "u", None, 0, Ok)), d);
  }

  lemma LinkRead(d: nat) returns (s: State)
    ensures Reached(s, d) && s.now == 0 && s.lookups == map[1 := Vetting("abc", LINK, 0)]
    ensures s.graves == map[] && s.cache == map[]
    ensures s.space == CodeSpace.State(Db(map[1 := LINK], 2, map[], {}), {}, {}, {1})
  {
    s := LinkMade(d);
    FindIs(s.space.db, 1, "abc");
    s := Then(s, Begin(1, "abc"), d);
    s := Then(s, Act(1, Ok), d);
    s := Then(s, Act(1, Ok), d);
  }

  /** A lookup has read the link, which is then deleted at time 0. */
  lemma ReadThenDeleted(d: nat) returns (s: State)
    ensures Reached(s, d) && s.now == 0 && s.lookups == map[1 := Vetting("abc", LINK, 0)]
    ensures s.graves == map[1 := Grave(LINK, 0)] && s.cache == map[]
  {
    s := LinkRead(d);
    FindIs(s.space.db, 1, "abc");
    s := Then(s, Table(CodeSpace.Remove("abc", Ok)), d);
  }

  /** The lookup is about to write its row to the cache, as late as allowed. */
  lemma HeldBack(d: nat) returns (s: State)
    ensures Reached(s, d) && s.now == d && s.lookups == map[1 := Storing("abc", LINK, 0, 0, d)]
    ensures s.graves == map[1 := Grave(LINK, 0)] && s.cache == map[]
  {
    s := ReadThenDeleted(d);
    s := Then(s, Act(1, Ok), d);
    s := Then(s, Tick(d), d);
    s := Then(s, Act(1, Ok), d);
  }

  /** It does so, and serves the row. */
  lemma CachedLate(d: nat) returns (s: State)
    ensures Reached(s, d) && s.now == d && s.lookups == map[1 := Served("abc", LINK, 0, 0)]
    ensures s.graves == map[1 := Grave(LINK, 0)] && s.cache == map["abc" := Entry(LINK, d + CACHE_TTL)]
  {
    s := HeldBack(d);
    s := Then(s, Act(1, Ok), d);
  }

  /** For every d some run serves a row at a time t although it had been gone since t - 60 s - d + 1:
      the bound cannot be tightened by a single tick. */
  lemma StalenessBoundIsTight(d: nat)
    ensures exists ls :: (
      SwiftRun(START, ls, d) && Run(START, ls).Some? &&
      var t := Run(START, ls).value;
      && 2 in t.lookups && t.lookups[2].Served? && t.lookups[2].row.id in t.graves
      && t.graves[t.lookups[2].row.id].at == t.lookups[2].readAt - CACHE_TTL - d + 1)
  {
    var s := CachedLate(d);
    s := Then(s, Tick(CACHE_TTL - 1), d);
    s := Then(s, Begin(2, "abc"), d);
    s := Then(s, Act(2, Ok), d);
    s := Then(s, Act(2, Ok), d);
    var ls :| SwiftRun(START, ls, d) && Run(START, ls) == Some(s);
  }
}
