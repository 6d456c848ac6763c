/** internal/repository/migrate.go: any number of instances calling Apply at once, interleaved
    call by call under one PostgreSQL advisory lock, with failing calls and lost sessions. */
module Migrate {
  import opened Common
  import opened Versioning

  // ------------------------------------------------------- what should run

  predicate AllParse(files: seq<File>) {
    forall k | 0 <= k < |files| :: files[k].version.Some?
  }

  ghost function Versions(files: seq<File>): set<int> {
    set k | 0 <= k < |files| && files[k].version.Some? :: files[k].version.value
  }

  /** The list without the files that repeat a version, up to the first whose name does not parse. */
  ghost function Plan(files: seq<File>): seq<File> {
    if files == [] then []
    else
      var n := |files| - 1;
      var earlier := Plan(files[..n]);
      if !AllParse(files) || files[n].version.value in Versions(earlier) then earlier
      else earlier + [files[n]]
  }

  ghost predicate Distinct(files: seq<File>) {
    forall i, j | 0 <= i < j < |files| :: files[i].version != files[j].version
  }

  lemma VersionsNext(files: seq<File>, file: File)
    ensures Versions(files + [file]) ==
            Versions(files) + if file.version.Some? then {file.version.value} else {}
  {
    var all := files + [file];
    forall v ensures v in Versions(all) <==> v in Versions(files) || file.version == Some(v) {
      if v in Versions(files) {
        var k :| 0 <= k < |files| && files[k].version == Some(v);
        assert all[k] == files[k];
      }
      if file.version == Some(v) {
        assert all[|files|] == file;
      }
    }
  }

  lemma VersionAmong(files: seq<File>, i: nat, j: nat)
    requires i < j <= |files| && AllParse(files[..j])
    ensures files[i].version.Some? && files[i].version.value in Versions(files[..j])
  {
    assert files[..j][i] == files[i];
  }

  /** Dropping repeats loses no version. */
  lemma {:induction false} PlanVersions(files: seq<File>)
    requires AllParse(files)
    ensures Versions(Plan(files)) == Versions(files)
    decreases |files|
  {
    if files != [] {
      var n := |files| - 1;
      assert files == files[..n] + [files[n]];
      PlanVersions(files[..n]);
      VersionsNext(files[..n], files[n]);
      VersionsNext(Plan(files[..n]), files[n]);
    }
  }

  lemma {:induction false} PlanDistinct(files: seq<File>)
    ensures AllParse(Plan(files)) && Distinct(Plan(files))
    decreases |files|
  {
    if files != [] {
      PlanDistinct(files[..|files| - 1]);
    }
  }

  lemma {:induction false} PlanGrows(files: seq<File>, i: nat)
    requires i <= |files|
    ensures Plan(files[..i]) <= Plan(files)
    decreases |files|
  {
    if i == |files| {
      assert files[..i] == files;
    } else {
      var n := |files| - 1;
      PlanGrows(files[..n], i);
      assert files[..n][..i] == files[..i];
    }
  }

  /** Files that bring no new version add nothing. */
  lemma {:induction false} PlanStays(files: seq<File>, j: nat)
    requires j <= |files| && AllParse(files)
    requires forall k | j <= k < |files| :: files[k].version.value in Versions(Plan(files[..j]))
    ensures Plan(files) == Plan(files[..j])
    decreases |files|
  {
    if j == |files| {
      assert files[..j] == files;
    } else {
      var n := |files| - 1;
      assert files[..n][..j] == files[..j];
      PlanStays(files[..n], j);
    }
  }

  /** Nor do files that follow one whose name does not parse. */
  lemma {:induction false} PlanStops(files: seq<File>, j: nat)
    requires j < |files| && files[j].version.None?
    ensures Plan(files) == Plan(files[..j])
    decreases |files|
  {
    var n := |files| - 1;
    if j < n {
      assert files[..n][..j] == files[..j];
      PlanStops(files[..n], j);
    }
  }

  // ------------------------------------------------------------ the machine

  /** Where one Apply is: the call it makes next. */
  datatype Phase =
    | AtLock
    | AtTable
    | AtFile(i: nat)
    | AtRead(i: nat, version: int)
    | AtBegin(i: nat, version: int)
    | AtBody(i: nat, version: int)
    | AtInsert(i: nat, version: int)
    | AtCommit(i: nat, version: int)
    | AtUnlock(ok: bool)
    | Returned(ok: bool)

  /** An advisory lock belongs to a session, which may take it again and must then give it back as often. */
  datatype Lock = Lock(owner: nat, depth: nat)

  /** The embedded files in the order they are visited, the sessions, the lock, the table of versions
      and, as history, the names of the files whose SQL has been committed, in order. */
  datatype State = State(
    files: seq<File>, sessions: map<nat, Phase>, lock: Option<Lock>,
    table: bool, recorded: set<int>, log: seq<File>)

  /** Apply starts on session p; p makes its next call; the session of p ends, by a crash or in the pool. */
  datatype Label = Start(p: nat) | Act(p: nat, out: Outcome) | Close(p: nat)

  function Taken(lock: Option<Lock>, p: nat): Option<Lock> {
    Some(Lock(p, if lock.Some? then lock.value.depth + 1 else 1))
  }

  function GivenBack(lock: Option<Lock>, p: nat): Option<Lock> {
    if lock.None? || lock.value.owner != p then lock
    else if lock.value.depth <= 1 then None
    else Some(Lock(p, lock.value.depth - 1))
  }

  predicate Available(lock: Option<Lock>, p: nat) {
    lock.None? || lock.value.owner == p
  }

  lemma GivenBackAsTaken(lock: Option<Lock>, p: nat)
    requires Available(lock, p) && (lock.Some? ==> lock.value.depth >= 1)
    ensures GivenBack(Taken(lock, p), p) == lock
  {}

  function Go(s: State, p: nat, phase: Phase): State {
    s.(sessions := s.sessions[p := phase])
  }

  /** A call inside the transaction or before it: on to the next, or out. */
  function Then(s: State, p: nat, ok: bool, phase: Phase): State {
    Go(s, p, if ok then phase else AtUnlock(false))
  }

  function Advance(s: State, p: nat, out: Outcome): Option<State>
    requires p in s.sessions
  {
    match s.sessions[p]
    case AtLock =>                                    // pg_advisory_lock, which waits
      if out == Fail then Some(Go(s, p, Returned(false)))
      else if !Available(s.lock, p) then None
      else Some(Go(s.(lock := Taken(s.lock, p)), p, if out == Ok then AtTable else Returned(false)))
    case AtTable =>                                   // CREATE TABLE IF NOT EXISTS
      Some(Then(if out == Fail then s else s.(table := true), p, out == Ok, AtFile(0)))
    case AtFile(i) =>                                 // migrationVersion and SELECT EXISTS
      if i >= |s.files| then Some(Go(s, p, AtUnlock(true)))
      else
        var v := s.files[i].version;
        Some(if v.None? || !s.table || out != Ok then Go(s, p, AtUnlock(false))
             else if v.value in s.recorded then Go(s, p, AtFile(i + 1))
             else Go(s, p, AtRead(i, v.value)))
    case AtRead(i, v) => Some(Then(s, p, out == Ok, AtBegin(i, v)))
    case AtBegin(i, v) => Some(Then(s, p, out == Ok, AtBody(i, v)))
    case AtBody(i, v) => Some(Then(s, p, out == Ok, AtInsert(i, v)))
    case AtInsert(i, v) => Some(Then(s, p, out == Ok && v !in s.recorded, AtCommit(i, v)))
    case AtCommit(i, v) =>                            // the SQL and its version, or neither
      if i >= |s.files| then None
      else
        var t := if out == Fail then s else s.(recorded := s.recorded + {v}, log := s.log + [s.files[i]]);
        Some(Then(t, p, out == Ok, AtFile(i + 1)))
    case AtUnlock(ok) =>                              // its error is ignored
      Some(Go(if out == Fail then s else s.(lock := GivenBack(s.lock, p)), p, Returned(ok)))
    case Returned(_) => None
  }

  function Next(s: State, l: Label): Option<State> {
    match l
    case Start(p) =>
      if p in s.sessions && !s.sessions[p].Returned? then None else Some(Go(s, p, AtLock))
    case Act(p, out) =>
      if p in s.sessions then Advance(s, p, out) else None
    case Close(p) =>
      Some(s.(sessions := s.sessions - {p}, lock := if Available(s.lock, p) then None else s.lock))
  }

  function Run(s: State, ls: seq<Label>): Option<State>
    decreases |ls|
  {
    if ls == [] then Some(s)
    else
      var t := Next(s, ls[0]);
      if t.None? then None else Run(t.value, ls[1..])
  }

  /** An empty schema. */
  predicate Initial(s: State) {
    s.sessions == map[] && s.lock == None && !s.table && s.recorded == {} && s.log == []
  }

  // ------------------------------------------------------------- invariants

  /** Between the grant of the lock and the unlock. */
  predicate Inside(phase: Phase) {
    !phase.AtLock? && !phase.Returned?
  }

  predicate InTransaction(phase: Phase) {
    phase.AtRead? || phase.AtBegin? || phase.AtBody? || phase.AtInsert? || phase.AtCommit?
  }

  /** The first i files have run, or others of their versions have. */
  predicate Covered(s: State, i: nat) {
    i <= |s.files| && forall k | 0 <= k < i :: s.files[k].version.Some? && s.files[k].version.value in s.recorded
  }

  predicate Fits(s: State, phase: Phase) {
    && (phase.AtFile? ==> Covered(s, phase.i) && s.table)
    && (InTransaction(phase) ==>
          && Covered(s, phase.i) && s.table && phase.i < |s.files|
          && s.files[phase.i].version == Some(phase.version) && phase.version !in s.recorded)
    && (phase.AtUnlock? || phase.Returned? ==> (phase.ok ==> Covered(s, |s.files|)))
  }

  predicate Owns(s: State, p: nat) {
    s.lock.Some? && s.lock.value.owner == p
  }

  ghost predicate Reached(s: State, j: nat) {
    j <= |s.files| && AllParse(s.files[..j]) && s.log == Plan(s.files[..j])
  }

  ghost predicate Inv(s: State) {
    && (forall p | p in s.sessions :: Inside(s.sessions[p]) ==> Owns(s, p))
    && (forall p | p in s.sessions :: Fits(s, s.sessions[p]))
    && s.recorded == Versions(s.log)
    && (exists j: nat :: Reached(s, j))
  }

  lemma InitialInv(s: State)
    requires Initial(s)
    ensures Inv(s)
  {
    assert Reached(s, 0);
  }

  /** Where the visited files are all covered and the next has not run, the log is exactly what
      the plan asks of the visited ones. */
  lemma CoveredIsPlan(s: State, i: nat)
    requires Inv(s) && Covered(s, i)
    requires i < |s.files| ==> s.files[i].version.None? || s.files[i].version.value !in s.recorded
    ensures s.log == Plan(s.files[..i])
  {
    var j: nat :| Reached(s, j);
    var run, visited := s.files[..j], s.files[..i];
    if i < j {
      VersionAmong(s.files, i, j);
    }
    PlanVersions(run);
    assert visited[..j] == run;
    PlanStays(visited, j);
  }

  /** A commit extends the log by the very file the plan has next. */
  lemma CommitExtendsPlan(s: State, i: nat)
    requires Inv(s) && Covered(s, i) && i < |s.files|
    requires s.files[i].version.Some? && s.files[i].version.value !in s.recorded
    ensures AllParse(s.files[..i + 1]) && s.log + [s.files[i]] == Plan(s.files[..i + 1])
    ensures Versions(s.log + [s.files[i]]) == s.recorded + {s.files[i].version.value}
  {
    CoveredIsPlan(s, i);
    VersionsNext(s.log, s.files[i]);
    assert s.files[..i + 1][..i] == s.files[..i];
  }

  /** What a call of session p may change. */
  ghost predicate ActShape(s: State, t: State, p: nat)
    requires p in s.sessions
  {
    && t == s.(sessions := t.sessions, lock := t.lock, table := t.table, recorded := t.recorded, log := t.log)
    && p in t.sessions && t.sessions == s.sessions[p := t.sessions[p]]
    && (t.lock == s.lock || (Available(s.lock, p) && Available(t.lock, p)))
    && (s.table ==> t.table) && s.recorded <= t.recorded
    && ((t.recorded == s.recorded && t.log == s.log) ||
        (Inside(s.sessions[p]) && t.recorded == Versions(t.log) && exists j: nat :: Reached(t, j)))
    && (Inside(t.sessions[p]) ==> Owns(t, p)) && Fits(t, t.sessions[p])
  }

  lemma CommitHasShape(s: State, p: nat, out: Outcome)
    requires Inv(s) && p in s.sessions && s.sessions[p].AtCommit? && Next(s, Act(p, out)).Some?
    ensures ActShape(s, Next(s, Act(p, out)).value, p)
  {
    var t, i := Next(s, Act(p, out)).value, s.sessions[p].i;
    assert Fits(s, s.sessions[p]) && Owns(s, p);
    CommitExtendsPlan(s, i);
    if out != Fail {
      assert Reached(t, i + 1);
    } else {
      assert t == Go(s, p, AtUnlock(false));
    }
  }

  lemma LockHasShape(s: State, p: nat, out: Outcome)
    requires Inv(s) && p in s.sessions && !InTransaction(s.sessions[p]) && !s.sessions[p].AtFile?
    requires Next(s, Act(p, out)).Some?
    ensures ActShape(s, Next(s, Act(p, out)).value, p)
  {
    assert Fits(s, s.sessions[p]);
  }

  lemma CheckHasShape(s: State, p: nat, out: Outcome)
    requires Inv(s) && p in s.sessions && s.sessions[p].AtFile? && Next(s, Act(p, out)).Some?
    ensures ActShape(s, Next(s, Act(p, out)).value, p)
  {
    assert Fits(s, s.sessions[p]) && Owns(s, p);
  }

  lemma TransactionHasShape(s: State, p: nat, out: Outcome)
    requires Inv(s) && p in s.sessions && InTransaction(s.sessions[p]) && Next(s, Act(p, out)).Some?
    ensures ActShape(s, Next(s, Act(p, out)).value, p)
  {
    assert Fits(s, s.sessions[p]);
    if s.sessions[p].AtCommit? {
      CommitHasShape(s, p, out);
    }
  }

  /** Only the lock's owner is inside, so nobody else is about to run the version just recorded. */
  lemma ShapeKeepsInv(s: State, t: State, p: nat)
    requires Inv(s) && p in s.sessions && ActShape(s, t, p)
    ensures Inv(t)
  {
    forall q | q in t.sessions && q != p
      ensures Fits(t, t.sessions[q]) && (Inside(t.sessions[q]) ==> Owns(t, q))
    {
      assert Fits(s, s.sessions[q]);
      assert Inside(s.sessions[q]) ==> Owns(s, q);
    }
    var j: nat :| Reached(s, j);
    assert t.log == s.log ==> Reached(t, j);
  }

  lemma SessionStep(s: State, t: State, l: Label)
    requires Inv(s) && !l.Act? && Next(s, l) == Some(t)
    ensures Inv(t)
  {
    var j: nat :| Reached(s, j);
    assert Reached(t, j);
    forall q | q in t.sessions ensures Fits(t, t.sessions[q]) && (Inside(t.sessions[q]) ==> Owns(t, q)) {
      assert q in s.sessions && t.sessions[q] == s.sessions[q] ==> Fits(s, t.sessions[q]);
    }
  }

  lemma StepKeepsInv(s: State, l: Label)
    requires Inv(s) && Next(s, l).Some?
    ensures Inv(Next(s, l).value)
    ensures Next(s, l).value.files == s.files && s.recorded <= Next(s, l).value.recorded
  {
    if l.Act? {
      if InTransaction(s.sessions[l.p]) {
        TransactionHasShape(s, l.p, l.out);
      } else if s.sessions[l.p].AtFile? {
        CheckHasShape(s, l.p, l.out);
      } else {
        LockHasShape(s, l.p, l.out);
      }
      ShapeKeepsInv(s, Next(s, l).value, l.p);
    } else {
      SessionStep(s, Next(s, l).value, l);
    }
  }

  lemma {:induction false} RunKeepsInv(s: State, ls: seq<Label>)
    requires Inv(s) && Run(s, ls).Some?
    ensures Inv(Run(s, ls).value)
    ensures Run(s, ls).value.files == s.files && s.recorded <= Run(s, ls).value.recorded
    decreases |ls|
  {
    if ls != [] {
      StepKeepsInv(s, ls[0]);
      RunKeepsInv(Next(s, ls[0]).value, ls[1..]);
    }
  }

  /** The lock belongs to a session that has not ended. */
  predicate NoOrphanLock(s: State) {
    s.lock.Some? ==> s.lock.value.owner in s.sessions
  }

  lemma {:induction false} RunOrphansNoLock(s: State, ls: seq<Label>)
    requires NoOrphanLock(s) && Run(s, ls).Some?
    ensures NoOrphanLock(Run(s, ls).value)
    decreases |ls|
  {
    if ls != [] {
      RunOrphansNoLock(Next(s, ls[0]).value, ls[1..]);
    }
  }

  // ----------------------------------------------------------- main results

  /** However an instance ends, the next one is let in: in every run, once all sessions have ended, or none but its own,
      idle, is left, an Apply starts and gets the lock. */
  lemma LockComesFree(s: State, ls: seq<Label>, p: nat)
    requires Initial(s) && Run(s, ls).Some? && Run(s, ls).value.sessions.Keys <= {p}
    requires p in Run(s, ls).value.sessions ==> Run(s, ls).value.sessions[p].Returned?
    ensures var t := Next(Run(s, ls).value, Start(p));
      t.Some? && var u := Next(t.value, Act(p, Ok)); u.Some? && u.value.sessions[p] == AtTable && Owns(u.value, p)
  {
    RunOrphansNoLock(s, ls);
  }

  /** In every run from an empty schema, whatever fails: at most one Apply is between lock and unlock;
      the committed SQL and the recorded versions agree; no version runs twice; and what has run is
      a prefix of the list with repeated versions dropped. */
  lemma MigrationsAreSafe(s: State, ls: seq<Label>)
    requires Initial(s) && Run(s, ls).Some?
    ensures var t := Run(s, ls).value;
      && (forall p, q | p in t.sessions && q in t.sessions && Inside(t.sessions[p]) && Inside(t.sessions[q]) :: p == q)
      && t.recorded == Versions(t.log)
      && AllParse(t.log) && Distinct(t.log)
      && t.log <= Plan(s.files)
  {
    InitialInv(s);
    RunKeepsInv(s, ls);
    var t := Run(s, ls).value;
    var j: nat :| Reached(t, j);
    PlanDistinct(t.files[..j]);
    LogWithinPlan(t);
    forall p, q | p in t.sessions && q in t.sessions && Inside(t.sessions[p]) && Inside(t.sessions[q]) ensures p == q {
      assert Owns(t, p) && Owns(t, q);
    }
  }

  /** A nil return means that every name parses and the whole list has run, and that every later run,
      with whatever failures, leaves it at that. */
  lemma NilReturnIsFinal(s: State, ls: seq<Label>, p: nat, later: seq<Label>)
    requires Initial(s) && Run(s, ls).Some?
    requires var t := Run(s, ls).value; p in t.sessions && t.sessions[p] == Returned(true) && Run(t, later).Some?
    ensures AllParse(s.files)
    ensures var t := Run(s, ls).value; var u := Run(t, later).value;
      t.log == u.log == Plan(s.files) && t.recorded == u.recorded == Versions(s.files)
  {
    InitialInv(s);
    RunKeepsInv(s, ls);
    var t := Run(s, ls).value;
    var u := Run(t, later).value;
    RunKeepsInv(t, later);
    assert Fits(t, t.sessions[p]);
    CoveredIsPlan(t, |s.files|);
    CoveredIsPlan(u, |s.files|);
    assert s.files[..|s.files|] == s.files;
    PlanVersions(s.files);
  }

  /** Every planned file comes from the list, in the list's order. */
  lemma {:induction false} PlanFollowsList(files: seq<File>, at: nat) returns (k: nat)
    requires at < |Plan(files)|
    ensures k < |files| && Plan(files)[at] == files[k] && at < |Plan(files[..k + 1])|
    ensures at == |Plan(files[..k])|
    decreases |files|
  {
    var n := |files| - 1;
    if at < |Plan(files[..n])| {
      k := PlanFollowsList(files[..n], at);
      assert files[..n][..k] == files[..k] && files[..n][..k + 1] == files[..k + 1];
    } else {
      k := n;
      assert files[..n + 1] == files;
    }
  }

  lemma PlanSizes(files: seq<File>, i: nat, j: nat)
    requires i <= j <= |files|
    ensures |Plan(files[..i])| <= |Plan(files[..j])|
  {
    PlanGrows(files[..j], i);
    assert files[..j][..i] == files[..i];
  }

  lemma PlanKeepsOrder(files: seq<File>, i: nat, j: nat) returns (a: nat, b: nat)
    requires i < j < |Plan(files)|
    ensures a < b < |files| && Plan(files)[i] == files[a] && Plan(files)[j] == files[b]
  {
    a := PlanFollowsList(files, i);
    b := PlanFollowsList(files, j);
    if b < a {
      PlanSizes(files, b + 1, a);
    }
  }

  lemma RankedPlan(files: seq<File>, i: nat, j: nat)
    requires Ranked(files) && i < j < |Plan(files)|
    ensures Plan(files)[i].version.Some? && Plan(files)[j].version.Some?
    ensures Plan(files)[i].version.value < Plan(files)[j].version.value
  {
    PlanDistinct(files);
    var a, b := PlanKeepsOrder(files, i, j);
    assert Plan(files)[i] == files[a] && Plan(files)[j] == files[b];
  }

  /** With digit prefixes of one width, migrations run in strictly increasing version order. */
  lemma PlanIsNumeric(files: seq<File>, w: nat, i: nat, j: nat)
    requires Genuine(files) && Ascending(files) && forall k | 0 <= k < |files| :: Numbered(files[k].name, w)
    requires i < j < |Plan(files)|
    ensures Plan(files)[i].version.Some? && Plan(files)[j].version.Some?
    ensures Plan(files)[i].version.value < Plan(files)[j].version.value
  {
    NamesRank(files, w);
    RankedPlan(files, i, j);
  }

  // ------------------------------------------------------- one Apply, alone

  lemma {:induction false} RunThenStep(s: State, ls: seq<Label>, l: Label)
    requires Run(s, ls).Some?
    ensures Run(s, ls + [l]) == Next(Run(s, ls).value, l)
    decreases |ls|
  {
    if ls == [] {
      assert [l][1..] == [];
    } else {
      RunThenStep(Next(s, ls[0]).value, ls[1..], l);
      assert (ls + [l])[1..] == ls[1..] + [l];
    }
  }

  lemma CoveredIsAll(s: State, i: nat)
    requires Inv(s) && Covered(s, i) && (i == |s.files| || s.files[i].version.None?)
    ensures s.log == Plan(s.files) && (i == |s.files| <==> AllParse(s.files))
  {
    CoveredIsPlan(s, i);
    if i < |s.files| {
      PlanStops(s.files, i);
    } else {
      assert s.files[..i] == s.files;
    }
  }

  lemma LogWithinPlan(s: State)
    requires Inv(s)
    ensures s.log <= Plan(s.files)
  {
    var j: nat :| Reached(s, j);
    PlanGrows(s.files, j);
  }

  /** How the calls made for one file end. */
  datatype FileCalls = FileCalls(
    check: Outcome, read: Outcome, begin: Outcome, body: Outcome, insert: Outcome, commit: Outcome)

  const ALL_OK := FileCalls(Ok, Ok, Ok, Ok, Ok, Ok)

  ghost predicate Quiet(calls: seq<FileCalls>) {
    forall k | 0 <= k < |calls| :: calls[k] == ALL_OK
  }

  class Migrator {
    const files: seq<File>
    const session: nat
    var lock: Option<Lock>
    var table: bool
    var recorded: set<int>
    var log: seq<File>

    // The run of the machine that the current Apply has made so far, and where it leads.
    ghost var trace: seq<Label>
    ghost var state: State

    constructor (files: seq<File>, session: nat)
      ensures this.files == files && this.session == session && Initial(View(map[]))
    {
      this.files, this.session := files, session;
      lock, table, recorded, log := None, false, {}, [];
    }

    ghost function View(sessions: map<nat, Phase>): State
      reads this
    {
      State(files, sessions, lock, table, recorded, log)
    }

    ghost predicate At(start: State, phase: Phase)
      reads this
    {
      Run(start, trace) == Some(state) && state == View(map[session := phase])
    }

    ghost method Begin()
      modifies this`trace, this`state
      ensures At(View(map[]), AtLock)
    {
      var start := View(map[]);
      RunThenStep(start, [], Start(session));
      assert [] + [Start(session)] == [Start(session)];
      trace, state := [Start(session)], View(map[session := AtLock]);
    }

    /** The fields now stand as the machine's do after the call just made. */
    ghost method Called(start: State, out: Outcome, phase: Phase)
      requires Run(start, trace) == Some(state)
      requires session in state.sessions && state.sessions == map[session := state.sessions[session]]
      requires Next(state, Act(session, out)) == Some(Go(View(state.sessions), session, phase))
      modifies this`trace, this`state
      ensures At(start, phase)
    {
      RunThenStep(start, trace, Act(session, out));
      assert state.sessions[session := phase] == map[session := phase];
      trace, state := trace + [Act(session, out)], View(map[session := phase]);
    }

    /** Reading the file, opening the transaction and the two statements in it: nothing visible yet. */
    method Prepare(i: nat, version: int, calls: FileCalls, ghost start: State) returns (ok: bool)
      requires version !in recorded && At(start, AtRead(i, version))
      modifies this`trace, this`state
      ensures At(start, if ok then AtCommit(i, version) else AtUnlock(false))
      ensures ok == (calls.read == calls.begin == calls.body == calls.insert == Ok)
    {
      ok := calls.read == Ok;
      Called(start, calls.read, if ok then AtBegin(i, version) else AtUnlock(false));
      if ok {
        ok := calls.begin == Ok;
        Called(start, calls.begin, if ok then AtBody(i, version) else AtUnlock(false));
      }
      if ok {
        ok := calls.body == Ok;
        Called(start, calls.body, if ok then AtInsert(i, version) else AtUnlock(false));
      }
      if ok {
        ok := calls.insert == Ok;
        Called(start, calls.insert, if ok then AtCommit(i, version) else AtUnlock(false));
      }
    }

    /** The file's SQL and its version appear together or not at all. */
    method Commit(i: nat, version: int, out: Outcome, ghost start: State)
      requires i < |files| && At(start, AtCommit(i, version))
      modifies this`recorded, this`log, this`trace, this`state
      ensures At(start, if out == Ok then AtFile(i + 1) else AtUnlock(false))
      ensures recorded == (if out == Fail then old(recorded) else old(recorded) + {version})
      ensures log == (if out == Fail then old(log) else old(log) + [files[i]])
    {
      if out != Fail {
        recorded, log := recorded + {version}, log + [files[i]];
      }
      Called(start, out, if out == Ok then AtFile(i + 1) else AtUnlock(false));
    }

    /** One turn of the loop over the files. */
    method ApplyFile(i: nat, calls: FileCalls, ghost start: State) returns (ok: bool)
      requires i < |files| && table && At(start, AtFile(i))
      modifies this`recorded, this`log, this`trace, this`state
      ensures At(start, if ok then AtFile(i + 1) else AtUnlock(false))
      ensures old(log) <= log && old(recorded) <= recorded
      ensures ok ==> files[i].version.Some? && files[i].version.value in recorded
      ensures files[i].version.None? ==> log == old(log) && recorded == old(recorded)
      ensures calls == ALL_OK ==> ok == files[i].version.Some?
    {
      var version := files[i].version;
      if version.None? || calls.check != Ok {
        Called(start, calls.check, AtUnlock(false));
        return false;
      }
      if version.value in recorded {
        Called(start, Ok, AtFile(i + 1));
        return true;
      }
      Called(start, Ok, AtRead(i, version.value));
      ok := Prepare(i, version.value, calls, start);
      if ok {
        Commit(i, version.value, calls.commit, start);
        ok := calls.commit == Ok;
      }
    }

    /** The loop over the files. It stops early only where a call fails or a name does not parse. */
    method ApplyFiles(calls: seq<FileCalls>, ghost start: State) returns (ok: bool)
      requires |calls| == |files| && table && At(start, AtFile(0)) && Inv(start)
      modifies this`recorded, this`log, this`trace, this`state
      ensures At(start, AtUnlock(ok)) && old(log) <= log
      ensures ok ==> AllParse(files) && log == Plan(files)
      ensures Quiet(calls) ==> ok == AllParse(files) && log == Plan(files)
    {
      var i := 0;
      ok := true;
      while ok && i < |files|
        invariant i <= |files| && At(start, if ok then AtFile(i) else AtUnlock(false))
        invariant old(log) <= log
        invariant Covered(View(map[]), i)
        invariant !ok ==> i < |files| && (Quiet(calls) ==> files[i].version.None?)
        decreases |files| - i, ok
      {
        ok := ApplyFile(i, calls[i], start);
        if ok {
          i := i + 1;
        }
      }
      RunKeepsInv(start, trace);
      if i == |files| || files[i].version.None? {
        CoveredIsAll(state, i);
      }
      if ok {
        Called(start, Ok, AtUnlock(true));
      }
    }

    /** The lock call: Fail while another session holds the lock, for it is then waited for in vain. */
    method TakeLock(out: Outcome, ghost start: State) returns (ok: bool)
      requires At(start, AtLock)
      modifies this`lock, this`trace, this`state
      ensures At(start, if ok then AtTable else Returned(false))
      ensures ok == (out == Ok && old(Available(lock, session)))
      ensures lock == if out == Fail || !old(Available(lock, session)) then old(lock) else Taken(old(lock), session)
    {
      if out == Fail || !Available(lock, session) {
        Called(start, Fail, Returned(false));
        return false;
      }
      lock := Taken(lock, session);
      ok := out == Ok;
      Called(start, out, if ok then AtTable else Returned(false));
    }

    /** The deferred unlock, whose own failure leaves the lock held and the result as it was. */
    method Unlock(out: Outcome, ok: bool, ghost start: State)
      requires At(start, AtUnlock(ok))
      modifies this`lock, this`trace, this`state
      ensures At(start, Returned(ok))
      ensures lock == if out == Fail then old(lock) else GivenBack(old(lock), session)
    {
      if out != Fail {
        lock := GivenBack(lock, session);
      }
      Called(start, out, Returned(ok));
    }

    /** What Apply does under the lock, up to and with the deferred unlock. */
    method ApplyLocked(tableCall: Outcome, calls: seq<FileCalls>, unlockCall: Outcome, ghost start: State)
      returns (ok: bool)
      requires |calls| == |files| && At(start, AtTable) && Inv(start)
      modifies this
      ensures At(start, Returned(ok)) && old(log) <= log
      ensures ok ==> AllParse(files) && log == Plan(files)
      ensures tableCall == Ok && Quiet(calls) ==> ok == AllParse(files) && log == Plan(files)
      ensures lock == if unlockCall == Fail then old(lock) else GivenBack(old(lock), session)
    {
      ok := tableCall == Ok;
      table := table || tableCall != Fail;
      Called(start, tableCall, if ok then AtFile(0) else AtUnlock(false));
      if ok {
        ok := ApplyFiles(calls, start);
      }
      Unlock(unlockCall, ok, start);
    }

    /** Apply from lock to unlock. The work is a run of the machine, so it keeps the machine's invariant. */
    method Apply(lockCall: Outcome, tableCall: Outcome, calls: seq<FileCalls>, unlockCall: Outcome) returns (ok: bool)
      requires |calls| == |files| && Inv(View(map[]))
      modifies this
      ensures Run(old(View(map[])), trace) == Some(View(map[session := Returned(ok)]))
      ensures Inv(View(map[session := Returned(ok)]))
      ensures old(log) <= log <= Plan(files) && recorded == Versions(log)
      ensures ok ==> AllParse(files) && log == Plan(files)
      ensures old(Available(lock, session)) && lockCall == tableCall == Ok && Quiet(calls) ==>
                ok == AllParse(files) && log == Plan(files)
      ensures (old(Available(lock, session)) && (old(lock).Some? ==> old(lock).value.depth >= 1) &&
               lockCall == unlockCall == Ok) ==> lock == old(lock)
    {
      ghost var start := View(map[]);
      if Available(lock, session) && (lock.Some? ==> lock.value.depth >= 1) { GivenBackAsTaken(lock, session); }
      Begin();
      ok := TakeLock(lockCall, start);
      if ok {
        ok := ApplyLocked(tableCall, calls, unlockCall, start);
      }
      RunKeepsInv(start, trace);
      LogWithinPlan(state);
    }
  }
}
