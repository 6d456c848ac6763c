/** internal/middleware/ratelimit.go: a fixed window per client address, counted in Redis. */
module RateLimit {
  import opened Common

  const WINDOW := 60 * SECOND
  const KEY_TTL := 61 * SECOND

  /** A counter key: client address and window number. */
  datatype Key = Key(ip: string, window: int)

  type Positive = n: nat | 1 <= n witness 1

  /** A Redis counter; it has no deadline until Expire reaches it. */
  datatype Counter = Counter(count: Positive, deadline: Option<int>)

  type Counters = map<Key, Counter>

  function Unix(now: int): int {
    now / SECOND
  }

  function WindowOf(now: int): int {
    Unix(now) / 60
  }

  predicate IsLive(cs: Counters, k: Key, now: int) {
    k in cs && (cs[k].deadline.Some? ==> now < cs[k].deadline.value)
  }

  /** INCR: an expired or absent key starts again at one, without a deadline. */
  function Incr(cs: Counters, k: Key, now: int): Counters {
    cs[k := if IsLive(cs, k, now) then cs[k].(count := cs[k].count + 1) else Counter(1, None)]
  }

  /** EXPIRE key 61 s. */
  function Expire(cs: Counters, k: Key, now: int): Counters {
    if IsLive(cs, k, now) then cs[k := cs[k].(deadline := Some(now + KEY_TTL))] else cs
  }

  // ------------------------------------------------- Retry-After

  /** The seconds a refused client is told to wait (section 10.2.3 of RFC 9110). */
  function RetryAfter(now: int): int {
    var wait := 60 - Unix(now) % 60;
    if wait < 1 then 1 else wait
  }

  /** The wait is 1 to 60 seconds and ends exactly when the next window starts. */
  lemma RetryAfterIsNextWindow(now: int)
    ensures 1 <= RetryAfter(now) <= 60
    ensures (now / SECOND + RetryAfter(now)) % 60 == 0
    ensures (Unix(now) + RetryAfter(now)) * SECOND == (WindowOf(now) + 1) * WINDOW
    ensures WindowOf(now + RetryAfter(now) * SECOND) == WindowOf(now) + 1
    ensures forall t :: now <= t < (Unix(now) + RetryAfter(now)) * SECOND ==> WindowOf(t) == WindowOf(now)
  {
    assert Unix(now) % 60 == Unix(now) - 60 * WindowOf(now);
    assert Unix(now + RetryAfter(now) * SECOND) == Unix(now) + RetryAfter(now);
  }

  // ------------------------------------------------- allow

  /** One request: its clock reading fixes the key; then INCR, and EXPIRE if the count is one. */
  datatype Phase =
    | AtIncr(ip: string, read: int)
    | AtExpire(ip: string, read: int)
    | Admitted(ip: string, read: int, landed: int)
    | FailedOpen(ip: string, read: int)
    | Limited(ip: string, read: int, retryAfter: int)

  /** History only: `landed` counts, per key, the INCRs that took effect, and `heard` has what INCR answered each
      request it did answer. */
  datatype State = State(
    now: int, perMinute: nat, counters: Counters, reqs: map<nat, Phase>, landed: map<Key, nat>, heard: map<nat, nat>)

  datatype Label = Arrive(r: nat, ip: string) | Act(r: nat, out: Outcome) | Tick(dt: nat)

  function Landed(s: State, k: Key): nat {
    if k in s.landed then s.landed[k] else 0
  }

  function Go(s: State, r: nat, p: Phase): State {
    s.(reqs := s.reqs[r := p])
  }

  /** The verdict of allow for a count that is not the first: compare and, if over, read the clock again. */
  function Verdict(s: State, ip: string, read: int, count: nat): Phase {
    if count > s.perMinute then Limited(ip, read, RetryAfter(s.now)) else Admitted(ip, read, s.now)
  }

  function Next(s: State, l: Label): Option<State> {
    match l
    case Arrive(r, ip) => if r in s.reqs then None else Some(Go(s, r, AtIncr(ip, s.now)))
    case Tick(dt) => Some(s.(now := s.now + dt))
    case Act(r, out) =>
      if r !in s.reqs then None else
      match s.reqs[r] {
        case AtIncr(ip, read) =>
          var k := Key(ip, WindowOf(read));
          if out == Fail then Some(Go(s, r, FailedOpen(ip, read)))
          else
            var cs := Incr(s.counters, k, s.now);
            var s' := s.(counters := cs, landed := s.landed[k := Landed(s, k) + 1],
                         heard := if out == Ok then s.heard[r := cs[k].count] else s.heard);
            Some(Go(s', r, if out == Lost then FailedOpen(ip, read)
                           else if cs[k].count == 1 then AtExpire(ip, read)
                           else Verdict(s', ip, read, cs[k].count)))
        case AtExpire(ip, read) =>
          var s' := if out == Fail then s
                    else s.(counters := Expire(s.counters, Key(ip, WindowOf(read)), s.now));
          Some(Go(s', r, Verdict(s', ip, read, 1)))
        case Admitted(_, _, _) => None
        case FailedOpen(_, _) => None
        case Limited(_, _, _) => None
      }
  }

  function Run(s: State, ls: seq<Label>): Option<State>
    decreases |ls|
  {
    if ls == [] then Some(s)
    else
      var t := Next(s, ls[0]);
      if t.None? then None else Run(t.value, ls[1..])
  }

  /** An INCR lands no later than d after the clock reading that chose its key. */
  predicate OnTime(s: State, l: Label, d: nat) {
    l.Act? && l.r in s.reqs && s.reqs[l.r].AtIncr? ==> s.now <= s.reqs[l.r].read + d
  }

  predicate OnTimeRun(s: State, ls: seq<Label>, d: nat)
    decreases |ls|
  {
    ls == [] || (OnTime(s, ls[0], d) && Next(s, ls[0]).Some? && OnTimeRun(Next(s, ls[0]).value, ls[1..], d))
  }

  /** The whole of `allow`, its EXPIRE included, is over within a second of its clock reading. */
  predicate Swift(s: State, l: Label) {
    l.Act? && l.r in s.reqs && (s.reqs[l.r].AtIncr? || s.reqs[l.r].AtExpire?) ==> s.now <= s.reqs[l.r].read + SECOND
  }

  predicate SwiftRun(s: State, ls: seq<Label>)
    decreases |ls|
  {
    ls == [] || (Swift(s, ls[0]) && Next(s, ls[0]).Some? && SwiftRun(Next(s, ls[0]).value, ls[1..]))
  }

  /** RateLimit: a limit that is not positive means 60. */
  function Effective(perMinute: int): (limit: Positive)
    ensures perMinute > 0 ==> limit == perMinute
    ensures perMinute <= 0 ==> limit == 60
  {
    if perMinute <= 0 then 60 else perMinute
  }

  predicate Initial(s: State) {
    s.perMinute >= 1 && s.counters == map[] && s.reqs == map[] && s.landed == map[] && s.heard == map[]
  }

  predicate Taken(p: Phase, k: Key) {
    (p.Admitted? || p.AtExpire?) && Key(p.ip, WindowOf(p.read)) == k
  }

  /** Requests admitted under a key, or found first and so about to be. */
  function Takers(s: State, k: Key): set<nat> {
    set r | r in s.reqs && Taken(s.reqs[r], k)
  }

  /** Non-fail-open admissions of a client whose clock reading fell into the key's window. */
  function Admissions(s: State, k: Key): set<nat> {
    set r | r in s.reqs && s.reqs[r].Admitted? && Taken(s.reqs[r], k)
  }

  /** The end of the last second in which an INCR for the key may land. */
  function LastCall(k: Key): int {
    (k.window + 1) * WINDOW + SECOND
  }

  /** A counter has seen every INCR for its key, and outlives the last that may come. */
  predicate CounterOk(s: State, k: Key)
    requires k in s.counters
  {
    && s.counters[k].count == Landed(s, k)
    && (s.counters[k].deadline.Some? ==> s.counters[k].deadline.value >= LastCall(k))
  }

  ghost predicate Inv(s: State) {
    && s.perMinute >= 1
    && (forall k | k in s.counters :: CounterOk(s, k))
    && (forall k | k in s.landed :: k in s.counters)
    && (forall r | r in s.reqs && (s.reqs[r].AtIncr? || s.reqs[r].AtExpire? || s.reqs[r].Admitted?) ::
          s.reqs[r].read <= s.now)
    && (forall k :: |Takers(s, k)| <= Landed(s, k) && |Takers(s, k)| <= s.perMinute)
  }

  lemma WindowBounds(t: int)
    ensures WindowOf(t) * WINDOW <= t < (WindowOf(t) + 1) * WINDOW
  {}

  lemma TakersAfter(s: State, t: State, r: nat, k: Key)
    requires r in t.reqs && t.reqs == s.reqs[r := t.reqs[r]]
    ensures |Takers(t, k)| <= |Takers(s, k)| + (if Taken(t.reqs[r], k) && r !in Takers(s, k) then 1 else 0)
  {
    assert Takers(t, k) <= Takers(s, k) + (if Taken(t.reqs[r], k) then {r} else {});
    SubsetSize(Takers(t, k), Takers(s, k) + (if Taken(t.reqs[r], k) then {r} else {}));
  }

  lemma {:induction false} SubsetSize(a: set<nat>, b: set<nat>)
    requires a <= b
    ensures |a| <= |b|
  {
    assert b == a + (b - a);
  }

  /** An INCR that is on time finds its counter alive, so the count is one more than the INCRs before. */
  lemma IncrStep(s: State, r: nat, out: Outcome)
    requires Inv(s) && r in s.reqs && s.reqs[r].AtIncr? && OnTime(s, Act(r, out), SECOND)
    ensures Inv(Next(s, Act(r, out)).value)
  {
    var t := Next(s, Act(r, out)).value;
    var key := Key(s.reqs[r].ip, WindowOf(s.reqs[r].read));
    WindowBounds(s.reqs[r].read);
    assert key in s.counters ==> CounterOk(s, key) && IsLive(s.counters, key, s.now);
    forall k ensures |Takers(t, k)| <= Landed(t, k) && |Takers(t, k)| <= t.perMinute {
      TakersAfter(s, t, r, k);
    }
    forall k | k in t.counters ensures CounterOk(t, k) {
      assert k in s.counters ==> CounterOk(s, k);
    }
  }

  lemma ExpireStep(s: State, r: nat, out: Outcome)
    requires Inv(s) && r in s.reqs && s.reqs[r].AtExpire?
    ensures Inv(Next(s, Act(r, out)).value)
  {
    var t := Next(s, Act(r, out)).value;
    forall k ensures |Takers(t, k)| <= Landed(t, k) && |Takers(t, k)| <= t.perMinute {
      TakersAfter(s, t, r, k);
    }
    ExpireKeepsCounters(s, r, out);
  }

  /** EXPIRE, after the clock reading, keeps the counter for as long as an INCR may come. */
  lemma ExpireKeepsCounters(s: State, r: nat, out: Outcome)
    requires Inv(s) && r in s.reqs && s.reqs[r].AtExpire?
    ensures var t := Next(s, Act(r, out)).value; forall k | k in t.counters :: CounterOk(t, k)
  {
    var t := Next(s, Act(r, out)).value;
    WindowBounds(s.reqs[r].read);
    forall k | k in t.counters ensures CounterOk(t, k) {
      assert CounterOk(s, k);
    }
  }

  lemma StepKeepsInv(s: State, l: Label)
    requires Inv(s) && OnTime(s, l, SECOND) && Next(s, l).Some?
    ensures Inv(Next(s, l).value)
  {
    var t := Next(s, l).value;
    match l
    case Act(r, out) =>
      if s.reqs[r].AtIncr? { IncrStep(s, r, out); } else { ExpireStep(s, r, out); }
    case Arrive(r, ip) =>
      forall k ensures |Takers(t, k)| <= Landed(t, k) && |Takers(t, k)| <= t.perMinute { TakersAfter(s, t, r, k); }
      forall k | k in t.counters ensures CounterOk(t, k) { assert CounterOk(s, k); }
    case Tick(dt) =>
      forall k ensures Takers(t, k) == Takers(s, k) {}
      forall k | k in t.counters ensures CounterOk(t, k) { assert CounterOk(s, k); }
  }

  lemma {:induction false} RunKeepsInv(s: State, ls: seq<Label>)
    requires Inv(s) && OnTimeRun(s, ls, SECOND)
    ensures Run(s, ls).Some? && Inv(Run(s, ls).value)
    ensures Run(s, ls).value.perMinute == s.perMinute
    decreases |ls|
  {
    if ls != [] {
      StepKeepsInv(s, ls[0]);
      RunKeepsInv(Next(s, ls[0]).value, ls[1..]);
    }
  }

  lemma InitialInv(s: State)
    requires Initial(s)
    ensures Inv(s)
  {
    forall k ensures Takers(s, k) == {} {}
  }

  /** For every on-time schedule, whatever fails: no window of a client sees more than perMinute
      admissions that Redis answered for. */
  lemma LimitPerWindow(s: State, ls: seq<Label>, k: Key)
    requires Initial(s) && OnTimeRun(s, ls, SECOND)
    ensures Run(s, ls).Some? && |Admissions(Run(s, ls).value, k)| <= s.perMinute
    ensures |ReadWithin(Run(s, ls).value, k.ip, k.window * 60 * SECOND, (k.window + 1) * 60 * SECOND)| <= s.perMinute
  {
    InitialInv(s);
    RunKeepsInv(s, ls);
    var t := Run(s, ls).value;
    SubsetSize(Admissions(t, k), Takers(t, k));
    ReadInWindow(t, k);
  }

  lemma ReadInWindow(t: State, k: Key)
    ensures ReadWithin(t, k.ip, k.window * 60 * SECOND, (k.window + 1) * 60 * SECOND) == Admissions(t, k)
  {
    forall r | r in t.reqs && t.reqs[r].Admitted?
      ensures k.window * 60 * SECOND <= t.reqs[r].read < (k.window + 1) * 60 * SECOND <==>
              WindowOf(t.reqs[r].read) == k.window
    {
      WindowBounds(t.reqs[r].read);
    }
  }

  // ------------------------------------------------- who is refused

  function KeyOf(p: Phase): Key {
    Key(p.ip, WindowOf(p.read))
  }

  /** The requests that INCR answered are those admitted, refused or about to be admitted, by the number they heard. */
  predicate Told(s: State) {
    && (forall r | r in s.heard ::
          r in s.reqs &&
          match s.reqs[r]
          case AtIncr(_, _) => false
          case AtExpire(_, _) => s.heard[r] == 1
          case Admitted(_, _, _) => s.heard[r] <= s.perMinute
          case FailedOpen(_, _) => false
          case Limited(_, _, _) => s.heard[r] > s.perMinute)
    && (forall r | r in s.reqs && !s.reqs[r].AtIncr? && !s.reqs[r].FailedOpen? :: r in s.heard)
  }

  lemma StepKeepsTold(s: State, l: Label)
    requires Told(s) && Next(s, l).Some?
    ensures Told(Next(s, l).value)
  {}

  /** The requests of a window that INCR answered heard different numbers, none above the INCRs that took effect. */
  predicate Numbered(s: State) {
    && (forall r | r in s.heard :: r in s.reqs && 1 <= s.heard[r] <= Landed(s, KeyOf(s.reqs[r])))
    && (forall q, r
          | q in s.heard && r in s.heard && KeyOf(s.reqs[q]) == KeyOf(s.reqs[r]) && s.heard[q] == s.heard[r] ::
          q == r)
  }

  /** INCR counts one more for the key, and if it answers, the request hears that count. */
  lemma NumberedAfter(s: State, t: State, r: nat, k: Key)
    requires Numbered(s) && r !in s.heard && r in t.reqs && KeyOf(t.reqs[r]) == k
    requires forall q | q in s.heard :: q in t.reqs && KeyOf(t.reqs[q]) == KeyOf(s.reqs[q])
    requires t.landed == s.landed[k := Landed(s, k) + 1]
    requires t.heard == s.heard || t.heard == s.heard[r := Landed(s, k) + 1]
    ensures Numbered(t)
  {}

  lemma SameNumbers(s: State, t: State)
    requires Numbered(s) && t.heard == s.heard && t.landed == s.landed
    requires forall q | q in s.reqs :: q in t.reqs && KeyOf(t.reqs[q]) == KeyOf(s.reqs[q])
    ensures Numbered(t)
  {}

  /** On time, the counter is alive, so what INCR answers is one more than the INCRs before. */
  lemma IncrShape(s: State, r: nat, out: Outcome)
    requires Inv(s) && r in s.reqs && s.reqs[r].AtIncr? && OnTime(s, Act(r, out), SECOND) && out != Fail
    ensures var t := Next(s, Act(r, out)).value; var k := KeyOf(s.reqs[r]);
      && t.landed == s.landed[k := Landed(s, k) + 1]
      && t.heard == if out == Ok then s.heard[r := Landed(s, k) + 1] else s.heard
  {
    var k := KeyOf(s.reqs[r]);
    WindowBounds(s.reqs[r].read);
    assert k in s.counters ==> CounterOk(s, k) && IsLive(s.counters, k, s.now);
  }

  lemma RequestsKeepKeys(s: State, l: Label)
    requires Next(s, l).Some?
    ensures forall q | q in s.reqs :: q in Next(s, l).value.reqs && KeyOf(Next(s, l).value.reqs[q]) == KeyOf(s.reqs[q])
  {}

  lemma IncrNumbers(s: State, t: State, r: nat, out: Outcome)
    requires Numbered(s) && r in s.reqs && r !in s.heard && Next(s, Act(r, out)) == Some(t)
    requires out != Fail ==>
      var k := KeyOf(s.reqs[r]);
      && t.landed == s.landed[k := Landed(s, k) + 1]
      && t.heard == if out == Ok then s.heard[r := Landed(s, k) + 1] else s.heard
    requires out == Fail ==> t.landed == s.landed && t.heard == s.heard
    ensures Numbered(t)
  {
    RequestsKeepKeys(s, Act(r, out));
    if out == Fail { SameNumbers(s, t); } else { NumberedAfter(s, t, r, KeyOf(s.reqs[r])); }
  }

  lemma FailedIncrShape(s: State, r: nat)
    requires r in s.reqs && s.reqs[r].AtIncr?
    ensures var t := Next(s, Act(r, Fail)).value; t.landed == s.landed && t.heard == s.heard
  {}

  lemma OtherShape(s: State, l: Label)
    requires Next(s, l).Some? && !(l.Act? && s.reqs[l.r].AtIncr?)
    ensures Next(s, l).value.landed == s.landed && Next(s, l).value.heard == s.heard
  {}

  lemma StepNumbers(s: State, l: Label)
    requires Inv(s) && Told(s) && Numbered(s) && OnTime(s, l, SECOND) && Next(s, l).Some?
    ensures Numbered(Next(s, l).value)
  {
    var t := Next(s, l).value;
    if l.Act? && s.reqs[l.r].AtIncr? {
      if l.out == Fail { FailedIncrShape(s, l.r); } else { IncrShape(s, l.r, l.out); }
      IncrNumbers(s, t, l.r, l.out);
    } else {
      RequestsKeepKeys(s, l);
      OtherShape(s, l);
      SameNumbers(s, t);
    }
  }

  lemma {:induction false} RunNumbers(s: State, ls: seq<Label>)
    requires Inv(s) && Told(s) && Numbered(s) && OnTimeRun(s, ls, SECOND)
    ensures Run(s, ls).Some? && Told(Run(s, ls).value) && Numbered(Run(s, ls).value)
    ensures Run(s, ls).value.perMinute == s.perMinute
    decreases |ls|
  {
    if ls != [] {
      StepKeepsInv(s, ls[0]);
      StepKeepsTold(s, ls[0]);
      StepNumbers(s, ls[0]);
      RunNumbers(Next(s, ls[0]).value, ls[1..]);
    }
  }

  /** Whatever fails, on every on-time schedule: a request is refused only if INCR answered it and had counted
      perMinute others of its window before; one that heard a number within the limit is admitted; one that INCR did
      not answer is let through. So a window with no more than perMinute INCRs refuses nobody. */
  lemma RefusedOnlyAboveLimit(s: State, ls: seq<Label>, r: nat)
    requires Initial(s) && OnTimeRun(s, ls, SECOND) && Run(s, ls).Some? && r in Run(s, ls).value.reqs
    ensures var t := Run(s, ls).value;
      && (t.reqs[r].Limited? ==> r in t.heard && s.perMinute < t.heard[r] <= Landed(t, KeyOf(t.reqs[r])))
      && (t.reqs[r].Admitted? ==> r in t.heard && 1 <= t.heard[r] <= s.perMinute)
      && (t.reqs[r].FailedOpen? ==> r !in t.heard)
      && (Landed(t, KeyOf(t.reqs[r])) <= s.perMinute ==> !t.reqs[r].Limited?)
      && (forall q | q in t.heard && q in t.reqs && r in t.heard && KeyOf(t.reqs[q]) == KeyOf(t.reqs[r]) && q != r ::
            t.heard[q] != t.heard[r])
  {
    InitialInv(s);
    RunNumbers(s, ls);
  }

  // ------------------------------------------------- any minute, not just a window

  /** Admissions of a client by when their clock was read. */
  function ReadWithin(s: State, ip: string, from: int, to: int): set<nat> {
    set r | r in s.reqs && s.reqs[r].Admitted? && s.reqs[r].ip == ip && from <= s.reqs[r].read < to
  }

  /** Admissions of a client by when they were decided. */
  function AdmittedWithin(s: State, ip: string, from: int, to: int): set<nat> {
    set r | r in s.reqs && s.reqs[r].Admitted? && s.reqs[r].ip == ip && from <= s.reqs[r].landed < to
  }

  /** m windows in a row see at most m times the limit. */
  lemma {:induction false} LimitPerWindows(s: State, ls: seq<Label>, ip: string, w: int, m: nat)
    requires Initial(s) && OnTimeRun(s, ls, SECOND)
    ensures Run(s, ls).Some?
    ensures |ReadWithin(Run(s, ls).value, ip, w * WINDOW, (w + m) * WINDOW)| <= m * s.perMinute
    decreases m
  {
    InitialInv(s);
    RunKeepsInv(s, ls);
    var t := Run(s, ls).value;
    if m == 0 {
      assert ReadWithin(t, ip, w * WINDOW, w * WINDOW) == {};
    } else {
      LimitPerWindows(s, ls, ip, w, m - 1);
      LimitPerWindow(s, ls, Key(ip, w + m - 1));
      LastWindow(t, ip, w, m);
      assert m * s.perMinute == (m - 1) * s.perMinute + s.perMinute;
    }
  }

  lemma LastWindow(t: State, ip: string, w: int, m: nat)
    requires m > 0
    ensures |ReadWithin(t, ip, w * WINDOW, (w + m) * WINDOW)| <=
            |ReadWithin(t, ip, w * WINDOW, (w + (m - 1)) * WINDOW)| + |Admissions(t, Key(ip, w + m - 1))|
  {
    var a, b := ReadWithin(t, ip, w * WINDOW, (w + (m - 1)) * WINDOW), Admissions(t, Key(ip, w + m - 1));
    forall r | r in ReadWithin(t, ip, w * WINDOW, (w + m) * WINDOW) ensures r in a + b {
      WindowBounds(t.reqs[r].read);
    }
    SubsetSize(ReadWithin(t, ip, w * WINDOW, (w + m) * WINDOW), a + b);
  }

  /** Any k minutes of clock readings, and a tick more, hold at most k + 1 times the limit. */
  lemma LimitPerSpanOfReadings(s: State, ls: seq<Label>, ip: string, from: int, to: int, k: nat)
    requires Initial(s) && OnTimeRun(s, ls, SECOND) && to - from <= k * WINDOW + 1
    ensures Run(s, ls).Some? && |ReadWithin(Run(s, ls).value, ip, from, to)| <= (k + 1) * s.perMinute
  {
    var w := WindowOf(from);
    LimitPerWindows(s, ls, ip, w, k + 1);
    WindowBounds(from);
    var t := Run(s, ls).value;
    SubsetSize(ReadWithin(t, ip, from, to), ReadWithin(t, ip, w * WINDOW, (w + (k + 1)) * WINDOW));
  }

  /** Admissions are decided within a second of their clock reading. */
  ghost predicate Settled(s: State) {
    && (forall r | r in s.reqs && (s.reqs[r].AtIncr? || s.reqs[r].AtExpire?) :: s.reqs[r].read <= s.now)
    && (forall r | r in s.reqs && s.reqs[r].Admitted? :: s.reqs[r].read <= s.reqs[r].landed <= s.reqs[r].read + SECOND)
  }

  lemma StepSettles(s: State, l: Label)
    requires Settled(s) && Swift(s, l) && Next(s, l).Some?
    ensures Settled(Next(s, l).value) && OnTime(s, l, SECOND)
  {}

  lemma {:induction false} SwiftRunSettles(s: State, ls: seq<Label>)
    requires Settled(s) && SwiftRun(s, ls)
    ensures OnTimeRun(s, ls, SECOND) && Run(s, ls).Some? && Settled(Run(s, ls).value)
    decreases |ls|
  {
    if ls != [] {
      StepSettles(s, ls[0]);
      SwiftRunSettles(Next(s, ls[0]).value, ls[1..]);
    }
  }

  /** What is decided in a span was read in it or in the second before. */
  lemma DecidedAfterRead(t: State, ip: string, from: int, to: int)
    requires Settled(t)
    ensures |AdmittedWithin(t, ip, from, to)| <= |ReadWithin(t, ip, from - SECOND, to)|
  {
    SubsetSize(AdmittedWithin(t, ip, from, to), ReadWithin(t, ip, from - SECOND, to));
  }

  /** If every `allow` is over within a second, k minutes less a second, and a tick more, see at most
      k + 1 times the limit admitted. */
  lemma LimitPerSpan(s: State, ls: seq<Label>, ip: string, from: int, to: int, k: nat)
    requires Initial(s) && SwiftRun(s, ls) && to - from <= k * 60 * SECOND - SECOND + 1
    ensures Run(s, ls).Some? && |AdmittedWithin(Run(s, ls).value, ip, from, to)| <= (k + 1) * s.perMinute
  {
    SwiftRunSettles(s, ls);
    LimitPerSpanOfReadings(s, ls, ip, from - SECOND, to, k);
    DecidedAfterRead(Run(s, ls).value, ip, from, to);
  }

  // ------------------------------------------------- how far the bounds reach

  lemma {:induction false} SwiftAppend(s: State, a: seq<Label>, b: seq<Label>)
    requires SwiftRun(s, a) && Run(s, a).Some? && SwiftRun(Run(s, a).value, b)
    ensures SwiftRun(s, a + b) && Run(s, a + b) == Run(Run(s, a).value, b)
    decreases |a|
  {
    if a == [] {
      assert a + b == b;
    } else {
      SwiftAppend(Next(s, a[0]).value, a[1..], b);
      assert (a + b)[1..] == a[1..] + b;
    }
  }

  /** Puts a step in front of a run. */
  lemma Before(s: State, l: Label, rest: seq<Label>) returns (ls: seq<Label>)
    requires Next(s, l).Some?
    ensures ls == [l] + rest && Run(s, ls) == Run(Next(s, l).value, rest)
    ensures Swift(s, l) && SwiftRun(Next(s, l).value, rest) ==> SwiftRun(s, ls)
    ensures forall d: nat :: OnTime(s, l, d) && OnTimeRun(Next(s, l).value, rest, d) ==> OnTimeRun(s, ls, d)
  {
    ls := [l] + rest;
    assert ls[1..] == rest;
  }

  /** Requests 0..m-1 of client "c" were admitted from `from` on, m..n-1 have read the clock at `read`. */
  ghost predicate Queue(reqs: map<nat, Phase>, now: int, from: int, m: nat, n: nat, read: int) {
    && (forall i: nat :: i in reqs <==> i < n)
    && (forall i: nat | i < m && i < n :: reqs[i].Admitted? && reqs[i].ip == "c" && from <= reqs[i].landed <= now)
    && (forall i: nat | m <= i < n :: reqs[i] == AtIncr("c", read))
  }

  /** c INCRs have reached the key. */
  predicate Seen(cs: Counters, now: int, k: Key, c: nat) {
    if c == 0 then k !in cs else IsLive(cs, k, now) && cs[k].count == c
  }

  ghost predicate Line(s: State, from: int, m: nat, n: nat, read: int, c: nat) {
    && read <= s.now <= read + SECOND && from <= s.now
    && Queue(s.reqs, s.now, from, m, n, read) && Seen(s.counters, s.now, Key("c", WindowOf(read)), c)
  }

  /** Only counters of windows up to this one exist. */
  ghost predicate NoneAfter(s: State, window: int) {
    forall k | k in s.counters :: k.window <= window
  }

  /** `allow` for a request that has read the clock, its window having seen c others. */
  lemma Allowed(s: State, r: nat, read: int, c: nat) returns (ls: seq<Label>)
    requires r in s.reqs && s.reqs[r] == AtIncr("c", read) && s.now <= read + SECOND && c < s.perMinute
    requires Seen(s.counters, s.now, Key("c", WindowOf(read)), c)
    ensures SwiftRun(s, ls) && Run(s, ls).Some?
    ensures var t := Run(s, ls).value; var k := Key("c", WindowOf(read));
      && t == s.(reqs := s.reqs[r := Admitted("c", read, s.now)], counters := t.counters, landed := t.landed,
                  heard := t.heard)
      && IsLive(t.counters, k, s.now) && t.counters == s.counters[k := t.counters[k]] && t.counters[k].count == c + 1
      && (c == 0 ==> t.counters[k].deadline == Some(s.now + KEY_TTL))
  {
    var s1 := Next(s, Act(r, Ok)).value;
    ls := [];
    if c == 0 {
      var s2 := Next(s1, Act(r, Ok)).value;
      assert s2.reqs == s.reqs[r := Admitted("c", read, s.now)];
      ls := Before(s1, Act(r, Ok), ls);
    }
    ls := Before(s, Act(r, Ok), ls);
  }

  /** The next waiting request is admitted while its window has room. */
  lemma ServeOne(s: State, from: int, m: nat, n: nat, read: int, c: nat) returns (ls: seq<Label>)
    requires Line(s, from, m, n, read, c) && m < n && c < s.perMinute && NoneAfter(s, WindowOf(read))
    ensures SwiftRun(s, ls) && Run(s, ls).Some?
    ensures var t := Run(s, ls).value;
      && Line(t, from, m + 1, n, read, c + 1) && t.now == s.now && t.perMinute == s.perMinute
      && NoneAfter(t, WindowOf(read))
  {
    ls := Allowed(s, m, read, c);
    var t := Run(s, ls).value;
    assert t.reqs.Keys == s.reqs.Keys;
  }

  lemma {:induction false} ServeAll(s: State, from: int, m: nat, n: nat, read: int, c: nat) returns (ls: seq<Label>)
    requires Line(s, from, m, n, read, c) && m <= n && c + (n - m) <= s.perMinute && NoneAfter(s, WindowOf(read))
    ensures SwiftRun(s, ls) && Run(s, ls).Some?
    ensures var t := Run(s, ls).value;
      && Line(t, from, n, n, read, c + (n - m)) && t.now == s.now && t.perMinute == s.perMinute
      && NoneAfter(t, WindowOf(read))
    decreases n - m
  {
    ls := [];
    if m < n {
      var one := ServeOne(s, from, m, n, read, c);
      var rest := ServeAll(Run(s, one).value, from, m + 1, n, read, c + 1);
      SwiftAppend(s, one, rest);
      ls := one + rest;
    }
  }

  lemma QueueGrows(reqs: map<nat, Phase>, now: int, from: int, m: nat, n: nat, read: int)
    requires Queue(reqs, now, from, m, n, read) && m <= n
    ensures Queue(reqs[n := AtIncr("c", read)], now, from, m, n + 1, read)
  {}

  /** More requests read the clock. */
  lemma {:induction false} ArriveMany(s: State, from: int, m: nat, n: nat, more: nat) returns (ls: seq<Label>)
    requires Line(s, from, m, n, s.now, 0) && m <= n
    ensures SwiftRun(s, ls) && Run(s, ls).Some?
    ensures var t := Run(s, ls).value;
      Line(t, from, m, n + more, s.now, 0) && t == s.(reqs := t.reqs)
    decreases more
  {
    ls := [];
    if more > 0 {
      QueueGrows(s.reqs, s.now, from, m, n, s.now);
      var t := Next(s, Arrive(n, "c")).value;
      ls := ArriveMany(t, from, m, n + 1, more - 1);
      ls := Before(s, Arrive(n, "c"), ls);
    }
  }

  /** `more` requests read the clock now and are admitted `dt` later. */
  lemma Wave(s: State, from: int, n: nat, more: nat, dt: nat) returns (ls: seq<Label>)
    requires Line(s, from, n, n, s.now, 0) && more <= s.perMinute && dt <= SECOND && NoneAfter(s, WindowOf(s.now) - 1)
    ensures SwiftRun(s, ls) && Run(s, ls).Some?
    ensures var t := Run(s, ls).value;
      t.now == s.now + dt && t.perMinute == s.perMinute && NoneAfter(t, WindowOf(s.now))
      && Line(t, from, n + more, n + more, s.now, more)
  {
    var a := ArriveMany(s, from, n, n, more);
    var t := Run(s, a).value;
    var u := Next(t, Tick(dt)).value;
    assert [Tick(dt)][1..] == [];
    SwiftAppend(s, a, [Tick(dt)]);
    var b := ServeAll(u, from, n, n + more, s.now, 0);
    SwiftAppend(s, a + [Tick(dt)], b);
    ls := a + [Tick(dt)] + b;
  }

  lemma NewLine(s: State, from: int, n: nat, read: int, c: nat, dt: nat)
    requires Line(s, from, n, n, read, c) && NoneAfter(s, WindowOf(s.now + dt) - 1)
    ensures Line(s.(now := s.now + dt), from, n, n, s.now + dt, 0)
  {}

  /** Time passes until a window that no counter knows, and `more` requests are admitted there. */
  lemma NextWave(s: State, from: int, n: nat, read: int, c: nat, dt: nat, more: nat) returns (ls: seq<Label>)
    requires Line(s, from, n, n, read, c) && more <= s.perMinute && NoneAfter(s, WindowOf(s.now + dt) - 1)
    ensures SwiftRun(s, ls) && Run(s, ls).Some?
    ensures var t := Run(s, ls).value;
      t.now == s.now + dt && t.perMinute == s.perMinute && NoneAfter(t, WindowOf(t.now))
      && Line(t, from, n + more, n + more, t.now, more)
  {
    NewLine(s, from, n, read, c, dt);
    var t := Next(s, Tick(dt)).value;
    ls := Wave(t, from, n, more, 0);
    ls := Before(s, Tick(dt), ls);
  }

  lemma AllAdmitted(t: State, from: int, to: int, n: nat, read: int, c: nat)
    requires Line(t, from, n, n, read, c) && t.now < to
    ensures |AdmittedWithin(t, "c", from, to)| == n
  {
    FirstNaturals(AdmittedWithin(t, "c", from, to), n);
  }

  lemma {:induction false} FirstNaturals(rs: set<nat>, n: nat)
    requires forall i: nat :: i in rs <==> i < n
    ensures |rs| == n
  {
    if n == 0 {
      assert rs == {};
    } else {
      FirstNaturals(rs - {n - 1}, n - 1);
    }
  }

  /** The last clock reading of window 0, and when its `allow` is over at the latest. */
  const LAST_READ := WINDOW - 1
  const TURN := LAST_READ + SECOND

  /** When the wave of window k + 1 is over. */
  function WaveEnd(k: nat): int {
    if k == 0 then TURN + 1 else (k + 1) * WINDOW + 1
  }

  /** Requests that read the clock at the end of window 0 are admitted in window 1; then come those of window 1
      and of every window up to k + 1. */
  lemma {:induction false} Waves(n: nat, k: nat) returns (s: State, ls: seq<Label>)
    ensures Initial(s) || n == 0
    ensures s.perMinute == n && SwiftRun(s, ls) && Run(s, ls).Some?
    ensures var t := Run(s, ls).value;
      && t.perMinute == n && t.now == WaveEnd(k) - 1 && NoneAfter(t, k + 1)
      && Line(t, TURN, (k + 2) * n, (k + 2) * n, t.now, n)
    decreases k
  {
    if k == 0 {
      s := State(LAST_READ, n, map[], map[], map[], map[]);
      var a := LateWave(s, TURN, n);
      var t := Run(s, a).value;
      assert WindowOf(TURN) == 1;
      var b := NextWave(t, TURN, n, LAST_READ, n, 0, n);
      SwiftAppend(s, a, b);
      ls := a + b;
    } else {
      var a;
      s, a := Waves(n, k - 1);
      var t := Run(s, a).value;
      var m := (k + 1) * n;
      assert m + n == (k + 2) * n;
      WindowStart(k + 1);
      var b := NextWave(t, TURN, m, t.now, n, (k + 1) * WINDOW - t.now, n);
      SwiftAppend(s, a, b);
      ls := a + b;
    }
  }

  lemma WindowStart(w: int)
    ensures WindowOf(w * WINDOW) == w
  {}

  /** For every k and limit, a swift run on which k minutes less a second, and two ticks more, see k + 2 times
      the limit admitted (for k == 0 a single tick, and twice the limit). */
  lemma SpanBoundIsTight(perMinute: nat, k: nat)
    requires perMinute >= 1
    ensures exists s, ls :: (
      Initial(s) && s.perMinute == perMinute && SwiftRun(s, ls) && Run(s, ls).Some? &&
      |AdmittedWithin(Run(s, ls).value, "c", TURN, WaveEnd(k))| == (k + 2) * perMinute)
  {
    var s, ls := Waves(perMinute, k);
    var t := Run(s, ls).value;
    AllAdmitted(t, TURN, WaveEnd(k), (k + 2) * perMinute, t.now, perMinute);
  }

  /** Whatever the schedule, no span of that many ticks sees more than m admissions. */
  ghost predicate AlwaysWithin(perMinute: nat, span: int, m: nat) {
    forall s, ls, ip, from, to ::
      Initial(s) && s.perMinute == perMinute && SwiftRun(s, ls) && Run(s, ls).Some? && to - from <= span
      ==> |AdmittedWithin(Run(s, ls).value, ip, from, to)| <= m
  }

  /** To the tick: k + 1 times the limit is kept on every swift run if and only if the span is at most k minutes
      less the second `allow` may take. */
  lemma SpanLimitIff(perMinute: nat, k: nat, span: int)
    requires perMinute >= 1 && k >= 1
    ensures AlwaysWithin(perMinute, span, (k + 1) * perMinute) <==> span <= k * 60 * SECOND - SECOND + 1
  {
    if span <= k * WINDOW - SECOND + 1 {
      forall s, ls, ip, from, to |
        Initial(s) && s.perMinute == perMinute && SwiftRun(s, ls) && Run(s, ls).Some? && to - from <= span
        ensures |AdmittedWithin(Run(s, ls).value, ip, from, to)| <= (k + 1) * perMinute {
        LimitPerSpan(s, ls, ip, from, to, k);
      }
    } else {
      SpanBoundIsTight(perMinute, k);
      assert (k + 2) * perMinute > (k + 1) * perMinute;
      assert WaveEnd(k) - TURN <= span;
    }
  }

  /** The first wave is admitted when the next window has begun. */
  lemma LateWave(s: State, from: int, n: nat) returns (ls: seq<Label>)
    requires s == State(LAST_READ, n, map[], map[], map[], map[]) && from == LAST_READ + SECOND
    ensures SwiftRun(s, ls) && Run(s, ls).Some?
    ensures var t := Run(s, ls).value;
      t.now == from && t.perMinute == n && NoneAfter(t, 0) && Line(t, from, n, n, LAST_READ, n)
  {
    var a := ArriveMany(s, LAST_READ, 0, 0, n);
    var t := Run(s, a).value;
    var u := Next(t, Tick(SECOND)).value;
    assert [Tick(SECOND)][1..] == [];
    SwiftAppend(s, a, [Tick(SECOND)]);
    assert Line(u, from, 0, n, LAST_READ, 0);
    var b := ServeAll(u, from, 0, n, LAST_READ, 0);
    SwiftAppend(s, a + [Tick(SECOND)], b);
    ls := a + [Tick(SECOND)] + b;
  }

  /** The second allowed for an INCR is exact: with a limit of one, a run whose INCRs are at most one
      nanosecond later than that admits two requests to the same window. */
  lemma LateIncrBreaksLimit()
    ensures exists s, ls :: (
      Initial(s) && s.perMinute == 1 && OnTimeRun(s, ls, SECOND + 1) && Run(s, ls).Some? &&
      |Admissions(Run(s, ls).value, Key("c", 0))| == 2)
  {
    var s0 := State(0, 1, map[], map[], map[], map[]);
    var s1 := Next(s0, Arrive(1, "c")).value;
    var s2 := Next(s1, Act(1, Ok)).value;
    var s3 := Next(s2, Act(1, Ok)).value;
    assert s3.reqs == map[1 := Admitted("c", 0, 0)];
    var ls := LateAdmission(s3);
    ls := Before(s2, Act(1, Ok), ls);
    ls := Before(s1, Act(1, Ok), ls);
    ls := Before(s0, Arrive(1, "c"), ls);
  }

  lemma LateIncr(s: State) returns (ls: seq<Label>)
    requires s.now == WINDOW - 1 && s.perMinute == 1
    requires s.reqs == map[1 := Admitted("c", 0, 0), 2 := AtIncr("c", WINDOW - 1)]
    requires s.counters.Keys == {Key("c", 0)} && s.counters[Key("c", 0)].deadline == Some(KEY_TTL)
    ensures OnTimeRun(s, ls, SECOND + 1) && Run(s, ls).Some? && Admissions(Run(s, ls).value, Key("c", 0)) == {1, 2}
  {
    var s3 := Next(s, Tick(SECOND + 1)).value;
    var s4 := Next(s3, Act(2, Ok)).value;
    var s5 := Next(s4, Act(2, Ok)).value;
    assert s5.reqs == map[1 := Admitted("c", 0, 0), 2 := Admitted("c", WINDOW - 1, s3.now)];
    ls := Before(s4, Act(2, Ok), []);
    ls := Before(s3, Act(2, Ok), ls);
    ls := Before(s, Tick(SECOND + 1), ls);
  }

  /** The counter of window 0 expires between the clock reading and the INCR. */
  lemma LateAdmission(s: State) returns (ls: seq<Label>)
    requires s.now == 0 && s.perMinute == 1 && s.reqs == map[1 := Admitted("c", 0, 0)]
    requires s.counters.Keys == {Key("c", 0)} && s.counters[Key("c", 0)].deadline == Some(KEY_TTL)
    ensures OnTimeRun(s, ls, SECOND + 1) && Run(s, ls).Some? && Admissions(Run(s, ls).value, Key("c", 0)) == {1, 2}
  {
    var s1 := Next(s, Tick(WINDOW - 1)).value;
    var s2 := Next(s1, Arrive(2, "c")).value;
    ls := LateIncr(s2);
    ls := Before(s1, Arrive(2, "c"), ls);
    ls := Before(s, Tick(WINDOW - 1), ls);
  }

  // ------------------------------------------------- the middleware as a program

  datatype Decision = Serve | Refuse(retryAfter: int) | ServeUnchecked

  /** The counters `allow` leaves and what becomes of the request: the clock is read at `read`, INCR and EXPIRE
      run at `at` and `later`, and a refusal reads the clock again at `last`. */
  function Allowing(cs: Counters, perMinute: nat, ip: string, read: int, at: int, later: int, last: int,
                    incr: Outcome, expire: Outcome): (Counters, Decision)
  {
    var k := Key(ip, WindowOf(read));
    var cs' := Incr(cs, k, at);
    if incr == Fail then (cs, ServeUnchecked)
    else if incr == Lost then (cs', ServeUnchecked)
    else (if cs'[k].count == 1 && expire != Fail then Expire(cs', k, later) else cs',
          if cs'[k].count <= perMinute then Serve else Refuse(RetryAfter(last)))
  }

  /** What a decision is in the machine. */
  predicate Decided(p: Phase, d: Decision) {
    match d
    case Serve => p.Admitted?
    case ServeUnchecked => p.FailedOpen?
    case Refuse(wait) => p.Limited? && p.retryAfter == wait
  }

  lemma Front(s: State, l: Label, rest: seq<Label>)
    requires Next(s, l).Some?
    ensures Run(s, [l] + rest) == Run(Next(s, l).value, rest)
  {
    assert ([l] + rest)[1..] == rest;
  }

  /** An `allow` that nothing interrupts is a run of the machine. The machine decides at the time of the last call,
      which is the EXPIRE if the count was one. */
  lemma AllowIsRun(s: State, r: nat, ip: string, wait: nat, more: nat, incr: Outcome, expire: Outcome)
    returns (ls: seq<Label>, t: State)
    requires r !in s.reqs
    ensures Run(s, ls) == Some(t)
    ensures var at := s.now + wait;
      var (cs, d) := Allowing(s.counters, s.perMinute, ip, s.now, at, at + more, t.now, incr, expire);
      && t.counters == cs && r in t.reqs && t.reqs == s.reqs[r := t.reqs[r]] && Decided(t.reqs[r], d)
      && t.perMinute == s.perMinute && (t.now == at || t.now == at + more)
  {
    var a := Next(s, Arrive(r, ip)).value;
    var b := Next(a, Tick(wait)).value;
    ls, t := CallsAreRun(b, r, ip, s.now, more, incr, expire);
    Front(a, Tick(wait), ls);
    Front(s, Arrive(r, ip), [Tick(wait)] + ls);
    ls := [Arrive(r, ip)] + ([Tick(wait)] + ls);
  }

  /** The INCR and the EXPIRE. */
  lemma CallsAreRun(s: State, r: nat, ip: string, read: int, more: nat, incr: Outcome, expire: Outcome)
    returns (ls: seq<Label>, t: State)
    requires r in s.reqs && s.reqs[r] == AtIncr(ip, read)
    ensures Run(s, ls) == Some(t)
    ensures
      var (cs, d) := Allowing(s.counters, s.perMinute, ip, read, s.now, s.now + more, t.now, incr, expire);
      && t.counters == cs && r in t.reqs && t.reqs == s.reqs[r := t.reqs[r]] && Decided(t.reqs[r], d)
      && t.perMinute == s.perMinute && (t.now == s.now || t.now == s.now + more)
  {
    var c := Next(s, Act(r, incr)).value;
    t, ls := c, [];
    if c.reqs[r].AtExpire? {
      var d := Next(c, Tick(more)).value;
      t := Next(d, Act(r, expire)).value;
      Front(d, Act(r, expire), []);
      Front(c, Tick(more), [Act(r, expire)]);
      ls := [Tick(more)] + [Act(r, expire)];
    }
    Front(s, Act(r, incr), ls);
    ls := [Act(r, incr)] + ls;
  }

  class Limiter {
    const perMinute: Positive
    var counters: Counters

    constructor (perMinute: int)
      ensures this.perMinute == Effective(perMinute) && counters == map[]
    {
      this.perMinute := Effective(perMinute);
      counters := map[];
    }

    /** allow and the fail-open branch around it. */
    method Allow(ip: string, read: int, at: int, later: int, last: int, incr: Outcome, expire: Outcome)
      returns (d: Decision)
      modifies this
      ensures (counters, d) == Allowing(old(counters), perMinute, ip, read, at, later, last, incr, expire)
      ensures d == ServeUnchecked <==> incr != Ok
      ensures forall w | w * 60 * SECOND <= read < (w + 1) * 60 * SECOND ::
        var k := Key(ip, w);
        && (d.Refuse? <==> incr == Ok && k in old(counters) && old(counters)[k].count >= perMinute &&
                           (old(counters)[k].deadline.Some? ==> at < old(counters)[k].deadline.value))
        && counters - {k} == old(counters) - {k} && (incr == Fail ==> counters == old(counters))
        && (incr != Fail ==>
              k in counters &&
              counters[k] == if k in old(counters) &&
                                (old(counters)[k].deadline.Some? ==> at < old(counters)[k].deadline.value)
                             then Counter(old(counters)[k].count + 1, old(counters)[k].deadline)
                             else Counter(1, if incr == Ok && expire != Fail then Some(later + 61 * SECOND) else None))
      ensures d.Refuse? ==> 1 <= d.retryAfter <= 60 && (last / SECOND + d.retryAfter) % 60 == 0
    {
      RetryAfterIsNextWindow(last);
      var key := Key(ip, WindowOf(read));
      if incr == Fail { return ServeUnchecked; }
      counters := Incr(counters, key, at);
      if incr == Lost { return ServeUnchecked; }
      var count := counters[key].count;
      if count == 1 && expire != Fail {
        counters := Expire(counters, key, later);
      }
      if count > perMinute {
        var retryAfter := 60 - Unix(last) % 60;
        if retryAfter < 1 { retryAfter := 1; }
        return Refuse(retryAfter);
      }
      return Serve;
    }
  }
}
