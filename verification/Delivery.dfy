/** What the consumer group's cursor and pending set guarantee as long as entries are only
    ever asked for through ">" (internal/consumer/consumer.go, ProcessOnce and handle). */
module Delivery {
  import opened Common
  import opened Schema
  import opened Analytics
  import CodeSpace

  /** Settled for good: acknowledged, or malformed and so skipped without an ack. */
  predicate Dealt(s: State, id: nat) {
    id in s.acked || (id < |s.stream| && s.stream[id].code == "")
  }

  /** An entry a busy worker still has in front of it. */
  predicate Ahead(s: State, w: nat, i: nat) {
    AtWork(s, w) && s.workers[w].done <= i < |s.workers[w].batch|
  }

  /** Delivered, not acknowledged, and in nobody's hands. */
  ghost predicate Stuck(s: State, id: nat) {
    && id < s.cursor && id in s.pending
    && (forall w: nat, i: nat | Ahead(s, w, i) :: s.workers[w].batch[i] != id)
  }

  ghost predicate Inv(s: State) {
    && s.cursor <= |s.stream|
    && |s.handed| == s.cursor && (forall i | 0 <= i < s.cursor :: s.handed[i] == i)
    && s.pending == (set k: nat | k < s.cursor && k !in s.acked)
    && (forall k | k in s.acked :: k in s.space.db.claims)
    && (forall k | k in s.space.db.claims :: k < s.cursor)
    && (forall w | AtWork(s, w) && !s.workers[w].stage.AtClaim? :: Entry(s, w) in s.space.db.claims)
    && (forall w: nat, i: nat | Ahead(s, w, i) :: s.workers[w].batch[i] < s.cursor && s.workers[w].batch[i] !in s.acked)
    && (forall v: nat, w: nat, i: nat, j: nat
          | Ahead(s, v, i) && Ahead(s, w, j) && s.workers[v].batch[i] == s.workers[w].batch[j] ::
          v == w && i == j)
    && (forall w | w in s.workers :: Counted(s, w))
  }

  /** Of the `handle` calls with these results, call i was made and returned nil. */
  predicate ReturnedNil(verdicts: seq<bool>, i: nat) {
    i < |verdicts| && verdicts[i]
  }

  /** The count ProcessOnce keeps, or returned, is exactly the number of `handle` calls that returned nil,
      which are those for a prefix of the batch; and entries counted are dealt with. */
  ghost predicate Counted(s: State, w: nat)
    requires w in s.workers
  {
    match s.workers[w]
    case Busy(batch, done, _) =>
      && done < |batch| && |Verdicts(s, w)| == done
      && (forall i: nat | i < done :: ReturnedNil(Verdicts(s, w), i) && Dealt(s, batch[i]))
    case Returned(batch, count, ok) =>
      && count <= |batch| && |Verdicts(s, w)| <= |batch|
      && (batch != [] ==> (ok <==> count == |batch|))
      && (forall i: nat :: ReturnedNil(Verdicts(s, w), i) <==> i < count)
      && (forall i: nat | i < count :: Dealt(s, batch[i]))
  }

  /** A call of worker `w`: it may acknowledge its entry, and then is done with it;
      it counts the entry only once that is dealt with. */
  ghost predicate ActShape(s: State, t: State, w: nat)
    requires AtWork(s, w)
  {
    var b, id := s.workers[w], Entry(s, w);
    && t == s.(space := t.space, workers := t.workers, pending := t.pending, acked := t.acked, log := t.log,
               verdicts := t.verdicts)
    && s.space.db.claims <= t.space.db.claims <= s.space.db.claims + {id}
    && w in t.workers && t.workers == s.workers[w := t.workers[w]]
    && (forall v | v != w :: Verdicts(t, v) == Verdicts(s, v))
    && var c := t.workers[w];
       && ((c == Handled(b) && Verdicts(t, w) == Verdicts(s, w) + [true]) ||
           (c == Failed(b) && (Verdicts(t, w) == Verdicts(s, w) || Verdicts(t, w) == Verdicts(s, w) + [false])) ||
           (c.Busy? && c == b.(stage := c.stage) && t.acked == s.acked && Verdicts(t, w) == Verdicts(s, w)))
       && (c == Handled(b) ==> Dealt(t, id))
       && (c.Busy? && c.done == b.done && !c.stage.AtClaim? ==> id in t.space.db.claims)
       && ((t.acked == s.acked && t.pending == s.pending) ||
           (t.acked == s.acked + {id} && t.pending == s.pending - {id} && id in s.space.db.claims))
  }

  lemma RaiseHasShape(s: State, w: nat, out: Outcome, clock: int)
    requires AtWork(s, w) && Entry(s, w) < |s.stream| && Entry(s, w) in s.space.db.claims
    requires s.workers[w].stage.AtTotal? || s.workers[w].stage.AtReferrer?
    ensures ActShape(s, Advance(s, w, out, clock), w)
  {}

  lemma ActHasShape(s: State, w: nat, out: Outcome, clock: int)
    requires Next(s, Act(w, out, clock)).Some?
    requires !s.workers[w].stage.AtClaim? ==> Entry(s, w) in s.space.db.claims
    ensures ActShape(s, Next(s, Act(w, out, clock)).value, w)
  {
    match s.workers[w].stage
    case AtClaim =>
    case AtLookup(_) =>
    case AtTotal(_, _) => RaiseHasShape(s, w, out, clock);
    case AtReferrer(_, _) => RaiseHasShape(s, w, out, clock);
    case AtAck =>
  }

  /** One more verdict: the count keeps up with it. */
  lemma MoverCounted(s: State, t: State, w: nat)
    requires AtWork(s, w) && Counted(s, w) && ActShape(s, t, w)
    ensures Counted(t, w)
  {
    var b := s.workers[w];
    forall i: nat
      ensures ReturnedNil(Verdicts(t, w), i) <==>
              i < b.done || (i == b.done && |Verdicts(t, w)| > b.done && Verdicts(t, w)[b.done]) {
      if i < b.done {
        assert ReturnedNil(Verdicts(s, w), i);
      }
    }
  }

  /** Nobody else has the entry, so acknowledging it takes nothing out of another's hands. */
  lemma HandsAfterAct(s: State, t: State, w: nat, v: nat, i: nat)
    requires Inv(s) && AtWork(s, w) && ActShape(s, t, w) && Ahead(t, v, i)
    ensures Ahead(s, v, i) && t.workers[v].batch == s.workers[v].batch && t.workers[v].batch[i] !in t.acked
  {
    assert Ahead(s, w, s.workers[w].done);
    assert Ahead(s, v, i);
  }

  lemma OthersCounted(s: State, t: State, w: nat)
    requires AtWork(s, w) && ActShape(s, t, w) && (forall v | v in s.workers :: Counted(s, v))
    ensures forall v | v in t.workers :: Counted(t, v)
  {
    MoverCounted(s, t, w);
    forall v | v in t.workers && v != w ensures Counted(t, v) {
      assert Counted(s, v);
    }
  }

  lemma ShapeKeepsInv(s: State, t: State, w: nat)
    requires Inv(s) && AtWork(s, w) && ActShape(s, t, w)
    ensures Inv(t)
  {
    forall v: nat, i: nat | Ahead(t, v, i)
      ensures Ahead(s, v, i) && t.workers[v].batch == s.workers[v].batch && t.workers[v].batch[i] !in t.acked
    {
      HandsAfterAct(s, t, w, v, i);
    }
    OthersCounted(s, t, w);
  }

  /** A read hands out the next n entries, to worker `w` or to nobody. */
  lemma PendingAfterRead(s: State, t: State, batch: seq<nat>)
    requires s.pending == (set k: nat | k < s.cursor && k !in s.acked)
    requires forall k | k in s.acked :: k < s.cursor
    requires t.acked == s.acked && t.cursor == s.cursor + |batch|
    requires t.pending == s.pending + (set k | k in batch)
    requires forall i | 0 <= i < |batch| :: batch[i] == s.cursor + i
    ensures t.pending == (set k: nat | k < t.cursor && k !in t.acked)
  {
    forall k: nat ensures k in t.pending <==> k < t.cursor && k !in t.acked {
      assert s.cursor <= k < t.cursor ==> k == batch[k - s.cursor];
    }
  }

  lemma ReadKeepsInv(s: State, t: State, w: nat, batch: seq<nat>)
    requires Inv(s) && Idle(s, w) && s.cursor + |batch| <= |s.stream|
    requires forall i | 0 <= i < |batch| :: batch[i] == s.cursor + i
    requires t == s.(cursor := s.cursor + |batch|, pending := t.pending, handed := s.handed + batch,
                     workers := t.workers, verdicts := s.verdicts[w := []])
    requires t.pending == s.pending + (set k | k in batch)
    requires w in t.workers && t.workers == s.workers[w := t.workers[w]]
    requires (t.workers[w].Returned? && t.workers[w].batch == [] && t.workers[w].count == 0) ||
             (batch != [] && t.workers[w] == Busy(batch, 0, AtClaim))
    ensures Inv(t)
  {
    PendingAfterRead(s, t, batch);
    forall v: nat, i: nat | Ahead(t, v, i)
      ensures if v == w then t.workers[v].batch[i] == s.cursor + i && i < |batch|
              else Ahead(s, v, i) && t.workers[v] == s.workers[v]
    {}
    forall i | 0 <= i < t.cursor ensures t.handed[i] == i {
      assert i >= s.cursor ==> t.handed[i] == batch[i - s.cursor];
    }
    CountedAfterRead(s, t, w);
  }

  lemma CountedAfterRead(s: State, t: State, w: nat)
    requires (forall v | v in s.workers :: Counted(s, v)) && t.verdicts == s.verdicts[w := []]
    requires w in t.workers && t.workers == s.workers[w := t.workers[w]]
    requires t == s.(cursor := t.cursor, pending := t.pending, handed := t.handed, workers := t.workers,
                     verdicts := t.verdicts)
    requires (t.workers[w].Returned? && t.workers[w].batch == [] && t.workers[w].count == 0) ||
             (t.workers[w].batch != [] && t.workers[w] == Busy(t.workers[w].batch, 0, AtClaim))
    ensures forall v | v in t.workers :: Counted(t, v)
  {
    forall v | v in t.workers ensures Counted(t, v) {
      assert v in s.workers ==> Counted(s, v);
    }
  }

  lemma ReadStep(s: State, w: nat, out: Outcome)
    requires Inv(s) && Next(s, Read(w, out)).Some?
    ensures Inv(Next(s, Read(w, out)).value)
  {
    var t := Next(s, Read(w, out)).value;
    ReadKeepsInv(s, t, w, t.handed[s.cursor..]);
  }

  lemma StepKeepsInv(s: State, l: Label)
    requires Inv(s) && Next(s, l).Some? && !l.Redeliver?
    ensures Inv(Next(s, l).value)
  {
    match l
    case Act(w, out, clock) =>
      ActHasShape(s, w, out, clock);
      ShapeKeepsInv(s, Next(s, l).value, w);
    case Read(w, out) => ReadStep(s, w, out);
    case Crash(w) => ShapeKeepsInv(s, Next(s, l).value, w);
    case Publish(e) => PublishStep(s, e);
    case Table(op) => TableStep(s, op);
  }

  lemma PublishStep(s: State, e: Event)
    requires Inv(s)
    ensures Inv(Next(s, Publish(e)).value)
  {
    var t := Next(s, Publish(e)).value;
    forall v | v in t.workers ensures Counted(t, v) {
      assert Counted(s, v);
    }
  }

  lemma ClaimsStay(space: CodeSpace.State, op: CodeSpace.Label)
    requires CodeSpace.Next(space, op).Some?
    ensures CodeSpace.Next(space, op).value.db.claims == space.db.claims
  {}

  lemma TableStep(s: State, op: CodeSpace.Label)
    requires Inv(s) && Next(s, Table(op)).Some?
    ensures Inv(Next(s, Table(op)).value)
  {
    var t := Next(s, Table(op)).value;
    ClaimsStay(s.space, op);
    forall v | v in t.workers ensures Counted(t, v) {
      assert Counted(s, v);
    }
  }

  ghost predicate OnlyNew(ls: seq<Label>) {
    forall l | l in ls :: !l.Redeliver?
  }

  /** In every run without redelivery: what was handed out is a prefix of the stream, each entry once;
      what is pending is what was handed out and not acknowledged; every acknowledged entry is claimed;
      and every count is the number of `handle` calls that returned nil, which come first in the batch. */
  lemma {:induction false} DeliveryCursor(s: State, ls: seq<Label>)
    requires Inv(s) && Run(s, ls).Some? && OnlyNew(ls)
    ensures Inv(Run(s, ls).value)
    decreases |ls|
  {
    if ls != [] {
      assert ls[0] in ls;
      StepKeepsInv(s, ls[0]);
      DeliveryCursor(Next(s, ls[0]).value, ls[1..]);
    }
  }

  lemma InitialInv(s: State)
    requires Initial(s)
    ensures Inv(s)
  {}

  // ------------------------------------------------- states that runs reach

  /** A step with nothing going wrong and nobody changing the table; events come with a time. */
  predicate Smooth(l: Label) {
    match l
    case Publish(e) => e.ts.Some?
    case Read(_, out) => out == Ok
    case Act(_, out, _) => out == Ok
    case Redeliver(_, _) => false
    case Crash(_) => false
    case Table(_) => false
  }

  ghost predicate AllSmooth(ls: seq<Label>) {
    forall l | l in ls :: Smooth(l)
  }

  lemma {:induction false} RunJoin(s: State, ls: seq<Label>, more: seq<Label>)
    requires Run(s, ls).Some?
    ensures Run(s, ls + more) == Run(Run(s, ls).value, more)
    decreases |ls|
  {
    if ls == [] {
      assert ls + more == more;
    } else {
      RunJoin(Next(s, ls[0]).value, ls[1..], more);
      assert (ls + more)[1..] == ls[1..] + more;
    }
  }

  /** Some run without redelivery leads there from an empty group. */
  ghost predicate Reachable(s: State) {
    exists origin, ls :: Analytics.Initial(origin) && OnlyNew(ls) && Run(origin, ls) == Some(s)
  }

  /** Everything proved of runs holds in a reachable state. */
  lemma ReachableIsSound(s: State)
    requires Reachable(s)
    ensures Analytics.Inv(s) && Attributed(s) && Inv(s)
  {
    var origin, ls :| Analytics.Initial(origin) && OnlyNew(ls) && Run(origin, ls) == Some(s);
    Analytics.InitialInv(origin);
    Analytics.RunKeepsInv(origin, ls);
    InitialInv(origin);
    DeliveryCursor(origin, ls);
  }

  lemma ReachableTables(s: State)
    requires Reachable(s)
    ensures s.cursor <= |s.stream| && Consistent(s.space.db) && (forall k | k in s.space.db.claims :: k < s.cursor)
  {
    ReachableIsSound(s);
  }

  /** The number ProcessOnce returned is that of the `handle` calls that returned nil, which come first. */
  lemma CountIsRight(s: State, w: nat)
    requires Reachable(s) && w in s.workers && s.workers[w].Returned?
    ensures s.workers[w].count <= |s.workers[w].batch|
    ensures forall i: nat :: ReturnedNil(Verdicts(s, w), i) <==> i < s.workers[w].count
    ensures forall i: nat | i < s.workers[w].count :: Dealt(s, s.workers[w].batch[i])
  {
    ReachableIsSound(s);
    assert Counted(s, w);
  }

  lemma ReachableStep(s: State, l: Label)
    requires Reachable(s) && Next(s, l).Some? && !l.Redeliver?
    ensures Reachable(Next(s, l).value)
  {
    var origin, ls :| Analytics.Initial(origin) && OnlyNew(ls) && Run(origin, ls) == Some(s);
    RunJoin(origin, ls, [l]);
    assert [l][1..] == [];
    assert OnlyNew(ls + [l]);
  }

  // ------------------------------------------------- what stays pending

  /** A stuck entry stays pending for the rest of the run. */
  lemma {:induction false} StuckForever(s: State, ls: seq<Label>, id: nat)
    requires Inv(s) && Stuck(s, id) && Run(s, ls).Some? && OnlyNew(ls)
    ensures Stuck(Run(s, ls).value, id)
    decreases |ls|
  {
    if ls != [] {
      assert ls[0] in ls;
      StepKeepsInv(s, ls[0]);
      StuckStep(s, ls[0], id);
      StuckForever(Next(s, ls[0]).value, ls[1..], id);
    }
  }

  lemma StuckStep(s: State, l: Label, id: nat)
    requires Inv(s) && Stuck(s, id) && Next(s, l).Some? && !l.Redeliver?
    ensures Stuck(Next(s, l).value, id)
  {
    if l.Act? {
      ActHasShape(s, l.w, l.out, l.clock);
      assert Ahead(s, l.w, s.workers[l.w].done);
    }
  }

  /** When a worker gives up a batch, its entries from the failing one on are stuck, but for one whose
      ack took effect and lost its reply; when it skips a malformed entry, that entry is. */
  lemma LeftBehind(s: State, l: Label, w: nat, i: nat)
    requires Inv(s) && Next(s, l).Some? && Ahead(s, w, i) && (l == Crash(w) || (l.Act? && l.w == w))
    ensures var t := Next(s, l).value; var b := s.workers[w];
      && (t.workers[w] == Failed(b) ==>
            (Stuck(t, b.batch[i]) <==> !(i == b.done && b.stage.AtAck? && l.Act? && l.out == Lost)))
      && (b.stage.AtClaim? && l.Act? && s.stream[Entry(s, w)].code == "" ==> Stuck(t, Entry(s, w)))
  {
    var t, b := Next(s, l).value, s.workers[w];
    assert Ahead(s, w, b.done);
    HandsShrink(s, l, w);
    PendingAfter(s, l, w);
    if t.workers[w] == Failed(b) {
      OutOfHands(s, t, w, i);
    }
    if t.workers[w] == Handled(b) {
      OutOfHands(s, t, w, b.done);
    }
  }

  /** An entry that a worker has let go of is in nobody's hands. */
  lemma OutOfHands(s: State, t: State, w: nat, i: nat)
    requires Inv(s) && Ahead(s, w, i) && w in t.workers
    requires t.workers[w] == Failed(s.workers[w]) || (t.workers[w] == Handled(s.workers[w]) && i == s.workers[w].done)
    requires forall v: nat, j: nat | Ahead(t, v, j) ::
      Ahead(s, v, j) && t.workers[v].batch[j] == s.workers[v].batch[j]
    ensures forall v: nat, j: nat | Ahead(t, v, j) :: t.workers[v].batch[j] != s.workers[w].batch[i]
  {
    forall v: nat, j: nat | Ahead(t, v, j) ensures t.workers[v].batch[j] != s.workers[w].batch[i] {
      assert Ahead(s, v, j);
    }
  }

  /** Only an ack that takes effect takes an entry out of the pending set. */
  lemma PendingAfter(s: State, l: Label, w: nat)
    requires Next(s, l).Some? && AtWork(s, w) && (l == Crash(w) || (l.Act? && l.w == w))
    ensures var t := Next(s, l).value; var b := s.workers[w]; var acked := l.Act? && b.stage.AtAck? && l.out != Fail;
      && t.cursor == s.cursor && t.pending == (if acked then s.pending - {Entry(s, w)} else s.pending)
      && (acked && l.out == Ok ==> t.workers[w] == Handled(b))
      && (b.stage.AtClaim? && l.Act? && s.stream[Entry(s, w)].code == "" ==> t.workers[w] == Handled(b))
  {}

  /** A call or a crash of a worker puts no entry into anybody's hands. */
  lemma HandsShrink(s: State, l: Label, w: nat)
    requires Inv(s) && Next(s, l).Some? && AtWork(s, w) && (l == Crash(w) || (l.Act? && l.w == w))
    ensures var t := Next(s, l).value;
      forall v: nat, j: nat | Ahead(t, v, j) :: Ahead(s, v, j) && t.workers[v].batch[j] == s.workers[v].batch[j]
  {
    var t := Next(s, l).value;
    if l.Act? {
      ActHasShape(s, w, l.out, l.clock);
    }
    forall v: nat, j: nat | Ahead(t, v, j) ensures Ahead(s, v, j) && t.workers[v].batch[j] == s.workers[v].batch[j] {}
  }

  /** Entries that Redis delivered in a reply that was lost are stuck at once. */
  lemma LostReadIsStuck(s: State, w: nat, k: nat)
    requires Inv(s) && Idle(s, w) && s.cursor <= k < Next(s, Read(w, Lost)).value.cursor
    ensures Stuck(Next(s, Read(w, Lost)).value, k)
  {
    var t := Next(s, Read(w, Lost)).value;
    ReadStep(s, w, Lost);
    assert k in t.pending by { assert k !in t.acked; }
    forall v: nat, j: nat | Ahead(t, v, j) ensures t.workers[v].batch[j] != k {
      assert Ahead(s, v, j);
    }
  }

  /** What is pending is exactly what is stuck or still in some worker's hands. */
  lemma PendingExactly(s: State, k: nat)
    requires Inv(s)
    ensures k in s.pending <==> Stuck(s, k) || exists w: nat, i: nat :: Ahead(s, w, i) && s.workers[w].batch[i] == k
  {
    forall w: nat, i: nat | Ahead(s, w, i) && s.workers[w].batch[i] == k ensures k in s.pending {
      assert k < s.cursor && k !in s.acked;
    }
  }
}
