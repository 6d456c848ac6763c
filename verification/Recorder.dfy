/** internal/analytics/recorder.go: a bounded buffer in front of the event stream. */
module Recorder {
  import opened Common
  import Analytics

  type Event = Analytics.Event

  const BUFFER_SIZE := 4096

  /** The channel, the event the writer has taken from it, the stream, and the three counters;
      then history: every Push, those accepted, those of them whose XADD has been tried, and how it ended. */
  datatype Pipe = Pipe(
    buffer: seq<Event>, hand: Option<Event>, stream: seq<Event>, dropped: nat, published: nat, failed: nat,
    pushed: seq<Event>, accepted: seq<Event>, tried: seq<Event>, fates: seq<Outcome>)

  datatype Op = Push(e: Event) | Receive | Add(out: Outcome)

  const EMPTY := Pipe([], None, [], 0, 0, 0, [], [], [], [])

  function Step(p: Pipe, op: Op): Option<Pipe> {
    match op
    case Push(e) =>
      var q := p.(pushed := p.pushed + [e]);
      Some(if |p.buffer| < BUFFER_SIZE then q.(buffer := p.buffer + [e], accepted := p.accepted + [e])
           else q.(dropped := p.dropped + 1))
    case Receive =>
      if p.hand.Some? || p.buffer == [] then None
      else Some(p.(buffer := p.buffer[1..], hand := Some(p.buffer[0])))
    case Add(out) =>
      if p.hand.None? then None
      else
        var q := p.(hand := None, tried := p.tried + [p.hand.value], fates := p.fates + [out],
                    stream := if out == Fail then p.stream else p.stream + [p.hand.value]);
        Some(if out == Ok then q.(published := p.published + 1) else q.(failed := p.failed + 1))
  }

  function Steps(p: Pipe, ops: seq<Op>): Option<Pipe>
    decreases |ops|
  {
    if ops == [] then Some(p)
    else
      var q := Step(p, ops[0]);
      if q.None? then None else Steps(q.value, ops[1..])
  }

  /** The accepted events that have still to be tried, the one in hand first. */
  function Waiting(p: Pipe): seq<Event> {
    if p.hand.Some? then [p.hand.value] + p.buffer else p.buffer
  }

  /** The events whose XADD reached the stream, in order. */
  function Kept(es: seq<Event>, fates: seq<Outcome>): seq<Event>
    requires |es| == |fates|
  {
    if es == [] then []
    else
      var n := |es| - 1;
      Kept(es[..n], fates[..n]) + if fates[n] == Fail then [] else [es[n]]
  }

  function CountCode(es: seq<Event>, code: string): nat {
    if es == [] then 0
    else CountCode(es[..|es| - 1], code) + if es[|es| - 1].code == code then 1 else 0
  }

  function CountFates(fates: seq<Outcome>, out: Outcome): nat {
    if fates == [] then 0
    else CountFates(fates[..|fates| - 1], out) + if fates[|fates| - 1] == out then 1 else 0
  }

  /** The accepted events have been tried or wait, in that order; the stream has what is left of the tried ones. */
  ghost predicate InOrder(accepted: seq<Event>, tried: seq<Event>, fates: seq<Outcome>, waiting: seq<Event>,
                          stream: seq<Event>)
  {
    accepted == tried + waiting && |tried| == |fates| && stream == Kept(tried, fates)
  }

  ghost predicate Covered(stream: seq<Event>, waiting: seq<Event>, pushed: seq<Event>) {
    forall c :: CountCode(stream, c) + CountCode(waiting, c) <= CountCode(pushed, c)
  }

  /** No event is lost track of, and order is kept. */
  ghost predicate Inv(p: Pipe) {
    && |p.buffer| <= BUFFER_SIZE
    && |p.pushed| == p.dropped + |Waiting(p)| + p.published + p.failed
    && |p.fates| == p.published + p.failed && p.published == CountFates(p.fates, Ok)
    && InOrder(p.accepted, p.tried, p.fates, Waiting(p), p.stream)
    && Covered(p.stream, Waiting(p), p.pushed)
  }

  lemma {:induction false} CountJoin(a: seq<Event>, b: seq<Event>, code: string)
    ensures CountCode(a + b, code) == CountCode(a, code) + CountCode(b, code)
    decreases |b|
  {
    if b == [] {
      assert a + b == a;
    } else {
      var n := |b| - 1;
      CountJoin(a, b[..n], code);
      assert (a + b)[..|a + b| - 1] == a + b[..n];
    }
  }

  /** One event counts once for its own code. */
  lemma CountOne(es: seq<Event>, e: Event, code: string)
    ensures CountCode(es + [e], code) == CountCode([e] + es, code) ==
            CountCode(es, code) + if e.code == code then 1 else 0
  {
    CountJoin(es, [e], code);
    CountJoin([e], es, code);
    assert [e][..0] == [];
  }

  lemma OrderAfterPush(accepted: seq<Event>, tried: seq<Event>, fates: seq<Outcome>, waiting: seq<Event>,
                       stream: seq<Event>, e: Event)
    requires InOrder(accepted, tried, fates, waiting, stream)
    ensures InOrder(accepted + [e], tried, fates, waiting + [e], stream)
  {
    assert tried + (waiting + [e]) == tried + waiting + [e];
  }

  lemma CoveredAfterPush(stream: seq<Event>, waiting: seq<Event>, pushed: seq<Event>, e: Event)
    requires Covered(stream, waiting, pushed)
    ensures Covered(stream, waiting, pushed + [e]) && Covered(stream, waiting + [e], pushed + [e])
  {
    forall c
      ensures CountCode(pushed + [e], c) == CountCode(pushed, c) + if e.code == c then 1 else 0
      ensures CountCode(waiting + [e], c) == CountCode(waiting, c) + if e.code == c then 1 else 0
    {
      CountOne(pushed, e, c);
      CountOne(waiting, e, c);
    }
  }

  lemma KeptNext(es: seq<Event>, fates: seq<Outcome>, e: Event, out: Outcome)
    requires |es| == |fates|
    ensures Kept(es + [e], fates + [out]) == Kept(es, fates) + if out == Fail then [] else [e]
  {
    assert (es + [e])[..|es|] == es && (fates + [out])[..|es|] == fates;
  }

  lemma OrderAfterAdd(accepted: seq<Event>, tried: seq<Event>, fates: seq<Outcome>, e: Event, rest: seq<Event>,
                      stream: seq<Event>, out: Outcome)
    requires InOrder(accepted, tried, fates, [e] + rest, stream)
    ensures InOrder(accepted, tried + [e], fates + [out], rest, if out == Fail then stream else stream + [e])
  {
    assert tried + ([e] + rest) == tried + [e] + rest;
    KeptNext(tried, fates, e, out);
  }

  lemma CoveredAfterAdd(stream: seq<Event>, e: Event, rest: seq<Event>, pushed: seq<Event>, out: Outcome)
    requires Covered(stream, [e] + rest, pushed)
    ensures Covered(if out == Fail then stream else stream + [e], rest, pushed)
  {
    forall c
      ensures CountCode(if out == Fail then stream else stream + [e], c) + CountCode(rest, c) <= CountCode(pushed, c) {
      CountOne(rest, e, c);
      CountOne(stream, e, c);
    }
  }

  lemma PushKeeps(p: Pipe, e: Event)
    requires Inv(p)
    ensures Inv(Step(p, Push(e)).value)
  {
    var q := Step(p, Push(e)).value;
    if |p.buffer| < BUFFER_SIZE {
      assert Waiting(q) == Waiting(p) + [e];
      OrderAfterPush(p.accepted, p.tried, p.fates, Waiting(p), p.stream, e);
    }
    CoveredAfterPush(p.stream, Waiting(p), p.pushed, e);
  }

  lemma ReceiveKeeps(p: Pipe)
    requires Inv(p) && Step(p, Receive).Some?
    ensures Inv(Step(p, Receive).value)
  {
    assert Waiting(Step(p, Receive).value) == Waiting(p);
  }

  lemma AddKeeps(p: Pipe, out: Outcome)
    requires Inv(p) && Step(p, Add(out)).Some?
    ensures Inv(Step(p, Add(out)).value)
  {
    assert (p.fates + [out])[..|p.fates|] == p.fates;
    OrderAfterAdd(p.accepted, p.tried, p.fates, p.hand.value, p.buffer, p.stream, out);
    CoveredAfterAdd(p.stream, p.hand.value, p.buffer, p.pushed, out);
  }

  lemma StepKeeps(p: Pipe, op: Op)
    requires Inv(p) && Step(p, op).Some?
    ensures Inv(Step(p, op).value)
  {
    match op
    case Push(e) => PushKeeps(p, e);
    case Receive => ReceiveKeeps(p);
    case Add(out) => AddKeeps(p, out);
  }

  lemma Tried(p: Pipe, q: Pipe, r: Pipe, out: Outcome)
    requires Step(p, Receive) == Some(q) && Step(q, Add(out)) == Some(r)
    ensures r.hand == None && r.buffer == p.buffer[1..] && |r.fates| == |p.fates| + 1
    ensures r.pushed == p.pushed && r.accepted == p.accepted
  {}

  lemma StreamWithinPushed(p: Pipe, code: string)
    requires Inv(p)
    ensures CountCode(p.stream, code) <= CountCode(p.pushed, code)
  {}

  lemma InitialInv()
    ensures Inv(EMPTY)
  {}

  /** For every interleaving of pushes with the writer: every push is accounted for, a push fails only
      on a full buffer of 4096, and the stream is what became of the accepted events, in their order. */
  lemma {:induction false} RecorderConservation(p: Pipe, ops: seq<Op>)
    requires Inv(p) && Steps(p, ops).Some?
    ensures var q := Steps(p, ops).value;
      && |q.buffer| <= 4096 && q.published == CountFates(q.fates, Ok)
      && |q.pushed| == q.dropped + |q.buffer| + (if q.hand.Some? then 1 else 0) + q.published + q.failed
      && q.accepted == q.tried + Waiting(q) && |q.tried| == |q.fates| && q.stream == Kept(q.tried, q.fates)
    ensures Inv(Steps(p, ops).value)
    decreases |ops|
  {
    if ops != [] {
      StepKeeps(p, ops[0]);
      RecorderConservation(Step(p, ops[0]).value, ops[1..]);
    }
  }

  /** Every XADD that did not fail left its event in the stream. */
  lemma {:induction false} KeptAll(es: seq<Event>, fates: seq<Outcome>)
    requires |es| == |fates|
    ensures |Kept(es, fates)| + CountFates(fates, Fail) == |fates|
    decreases |es|
  {
    if es != [] {
      KeptAll(es[..|es| - 1], fates[..|es| - 1]);
    }
  }

  /** Kept picks a subsequence: there are increasing positions in `es` where its elements come from. */
  lemma {:induction false} KeptIsSubsequence(es: seq<Event>, fates: seq<Outcome>) returns (at: seq<nat>)
    requires |es| == |fates|
    ensures |at| == |Kept(es, fates)|
    ensures forall i | 0 <= i < |at| :: at[i] < |es| && es[at[i]] == Kept(es, fates)[i] && fates[at[i]] != Fail
    ensures forall i, j | 0 <= i < j < |at| :: at[i] < at[j]
    decreases |es|
  {
    at := [];
    if es != [] {
      var n := |es| - 1;
      at := KeptIsSubsequence(es[..n], fates[..n]);
      if fates[n] != Fail {
        at := at + [n];
      }
    }
  }

  /** The process-local half of the pipeline as a program: Push runs on request goroutines,
      Receive and Add alternate on the writer's. */
  class Recorder {
    var ch: seq<Event>
    var hand: Option<Event>
    var stream: seq<Event>
    var dropped: nat
    var published: nat
    var failed: nat
    ghost var pushed: seq<Event>
    ghost var accepted: seq<Event>
    ghost var tried: seq<Event>
    ghost var fates: seq<Outcome>

    ghost function View(): Pipe
      reads this
    {
      Pipe(ch, hand, stream, dropped, published, failed, pushed, accepted, tried, fates)
    }

    constructor ()
      ensures View() == EMPTY
    {
      ch, hand, stream, dropped, published, failed := [], None, [], 0, 0, 0;
      pushed, accepted, tried, fates := [], [], [], [];
    }

    /** Push never blocks; it returns false exactly when the buffer is full. */
    method PushEvent(e: Event) returns (ok: bool)
      requires Inv(View())
      modifies this
      ensures Inv(View()) && Some(View()) == Step(old(View()), Push(e))
      ensures ok <==> old(|ch|) < 4096
      ensures ok ==> ch == old(ch) + [e] && dropped == old(dropped)
      ensures !ok ==> ch == old(ch) && dropped == old(dropped) + 1
    {
      PushKeeps(View(), e);
      pushed := pushed + [e];
      if |ch| < BUFFER_SIZE {
        ch, accepted := ch + [e], accepted + [e];
        return true;
      }
      dropped := dropped + 1;
      return false;
    }

    /** The writer takes the oldest event, waiting if there is none. */
    method TakeNext() returns (got: bool)
      requires Inv(View()) && hand == None
      modifies this
      ensures Inv(View()) && got == (old(ch) != [])
      ensures if got then Some(View()) == Step(old(View()), Receive) else View() == old(View())
    {
      if ch == [] { return false; }
      ReceiveKeeps(View());
      hand, ch := Some(ch[0]), ch[1..];
      assert Some(View()) == Step(old(View()), Receive);
      return true;
    }

    /** XADD of the event in hand. */
    method AddToStream(out: Outcome)
      requires Inv(View()) && hand.Some?
      modifies this
      ensures Inv(View()) && Some(View()) == Step(old(View()), Add(out))
      ensures stream == if out == Fail then old(stream) else old(stream) + [old(hand).value]
      ensures published == (if out == Ok then old(published) + 1 else old(published))
      ensures failed == if out == Ok then old(failed) else old(failed) + 1
    {
      ghost var p := View();
      if out != Fail { stream := stream + [hand.value]; }
      tried, fates := tried + [hand.value], fates + [out];
      if out == Ok { published := published + 1; } else { failed := failed + 1; }
      hand := None;
      assert Some(View()) == Step(p, Add(out));
      AddKeeps(p, out);
    }

    /** One turn of the writer's loop. */
    method TryNext(out: Outcome)
      requires Inv(View()) && hand == None && ch != []
      modifies this
      ensures Inv(View()) && hand == None && ch == old(ch)[1..]
      ensures |fates| == old(|fates|) + 1 && pushed == old(pushed) && accepted == old(accepted)
    {
      var got := TakeNext();
      ghost var q := View();
      AddToStream(out);
      Tried(old(View()), q, View(), out);
    }

    /** The writer's loop until the channel is empty: every buffered event is tried once, in order. */
    method Flush(outs: nat -> Outcome)
      requires Inv(View()) && hand == None
      modifies this
      ensures Inv(View()) && hand == None && ch == []
      ensures |fates| == old(|fates|) + old(|ch|) && pushed == old(pushed) && accepted == old(accepted)
      ensures tried == accepted && stream == Kept(accepted, fates)
    {
      while ch != []
        invariant Inv(View()) && hand == None
        invariant |fates| + |ch| == old(|fates|) + old(|ch|) && pushed == old(pushed) && accepted == old(accepted)
        decreases |ch|
      {
        TryNext(outs(|ch| - 1));
      }
      assert tried + [] == tried;
    }
  }
}
