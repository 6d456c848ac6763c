/** Any number of recorders, one per replica of the service, feeding the consumers of one stream:
    clicks counted against clicks recorded. */
module Pipeline {
  import opened Common
  import opened Ledger
  import R = Recorder
  import A = Analytics

  datatype State = State(pipes: seq<R.Pipe>, sink: A.State)

  /** A step of one recorder, whose XADD appends to the shared stream, or a step of the consumers. */
  datatype Label = Record(r: nat, op: R.Op) | Consume(l: A.Label)

  ghost function Next(s: State, l: Label): Option<State> {
    match l
    case Record(r, op) =>
      if r >= |s.pipes| then None
      else
        var p := R.Step(s.pipes[r], op);
        if p.None? then None
        else
          var t := s.(pipes := s.pipes[r := p.value]);
          if |p.value.stream| > |s.pipes[r].stream| then
            var sink := A.Next(s.sink, A.Publish(p.value.stream[|s.pipes[r].stream|]));
            if sink.None? then None else Some(t.(sink := sink.value))
          else Some(t)
    case Consume(l) =>
      var sink := A.Next(s.sink, l);
      if l.Publish? || sink.None? then None else Some(s.(sink := sink.value))
  }

  ghost function Run(s: State, ls: seq<Label>): Option<State>
    decreases |ls|
  {
    if ls == [] then Some(s)
    else
      var t := Next(s, ls[0]);
      if t.None? then None else Run(t.value, ls[1..])
  }

  predicate AllEmpty(pipes: seq<R.Pipe>) {
    forall r | 0 <= r < |pipes| :: pipes[r] == R.EMPTY
  }

  ghost predicate Initial(s: State) {
    AllEmpty(s.pipes) && A.Initial(s.sink) && s.sink.stream == []
  }

  /** What the recorders have put into the stream for a code, and what was pushed to them, all replicas together. */
  function Added(pipes: seq<R.Pipe>, code: string): nat {
    if pipes == [] then 0
    else Added(pipes[..|pipes| - 1], code) + R.CountCode(pipes[|pipes| - 1].stream, code)
  }

  function Pushed(pipes: seq<R.Pipe>, code: string): nat {
    if pipes == [] then 0
    else Pushed(pipes[..|pipes| - 1], code) + R.CountCode(pipes[|pipes| - 1].pushed, code)
  }

  lemma {:induction false} AddedAfter(pipes: seq<R.Pipe>, r: nat, p: R.Pipe, code: string)
    requires r < |pipes|
    ensures Added(pipes[r := p], code) + R.CountCode(pipes[r].stream, code) ==
            Added(pipes, code) + R.CountCode(p.stream, code)
    decreases |pipes|
  {
    var n := |pipes| - 1;
    if r < n {
      AddedAfter(pipes[..n], r, p, code);
      assert pipes[r := p][..n] == pipes[..n][r := p];
    } else {
      assert pipes[r := p][..n] == pipes[..n];
    }
  }

  lemma {:induction false} AddedWithinPushed(pipes: seq<R.Pipe>, code: string)
    requires forall r | 0 <= r < |pipes| :: R.Inv(pipes[r])
    ensures Added(pipes, code) <= Pushed(pipes, code)
    decreases |pipes|
  {
    if pipes != [] {
      AddedWithinPushed(pipes[..|pipes| - 1], code);
      R.StreamWithinPushed(pipes[|pipes| - 1], code);
    }
  }

  ghost predicate Inv(s: State) {
    && (forall r | 0 <= r < |s.pipes| :: R.Inv(s.pipes[r]))
    && A.Inv(s.sink) && A.Attributed(s.sink)
    && (forall code :: R.CountCode(s.sink.stream, code) == Added(s.pipes, code))
  }

  lemma OnlyPublishAppends(s: A.State, l: A.Label)
    requires A.Next(s, l).Some? && !l.Publish?
    ensures A.Next(s, l).value.stream == s.stream
  {}

  /** A step of a recorder adds to the stream at most the one event it publishes. */
  lemma OneIsAdded(p: R.Pipe, q: R.Pipe, op: R.Op)
    requires R.Step(p, op) == Some(q)
    ensures q.stream == p.stream || q.stream == p.stream + [q.stream[|p.stream|]]
  {}

  lemma StreamAfterRecord(s: State, r: nat, op: R.Op, code: string)
    requires Inv(s) && Next(s, Record(r, op)).Some?
    ensures R.CountCode(Next(s, Record(r, op)).value.sink.stream, code) ==
            Added(Next(s, Record(r, op)).value.pipes, code)
  {
    var p, q := s.pipes[r], R.Step(s.pipes[r], op).value;
    OneIsAdded(p, q, op);
    AddedAfter(s.pipes, r, q, code);
    if |q.stream| > |p.stream| {
      R.CountOne(s.sink.stream, q.stream[|p.stream|], code);
      R.CountOne(p.stream, q.stream[|p.stream|], code);
    }
  }

  lemma RecordStep(s: State, r: nat, op: R.Op)
    requires Inv(s) && Next(s, Record(r, op)).Some?
    ensures Inv(Next(s, Record(r, op)).value)
  {
    var t := Next(s, Record(r, op)).value;
    var p, q := s.pipes[r], R.Step(s.pipes[r], op).value;
    R.StepKeeps(p, op);
    if |q.stream| > |p.stream| {
      A.StepKeepsInv(s.sink, A.Publish(q.stream[|p.stream|]));
      A.StepKeepsAttributed(s.sink, A.Publish(q.stream[|p.stream|]));
    }
    forall code ensures R.CountCode(t.sink.stream, code) == Added(t.pipes, code) {
      StreamAfterRecord(s, r, op, code);
    }
  }

  lemma ConsumeStep(s: State, l: A.Label)
    requires Inv(s) && Next(s, Consume(l)).Some?
    ensures Inv(Next(s, Consume(l)).value)
  {
    A.StepKeepsInv(s.sink, l);
    A.StepKeepsAttributed(s.sink, l);
    OnlyPublishAppends(s.sink, l);
  }

  lemma {:induction false} RunKeepsInv(s: State, ls: seq<Label>)
    requires Inv(s) && Run(s, ls).Some?
    ensures Inv(Run(s, ls).value)
    decreases |ls|
  {
    if ls != [] {
      match ls[0] {
        case Record(r, op) => RecordStep(s, r, op);
        case Consume(l) => ConsumeStep(s, l);
      }
      RunKeepsInv(Next(s, ls[0]).value, ls[1..]);
    }
  }

  lemma {:induction false} NothingAdded(pipes: seq<R.Pipe>, code: string)
    requires AllEmpty(pipes)
    ensures Added(pipes, code) == 0
    decreases |pipes|
  {
    if pipes != [] {
      NothingAdded(pipes[..|pipes| - 1], code);
    }
  }

  lemma EmptyPipes(pipes: seq<R.Pipe>)
    requires AllEmpty(pipes)
    ensures forall r | 0 <= r < |pipes| :: R.Inv(pipes[r])
  {
    R.InitialInv();
  }

  lemma EmptySink(s: A.State)
    requires A.Initial(s)
    ensures A.Inv(s) && A.Attributed(s)
  {
    A.InitialInv(s);
  }

  lemma InitialInv(s: State)
    requires Initial(s)
    ensures Inv(s)
  {
    EmptyPipes(s.pipes);
    EmptySink(s.sink);
    forall code ensures R.CountCode(s.sink.stream, code) == Added(s.pipes, code) {
      NothingAdded(s.pipes, code);
    }
  }

  lemma {:induction false} EntriesBounded(es: seq<A.Event>, code: string, ids: set<nat>)
    requires forall k | k in ids :: k < |es| && es[k].code == code
    ensures |ids| <= R.CountCode(es, code)
    decreases |es|
  {
    if es == [] {
      assert ids == {};
    } else {
      var n := |es| - 1;
      EntriesBounded(es[..n], code, ids - {n});
    }
  }

  /** Every click counted for a link is a stream entry that carries its code. */
  lemma ClicksCarryCode(t: A.State, url: nat, code: string)
    requires A.Inv(t) && A.Attributed(t) && url in t.space.db.rows && t.space.db.rows[url].code == Some(code)
    ensures Sum(TotalCounts(t.space.db.counts, url)) <= R.CountCode(t.stream, code)
  {
    A.TotalIsClicks(t, url);
    forall k | k in ClickEvents(t.log, url) ensures k < |t.stream| && t.stream[k].code == code {
      var h :| h in t.log && h.key.url == url && h.event == k;
      assert A.Names(t, h.event, h.key.url, h.key.day);
    }
    EntriesBounded(t.stream, code, ClickEvents(t.log, url));
  }

  lemma TotalsWithinPushed(t: State, url: nat, code: string)
    requires Inv(t) && url in t.sink.space.db.rows && t.sink.space.db.rows[url].code == Some(code)
    ensures Sum(TotalCounts(t.sink.space.db.counts, url)) <= Pushed(t.pipes, code)
  {
    ClicksCarryCode(t.sink, url, code);
    AddedWithinPushed(t.pipes, code);
  }

  lemma RunIsSound(s: State, ls: seq<Label>)
    requires Initial(s) && Run(s, ls).Some?
    ensures Inv(Run(s, ls).value)
  {
    InitialInv(s);
    RunKeepsInv(s, ls);
  }

  /** Over every interleaving of pushes, stream writes, consumer steps and table changes, with any call
      failing anywhere: the totals of a live link, all days together, never exceed the pushes for its code,
      all replicas together. */
  lemma CountedWithinPushed(s: State, ls: seq<Label>, t: State, url: nat, code: string)
    requires Initial(s) && Run(s, ls) == Some(t)
    requires url in t.sink.space.db.rows && t.sink.space.db.rows[url].code == Some(code)
    ensures Sum(TotalCounts(t.sink.space.db.counts, url)) <= Pushed(t.pipes, code)
  {
    RunIsSound(s, ls);
    TotalsWithinPushed(t, url, code);
  }
}
