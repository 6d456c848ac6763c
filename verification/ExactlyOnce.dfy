/** What at-most-once becomes when nothing goes wrong: every delivered event counts, exactly once, whatever
    the batches and however many workers share them (internal/consumer/consumer.go, ProcessOnce and handle). */
module ExactlyOnce {
  import opened Common
  import opened Schema
  import opened Ledger
  import opened Analytics
  import opened Delivery
  import Base62
  import CodeSpace

  /** The event's code names the key's row, and the key is the total or the event's own referrer. */
  predicate Concerns(rows: map<nat, Row>, e: Event, k: Key) {
    && k.url in rows && rows[k.url].code == Some(e.code)
    && (k.dim.Total? || (e.referrer != "" && k.dim == Referrer(e.referrer)))
  }

  /** The event falls on this UTC day. */
  predicate OnDay(e: Event, day: int) {
    e.ts.Some? && day * 86400 <= e.ts.value < (day + 1) * 86400
  }

  /** The event counts towards the key. */
  predicate Matches(rows: map<nat, Row>, e: Event, k: Key) {
    OnDay(e, k.day) && Concerns(rows, e, k)
  }

  /** A one-pass group-by: how many events of stream[lo..hi] count towards the key. */
  function Tally(rows: map<nat, Row>, stream: seq<Event>, lo: nat, hi: nat, k: Key): nat
    requires hi <= |stream|
  {
    if hi <= lo then 0
    else Tally(rows, stream, lo, hi - 1, k) + if Matches(rows, stream[hi - 1], k) then 1 else 0
  }

  lemma {:induction false} TallyJoin(rows: map<nat, Row>, stream: seq<Event>, lo: nat, mid: nat, hi: nat, k: Key)
    requires lo <= mid <= hi <= |stream|
    ensures Tally(rows, stream, lo, hi, k) == Tally(rows, stream, lo, mid, k) + Tally(rows, stream, mid, hi, k)
    decreases hi
  {
    if mid < hi {
      TallyJoin(rows, stream, lo, mid, hi - 1, k);
    }
  }

  /** The counters went from `before` to `after` by a group-by over stream[lo..hi]. */
  ghost predicate Tallied(rows: map<nat, Row>, stream: seq<Event>, lo: nat, hi: nat,
                          before: map<Key, nat>, after: map<Key, nat>)
    requires hi <= |stream|
  {
    forall k: Key :: Count(after, k) == Count(before, k) + Tally(rows, stream, lo, hi, k)
  }

  /** Where a batch ends makes no difference. */
  lemma TalliedJoin(rows: map<nat, Row>, stream: seq<Event>, lo: nat, mid: nat, hi: nat,
                    before: map<Key, nat>, middle: map<Key, nat>, after: map<Key, nat>)
    requires lo <= mid <= hi <= |stream|
    requires Tallied(rows, stream, lo, mid, before, middle) && Tallied(rows, stream, mid, hi, middle, after)
    ensures Tallied(rows, stream, lo, hi, before, after)
  {
    forall k: Key ensures Count(after, k) == Count(before, k) + Tally(rows, stream, lo, hi, k) {
      TallyJoin(rows, stream, lo, mid, hi, k);
    }
  }

  // ------------------------------------------------- what has been paid for an event

  ghost predicate NonePaid(log: seq<Hit>, id: nat) {
    forall k: Key :: Hit(id, k) !in log
  }

  ghost predicate OnlyPaid(log: seq<Hit>, id: nat, only: Key) {
    forall k: Key :: Hit(id, k) in log <==> k == only
  }

  ghost predicate AllPaid(rows: map<nat, Row>, e: Event, log: seq<Hit>, id: nat) {
    forall k: Key :: Hit(id, k) in log <==> Matches(rows, e, k)
  }

  /** The event's link is live, and the day is the event's. */
  predicate Home(rows: map<nat, Row>, e: Event, url: nat, day: int) {
    url in rows && rows[url].code == Some(e.code) && OnDay(e, day)
  }

  /** What has been paid for entry `id` when `handle` is at this stage of it. */
  ghost predicate Paid(t: State, id: nat, stage: Stage)
    requires id < |t.stream|
  {
    var e, rows := t.stream[id], t.space.db.rows;
    && (stage.AtClaim? || e.code != "")
    && match stage
    case AtClaim => id !in t.space.db.claims && NonePaid(t.log, id)
    case AtLookup(day) => OnDay(e, day) && NonePaid(t.log, id)
    case AtTotal(url, day) => Home(rows, e, url, day) && NonePaid(t.log, id)
    case AtReferrer(url, day) =>
      Home(rows, e, url, day) && e.referrer != "" && OnlyPaid(t.log, id, Key(url, day, Total))
    case AtAck => AllPaid(rows, e, t.log, id)
  }

  /** Handled: paid in full and, unless it is malformed, acknowledged. */
  ghost predicate Done(t: State, id: nat)
    requires id < |t.stream|
  {
    AllPaid(t.space.db.rows, t.stream[id], t.log, id) && (id in t.acked <==> t.stream[id].code != "")
  }

  function StageOf(b: Worker, i: nat): Stage {
    if b.Busy? && i == b.done then b.stage else AtClaim
  }

  ghost predicate InHand(t: State, id: nat) {
    exists w: nat, i: nat :: Ahead(t, w, i) && t.workers[w].batch[i] == id
  }

  ghost predicate Quiet(t: State) {
    forall w | w in t.workers :: t.workers[w].Returned?
  }

  /** From `base` on, every event comes with a time. */
  ghost predicate Stamped(stream: seq<Event>, base: nat) {
    forall k | 0 <= k < |stream| && base <= k :: stream[k].ts.Some?
  }

  /** Since `s`, when nobody was at work, every entry delivered is in hand and paid for as far as its stage
      says, or done; and nothing else has been paid or acknowledged. */
  ghost predicate Exact(s: State, t: State) {
    && s.cursor <= t.cursor <= |t.stream| && Stamped(t.stream, s.cursor)
    && s.space.db.rows == t.space.db.rows && s.stream <= t.stream
    && (forall w: nat, i: nat | Ahead(t, w, i) ::
          && s.cursor <= t.workers[w].batch[i] < |t.stream|
          && Paid(t, t.workers[w].batch[i], StageOf(t.workers[w], i)))
    && (forall id: nat | s.cursor <= id < t.cursor :: InHand(t, id) || Done(t, id))
    && (forall h: Hit | h.event < s.cursor :: h in t.log <==> h in s.log)
    && (forall id | id < s.cursor :: id in t.acked <==> id in s.acked)
  }

  // ------------------------------------------------- one call

  /** A smooth call of worker w: it touches no entry but its own, for which it pays at most one counter,
      and leaves that entry paid for as its new stage says, or done. */
  ghost predicate CallShape(s: State, t: State, w: nat)
    requires AtWork(s, w) && Entry(s, w) < |s.stream|
  {
    var b, id := s.workers[w], Entry(s, w);
    && t.stream == s.stream && t.cursor == s.cursor && t.space.db.rows == s.space.db.rows
    && w in t.workers && t.workers == s.workers[w := t.workers[w]]
    && (forall h: Hit | h.event != id :: h in t.log <==> h in s.log)
    && (forall k | k != id :: (k in t.acked <==> k in s.acked) && (k in t.space.db.claims <==> k in s.space.db.claims))
    && ((t.workers[w] == Handled(b) && Done(t, id)) ||
        exists stage :: t.workers[w] == b.(stage := stage) && Paid(t, id, stage))
  }

  lemma NoEmptyCode(space: CodeSpace.State, url: nat)
    requires CodeSpace.Inv(space) && url in space.db.rows
    ensures space.db.rows[url].code != Some("")
  {
    Base62.EncodeRoundTrip(url);
  }

  lemma ClaimShape(s: State, w: nat, clock: int)
    requires CodeSpace.Inv(s.space) && AtWork(s, w) && Entry(s, w) < |s.stream| && s.workers[w].stage.AtClaim?
    requires Paid(s, Entry(s, w), AtClaim) && Entry(s, w) !in s.acked && s.stream[Entry(s, w)].ts.Some?
    ensures CallShape(s, Advance(s, w, Ok, clock), w)
  {
    var id, t := Entry(s, w), Advance(s, w, Ok, clock);
    if s.stream[id].code == "" {
      forall k: Key ensures !Matches(s.space.db.rows, s.stream[id], k) {
        if k.url in s.space.db.rows { NoEmptyCode(s.space, k.url); }
      }
    } else {
      assert Paid(t, id, AtLookup(DayOf(s.stream[id], clock)));
    }
  }

  lemma LookupShape(s: State, w: nat, day: int, clock: int)
    requires CodeSpace.Inv(s.space) && AtWork(s, w) && Entry(s, w) < |s.stream| && s.workers[w].stage == AtLookup(day)
    requires Paid(s, Entry(s, w), AtLookup(day))
    ensures CallShape(s, Advance(s, w, Ok, clock), w)
  {
    var id, t := Entry(s, w), Advance(s, w, Ok, clock);
    assert Paid(t, id, t.workers[w].stage);
  }

  lemma OnePaid(log: seq<Hit>, id: nat, k: Key)
    ensures NonePaid(log, id) ==> OnlyPaid(log + [Hit(id, k)], id, k)
    ensures forall h | h != Hit(id, k) :: h in log + [Hit(id, k)] <==> h in log
  {}

  lemma TotalShape(s: State, w: nat, url: nat, day: int, clock: int)
    requires CodeSpace.Inv(s.space) && AtWork(s, w) && Entry(s, w) < |s.stream|
    requires s.workers[w].stage == AtTotal(url, day) && Paid(s, Entry(s, w), AtTotal(url, day))
    ensures CallShape(s, Advance(s, w, Ok, clock), w)
  {
    var id, t := Entry(s, w), Advance(s, w, Ok, clock);
    OnePaid(s.log, id, Key(url, day, Total));
    assert Paid(t, id, t.workers[w].stage);
  }

  lemma ReferrerShape(s: State, w: nat, url: nat, day: int, clock: int)
    requires CodeSpace.Inv(s.space) && AtWork(s, w) && Entry(s, w) < |s.stream|
    requires s.workers[w].stage == AtReferrer(url, day) && Paid(s, Entry(s, w), AtReferrer(url, day))
    ensures CallShape(s, Advance(s, w, Ok, clock), w)
  {
    var id, t := Entry(s, w), Advance(s, w, Ok, clock);
    OnePaid(s.log, id, Key(url, day, Referrer(s.stream[id].referrer)));
    assert Paid(t, id, AtAck);
  }

  lemma AckShape(s: State, w: nat, clock: int)
    requires AtWork(s, w) && Entry(s, w) < |s.stream| && s.workers[w].stage.AtAck?
    requires Paid(s, Entry(s, w), AtAck)
    ensures CallShape(s, Advance(s, w, Ok, clock), w)
  {}

  // ------------------------------------------------- every smooth run

  /** Nobody else has the entry, so nobody else's entries are touched. */
  lemma CallKeepsExact(s: State, t: State, u: State, w: nat)
    requires Delivery.Inv(t) && Exact(s, t) && AtWork(t, w) && Entry(t, w) < |t.stream| && CallShape(t, u, w)
    ensures Exact(s, u)
  {
    var b, id := t.workers[w], Entry(t, w);
    assert Ahead(t, w, b.done);
    forall v: nat, i: nat | Ahead(u, v, i)
      ensures s.cursor <= u.workers[v].batch[i] < |u.stream| && Paid(u, u.workers[v].batch[i], StageOf(u.workers[v], i))
    {
      HandKept(s, t, u, w, v, i);
    }
    forall k: nat | s.cursor <= k < u.cursor ensures InHand(u, k) || Done(u, k) {
      if k != id {
        if InHand(t, k) {
          var v: nat, i: nat :| Ahead(t, v, i) && t.workers[v].batch[i] == k;
          assert Ahead(u, v, i);
        }
      } else if u.workers[w] != Handled(b) {
        assert Ahead(u, w, b.done);
      }
    }
  }

  lemma HandKept(s: State, t: State, u: State, w: nat, v: nat, i: nat)
    requires Delivery.Inv(t) && Exact(s, t) && AtWork(t, w) && Entry(t, w) < |t.stream| && CallShape(t, u, w)
    requires Ahead(u, v, i)
    ensures s.cursor <= u.workers[v].batch[i] < |u.stream| && Paid(u, u.workers[v].batch[i], StageOf(u.workers[v], i))
  {
    assert Ahead(t, w, t.workers[w].done) && Ahead(t, v, i);
  }

  lemma ActExact(s: State, t: State, w: nat, clock: int)
    requires CodeSpace.Inv(t.space) && Delivery.Inv(t) && Exact(s, t) && Next(t, Act(w, Ok, clock)).Some?
    ensures Exact(s, Next(t, Act(w, Ok, clock)).value)
  {
    var b, id := t.workers[w], Entry(t, w);
    assert Ahead(t, w, b.done);
    match b.stage {
      case AtClaim => ClaimShape(t, w, clock);
      case AtLookup(day) => LookupShape(t, w, day, clock);
      case AtTotal(url, day) => TotalShape(t, w, url, day, clock);
      case AtReferrer(url, day) => ReferrerShape(t, w, url, day, clock);
      case AtAck => AckShape(t, w, clock);
    }
    CallKeepsExact(s, t, Next(t, Act(w, Ok, clock)).value, w);
  }

  /** Entries delivered for the first time have no claim, so nothing has been paid for them. */
  lemma ReadExact(s: State, t: State, w: nat)
    requires Analytics.Inv(t) && Delivery.Inv(t) && Exact(s, t) && Next(t, Read(w, Ok)).Some?
    ensures Exact(s, Next(t, Read(w, Ok)).value)
  {
    var u := Next(t, Read(w, Ok)).value;
    forall v: nat, i: nat | Ahead(u, v, i)
      ensures s.cursor <= u.workers[v].batch[i] < |u.stream| && Paid(u, u.workers[v].batch[i], StageOf(u.workers[v], i))
    {
      if v == w {
        Unclaimed(t, u.workers[v].batch[i]);
      } else {
        assert Ahead(t, v, i);
      }
    }
    forall k: nat | s.cursor <= k < u.cursor ensures InHand(u, k) || Done(u, k) {
      if k < t.cursor && InHand(t, k) {
        var v: nat, i: nat :| Ahead(t, v, i) && t.workers[v].batch[i] == k;
        assert Ahead(u, v, i);
      } else if k >= t.cursor {
        assert Ahead(u, w, k - t.cursor) && u.workers[w].batch[k - t.cursor] == k;
      }
    }
  }

  lemma Unclaimed(t: State, id: nat)
    requires Analytics.Inv(t) && Delivery.Inv(t) && id >= t.cursor
    ensures id !in t.space.db.claims && NonePaid(t.log, id)
  {
    assert forall h | h in t.log :: HitOk(t, h);
  }

  lemma PublishExact(s: State, t: State, e: Event)
    requires Exact(s, t) && e.ts.Some?
    ensures Exact(s, Next(t, Publish(e)).value)
  {
    var u := Next(t, Publish(e)).value;
    forall v: nat, i: nat | Ahead(u, v, i)
      ensures s.cursor <= u.workers[v].batch[i] < |u.stream| && Paid(u, u.workers[v].batch[i], StageOf(u.workers[v], i))
    {
      assert Ahead(t, v, i);
    }
    forall k: nat | s.cursor <= k < u.cursor ensures InHand(u, k) || Done(u, k) {
      if InHand(t, k) {
        var v: nat, i: nat :| Ahead(t, v, i) && t.workers[v].batch[i] == k;
        assert Ahead(u, v, i);
      }
    }
  }

  lemma StepKeepsExact(s: State, t: State, l: Label)
    requires Analytics.Inv(t) && Delivery.Inv(t) && Exact(s, t) && Smooth(l) && Next(t, l).Some?
    ensures Exact(s, Next(t, l).value)
  {
    match l
    case Publish(e) => PublishExact(s, t, e);
    case Read(w, _) => ReadExact(s, t, w);
    case Act(w, _, clock) => ActExact(s, t, w, clock);
  }

  lemma {:induction false} SmoothRunIsExact(s: State, t: State, ls: seq<Label>)
    requires Analytics.Inv(t) && Delivery.Inv(t) && Exact(s, t) && AllSmooth(ls) && Run(t, ls).Some?
    ensures Exact(s, Run(t, ls).value)
    ensures Analytics.Inv(Run(t, ls).value) && Delivery.Inv(Run(t, ls).value)
    decreases |ls|
  {
    if ls != [] {
      assert ls[0] in ls;
      Analytics.StepKeepsInv(t, ls[0]);
      Delivery.StepKeepsInv(t, ls[0]);
      StepKeepsExact(s, t, ls[0]);
      SmoothRunIsExact(s, Next(t, ls[0]).value, ls[1..]);
    }
  }

  lemma ExactAtStart(s: State)
    requires Delivery.Inv(s) && Quiet(s) && Stamped(s.stream, s.cursor)
    ensures Exact(s, s)
  {}

  // ------------------------------------------------- the counters at the end

  /** The events of stream[lo..hi] that count towards the key. */
  function Group(rows: map<nat, Row>, stream: seq<Event>, lo: nat, hi: nat, k: Key): set<nat>
    requires hi <= |stream|
  {
    set id: nat | id < hi && lo <= id && Matches(rows, stream[id], k)
  }

  lemma {:induction false} GroupIsTally(rows: map<nat, Row>, stream: seq<Event>, lo: nat, hi: nat, k: Key)
    requires lo <= hi <= |stream|
    ensures |Group(rows, stream, lo, hi, k)| == Tally(rows, stream, lo, hi, k)
    decreases hi
  {
    if lo < hi {
      GroupIsTally(rows, stream, lo, hi - 1, k);
      assert Group(rows, stream, lo, hi, k) ==
             Group(rows, stream, lo, hi - 1, k) + if Matches(rows, stream[hi - 1], k) then {hi - 1} else {};
    } else {
      assert Group(rows, stream, lo, hi, k) == {};
    }
  }

  /** With nobody at work, the events credited to a counter are those credited before and the matching ones since. */
  lemma EventsSince(s: State, t: State, k: Key)
    requires Exact(s, t) && Quiet(t)
    requires (forall h | h in s.log :: h.event < s.cursor) && (forall h | h in t.log :: h.event < t.cursor)
    ensures Events(t.log, k) == Events(s.log, k) + Group(t.space.db.rows, t.stream, s.cursor, t.cursor, k)
  {
    forall id: nat | s.cursor <= id < t.cursor ensures Done(t, id) {
      assert !InHand(t, id);
    }
    var since := Group(t.space.db.rows, t.stream, s.cursor, t.cursor, k);
    forall id: nat ensures id in Events(t.log, k) <==> id in Events(s.log, k) || id in since {
      assert id in Events(t.log, k) <==> Hit(id, k) in t.log;
      assert id in Events(s.log, k) <==> Hit(id, k) in s.log;
      assert Hit(id, k).event == id;
      if s.cursor <= id < t.cursor {
        assert Done(t, id);
      }
    }
  }

  lemma CreditedAreDelivered(s: State)
    requires Analytics.Inv(s) && Delivery.Inv(s)
    ensures forall h | h in s.log :: h.event < s.cursor
  {
    assert forall h | h in s.log :: HitOk(s, h);
  }

  lemma CountsSince(s: State, t: State, k: Key)
    requires Analytics.Inv(s) && Delivery.Inv(s) && Analytics.Inv(t) && Delivery.Inv(t) && Exact(s, t) && Quiet(t)
    ensures Count(t.space.db.counts, k) ==
            Count(s.space.db.counts, k) + Tally(t.space.db.rows, t.stream, s.cursor, t.cursor, k)
  {
    var since := Group(t.space.db.rows, t.stream, s.cursor, t.cursor, k);
    GroupIsTally(t.space.db.rows, t.stream, s.cursor, t.cursor, k);
    CreditedAreDelivered(s);
    CreditedAreDelivered(t);
    if k.url in t.space.db.rows {
      EventsSince(s, t, k);
      assert Events(s.log, k) !! since;
    } else {
      assert since == {};
    }
  }

  function Malformed(stream: seq<Event>, lo: nat, hi: nat): set<nat>
    requires hi <= |stream|
  {
    set id: nat | id < hi && lo <= id && stream[id].code == ""
  }

  /** From any state that runs reach and in which nobody is at work, over every smooth run to another such state,
      with any number of workers sharing the batches: the counters go up by exactly a group-by over what was
      delivered since, and of that only malformed entries stay pending. */
  lemma SmoothlyCounted(s: State, ls: seq<Label>, t: State)
    requires Analytics.Inv(s) && Delivery.Inv(s) && AllSmooth(ls) && Run(s, ls) == Some(t)
    requires Quiet(s) && Quiet(t) && Stamped(s.stream, s.cursor)
    ensures s.space.db.rows == t.space.db.rows && s.stream <= t.stream && s.cursor <= t.cursor <= |t.stream|
    ensures Tallied(t.space.db.rows, t.stream, s.cursor, t.cursor, s.space.db.counts, t.space.db.counts)
    ensures t.pending == s.pending + Malformed(t.stream, s.cursor, t.cursor)
  {
    ExactAtStart(s);
    SmoothRunIsExact(s, s, ls);
    forall k: Key ensures Count(t.space.db.counts, k) ==
      Count(s.space.db.counts, k) + Tally(t.space.db.rows, t.stream, s.cursor, t.cursor, k)
    {
      CountsSince(s, t, k);
    }
    PendingSince(s, t);
  }

  lemma PendingSince(s: State, t: State)
    requires Delivery.Inv(s) && Delivery.Inv(t) && Exact(s, t) && Quiet(t)
    ensures t.pending == s.pending + Malformed(t.stream, s.cursor, t.cursor)
  {
    forall id: nat | s.cursor <= id < t.cursor ensures Done(t, id) {
      assert !InHand(t, id);
    }
    var rest := Malformed(t.stream, s.cursor, t.cursor);
    forall id: nat ensures id in t.pending <==> id in s.pending || id in rest {
      assert id in t.pending <==> id < t.cursor && id !in t.acked;
      assert id in s.pending <==> id < s.cursor && id !in s.acked;
      assert s.cursor <= id < t.cursor ==> Done(t, id);
    }
  }

  /** Exactly once. In every run from an empty group in which every call answers and nobody crashes, redelivers or
      changes the table, with any number of workers: once all has been delivered and nobody is at work, every
      counter is the number of events that match it, and nothing but malformed entries is pending. */
  lemma EveryEventCountsOnce(s: State, ls: seq<Label>, t: State)
    requires Analytics.Initial(s) && Stamped(s.stream, 0) && AllSmooth(ls) && Run(s, ls) == Some(t)
    requires t.cursor == |t.stream| && Quiet(t)
    ensures forall k: Key :: Count(t.space.db.counts, k) == Tally(t.space.db.rows, t.stream, 0, |t.stream|, k)
    ensures t.pending == Malformed(t.stream, 0, |t.stream|)
  {
    Analytics.InitialInv(s);
    Delivery.InitialInv(s);
    SmoothlyCounted(s, ls, t);
  }
}
