/** internal/repository/stats_repo.go: the read side of the counters. */
module Stats {
  import opened Common
  import opened Schema
  import opened Ledger
  import Analytics
  import CodeSpace

  datatype Daily = Daily(day: int, clicks: nat)
  datatype Refs = Refs(referrer: string, clicks: nat)
  datatype Summary = Summary(totalClicks: nat, daily: seq<Daily>, topReferrers: seq<Refs>)

  /** What a query yields: rows, and whether the iteration ends in an error. */
  datatype Rows<T> = Rows(items: seq<T>, broken: bool)

  function CountsFrom(counts: map<Key, nat>, url: nat, referrer: string): map<Key, nat> {
    counts - (set k | k in counts && !(k.url == url && k.dim == Referrer(referrer)))
  }

  predicate IsReferrer(counts: map<Key, nat>, url: nat, referrer: string) {
    exists k | k in counts :: k.url == url && k.dim == Referrer(referrer)
  }

  /** SELECT day, count ... WHERE dim = 'total' ORDER BY day. */
  ghost predicate AnswersDaily(counts: map<Key, nat>, url: nat, rows: seq<Daily>) {
    && (forall i, j | 0 <= i < j < |rows| :: rows[i].day < rows[j].day)
    && (forall r | r in rows :: Key(url, r.day, Total) in counts && counts[Key(url, r.day, Total)] == r.clicks)
    && (forall k | k in counts && k.url == url && k.dim.Total? :: Daily(k.day, counts[k]) in rows)
  }

  /** SELECT value, sum(count) ... WHERE dim = 'referrer' GROUP BY value ORDER BY total DESC LIMIT 10. */
  ghost predicate AnswersTop(counts: map<Key, nat>, url: nat, rows: seq<Refs>) {
    && |rows| <= 10
    && (forall i, j | 0 <= i < j < |rows| :: rows[i].referrer != rows[j].referrer && rows[i].clicks >= rows[j].clicks)
    && (forall r | r in rows ::
          IsReferrer(counts, url, r.referrer) && r.clicks == Sum(CountsFrom(counts, url, r.referrer)))
    && (forall v | IsReferrer(counts, url, v) && (forall r | r in rows :: r.referrer != v) ::
          |rows| == 10 && forall r | r in rows :: Sum(CountsFrom(counts, url, v)) <= r.clicks)
  }

  function Clicks(rows: seq<Daily>): nat {
    if rows == [] then 0 else rows[0].clicks + Clicks(rows[1..])
  }

  /** Without the first row's counter, the other rows are the answer. */
  lemma DailyTail(counts: map<Key, nat>, url: nat, rows: seq<Daily>)
    requires rows != [] && AnswersDaily(counts, url, rows)
    ensures AnswersDaily(counts - {Key(url, rows[0].day, Total)}, url, rows[1..])
  {
    var rest := counts - {Key(url, rows[0].day, Total)};
    forall k | k in rest && k.url == url && k.dim.Total? ensures Daily(k.day, rest[k]) in rows[1..] {
      assert Daily(k.day, counts[k]) in rows;
      assert rows == [rows[0]] + rows[1..];
    }
    forall r | r in rows[1..] ensures Key(url, r.day, Total) in rest {
      assert r in rows;
      var i :| 0 <= i < |rows[1..]| && rows[1..][i] == r;
      assert rows[0].day < rows[i + 1].day;
    }
  }

  lemma NoDays(counts: map<Key, nat>, url: nat)
    requires AnswersDaily(counts, url, [])
    ensures TotalCounts(counts, url) == map[]
  {}

  lemma FirstDay(counts: map<Key, nat>, url: nat, day: Daily, rows: seq<Daily>)
    requires AnswersDaily(counts, url, rows) && day in rows
    ensures var k := Key(url, day.day, Total); var m := TotalCounts(counts, url);
      k in m && m[k] == day.clicks && m - {k} == TotalCounts(counts - {k}, url)
  {}

  /** The rows' clicks add up to the sum over the counters they answer for. */
  lemma {:induction false} DailyAddsUp(counts: map<Key, nat>, url: nat, rows: seq<Daily>)
    requires AnswersDaily(counts, url, rows)
    ensures Clicks(rows) == Sum(TotalCounts(counts, url))
    decreases |rows|
  {
    if rows == [] {
      NoDays(counts, url);
    } else {
      var k := Key(url, rows[0].day, Total);
      DailyTail(counts, url, rows);
      DailyAddsUp(counts - {k}, url, rows[1..]);
      FirstDay(counts, url, rows[0], rows);
      SumPick(TotalCounts(counts, url), k);
    }
  }

  /** StatsByURLID. Each of its three queries answers from its own snapshot of the counters, or not
      at all. The total equals the sum of the daily rows when the first two saw the same counters. */
  method StatsByURLID(url: nat, total: Option<nat>, daily: Option<Rows<Daily>>, referrers: Option<Rows<Refs>>,
                      ghost first: map<Key, nat>, ghost second: map<Key, nat>, ghost third: map<Key, nat>)
    returns (stats: Option<Summary>)
    requires total.Some? ==> total.value == Sum(TotalCounts(first, url))
    requires daily.Some? && !daily.value.broken ==> AnswersDaily(second, url, daily.value.items)
    requires referrers.Some? && !referrers.value.broken ==> AnswersTop(third, url, referrers.value.items)
    ensures stats.Some? <==>
      total.Some? && daily.Some? && !daily.value.broken && referrers.Some? && !referrers.value.broken
    ensures stats.Some? ==>
      && stats.value.totalClicks == Sum(TotalCounts(first, url))
      && AnswersDaily(second, url, stats.value.daily)
      && AnswersTop(third, url, stats.value.topReferrers)
      && (TotalCounts(first, url) == TotalCounts(second, url) ==> stats.value.totalClicks == Clicks(stats.value.daily))
  {
    if total.None? || daily.None? { return None; }
    var days: seq<Daily> := [];
    for i := 0 to |daily.value.items|
      invariant days == daily.value.items[..i]
    {
      days := days + [daily.value.items[i]];
    }
    if daily.value.broken || referrers.None? { return None; }
    var tops: seq<Refs> := [];
    for i := 0 to |referrers.value.items|
      invariant tops == referrers.value.items[..i]
    {
      tops := tops + [referrers.value.items[i]];
    }
    if referrers.value.broken { return None; }
    DailyAddsUp(second, url, days);
    return Some(Summary(total.value, days, tops));
  }

  // ------------------------------------------------- referrers against the total

  function AllReferrers(counts: map<Key, nat>, url: nat): map<Key, nat> {
    counts - (set k | k in counts && !(k.url == url && k.dim.Referrer?))
  }

  function RefClicks(rows: seq<Refs>): nat {
    if rows == [] then 0 else rows[0].clicks + RefClicks(rows[1..])
  }

  /** Distinct referrers draw on distinct counters. */
  lemma {:induction false} ListedWithinAll(counts: map<Key, nat>, url: nat, rows: seq<Refs>)
    requires forall i, j | 0 <= i < j < |rows| :: rows[i].referrer != rows[j].referrer
    requires forall r | r in rows :: r.clicks == Sum(CountsFrom(counts, url, r.referrer))
    ensures RefClicks(rows) <= Sum(AllReferrers(counts, url))
    decreases |rows|
  {
    if rows != [] {
      var own := CountsFrom(counts, url, rows[0].referrer);
      var rest := counts - own.Keys;
      OtherRows(counts, url, rows);
      ListedWithinAll(rest, url, rows[1..]);
      SumJoin(own, AllReferrers(rest, url));
      assert own + AllReferrers(rest, url) == AllReferrers(counts, url);
      assert rows[0] in rows;
    }
  }

  /** The rows behind the first are not touched by taking its counters away. */
  lemma OtherRows(counts: map<Key, nat>, url: nat, rows: seq<Refs>)
    requires rows != [] && forall i, j | 0 <= i < j < |rows| :: rows[i].referrer != rows[j].referrer
    requires forall r | r in rows :: r.clicks == Sum(CountsFrom(counts, url, r.referrer))
    ensures var rest := counts - CountsFrom(counts, url, rows[0].referrer).Keys;
      forall r | r in rows[1..] :: r.clicks == Sum(CountsFrom(rest, url, r.referrer))
  {
    var rest := counts - CountsFrom(counts, url, rows[0].referrer).Keys;
    forall r | r in rows[1..] ensures r.clicks == Sum(CountsFrom(rest, url, r.referrer)) {
      assert r in rows;
      var i :| 0 <= i < |rows[1..]| && rows[1..][i] == r;
      assert rows[0].referrer != rows[i + 1].referrer;
      assert CountsFrom(rest, url, r.referrer) == CountsFrom(counts, url, r.referrer);
    }
  }

  function WithoutDay(counts: map<Key, nat>, url: nat, day: int): map<Key, nat> {
    counts - (set k | k in counts && k.url == url && k.day == day)
  }

  lemma SplitReferrers(counts: map<Key, nat>, url: nat, day: int)
    ensures Sum(AllReferrers(counts, url)) ==
            Sum(ReferrerCounts(counts, url, day)) + Sum(AllReferrers(WithoutDay(counts, url, day), url))
  {
    SumJoin(ReferrerCounts(counts, url, day), AllReferrers(WithoutDay(counts, url, day), url));
    assert ReferrerCounts(counts, url, day) + AllReferrers(WithoutDay(counts, url, day), url) ==
           AllReferrers(counts, url);
  }

  lemma SplitTotals(counts: map<Key, nat>, url: nat, day: int)
    ensures Sum(TotalCounts(counts, url)) ==
            Count(counts, Key(url, day, Total)) + Sum(TotalCounts(WithoutDay(counts, url, day), url))
  {
    var k := Key(url, day, Total);
    if k in counts {
      SumPick(TotalCounts(counts, url), k);
      assert TotalCounts(counts, url) - {k} == TotalCounts(WithoutDay(counts, url, day), url);
    } else {
      assert TotalCounts(counts, url) == TotalCounts(WithoutDay(counts, url, day), url);
    }
  }

  /** If no day's referrers outrun its total, no url's do. */
  lemma {:induction false} DaysWithinTotals(counts: map<Key, nat>, url: nat)
    requires forall d :: Sum(ReferrerCounts(counts, url, d)) <= Count(counts, Key(url, d, Total))
    ensures Sum(AllReferrers(counts, url)) <= Sum(TotalCounts(counts, url))
    decreases |counts|
  {
    if k :| k in AllReferrers(counts, url) {
      var rest := WithoutDay(counts, url, k.day);
      FewerKeys(rest, counts, k);
      forall d ensures Sum(ReferrerCounts(rest, url, d)) <= Count(rest, Key(url, d, Total)) {
        assert ReferrerCounts(rest, url, d) == if d == k.day then map[] else ReferrerCounts(counts, url, d);
      }
      DaysWithinTotals(rest, url);
      SplitReferrers(counts, url, k.day);
      SplitTotals(counts, url, k.day);
    } else {
      assert AllReferrers(counts, url) == map[];
    }
  }

  lemma FewerKeys(a: map<Key, nat>, b: map<Key, nat>, k: Key)
    requires a.Keys <= b.Keys && k in b && k !in a
    ensures |a| < |b|
  {
    assert b.Keys == a.Keys + (b.Keys - a.Keys);
  }

  lemma ReferrersWithinTotal(t: Analytics.State, url: nat, rows: seq<Refs>)
    requires Analytics.Inv(t) && AnswersTop(t.space.db.counts, url, rows)
    ensures if url in t.space.db.rows then RefClicks(rows) <= |ClickEvents(t.log, url)| else rows == []
  {
    var counts := t.space.db.counts;
    if url in t.space.db.rows {
      forall d ensures Sum(ReferrerCounts(counts, url, d)) <= Count(counts, Key(url, d, Total)) {
        Analytics.ReferrersFallShort(t, url, d);
      }
      ListedWithinAll(counts, url, rows);
      DaysWithinTotals(counts, url);
      Analytics.TotalIsClicks(t, url);
    } else if rows != [] {
      SomeReferrer(counts, url, rows);
    }
  }

  lemma SomeReferrer(counts: map<Key, nat>, url: nat, rows: seq<Refs>)
    requires AnswersTop(counts, url, rows) && rows != []
    ensures exists k :: k in counts && k.url == url
  {
    assert rows[0] in rows;
  }

  lemma ClicksSince(before: seq<Hit>, after: seq<Hit>, url: nat)
    requires before <= after
    ensures |ClickEvents(after, url)| <= |ClickEvents(before, url)| + |ClickEvents(after[|before|..], url)|
  {
    var a, b := ClickEvents(before, url), ClickEvents(after[|before|..], url);
    assert after == before + after[|before|..];
    assert ClickEvents(after, url) == a + b;
    assert |a + b| == |a| + |b| - |a * b|;
  }

  /** The total is read before the referrers, by a query of its own. In every run, the referrers reported
      exceed the total reported by no more than the clicks counted for the link between the two queries;
      without such a click they do not exceed it. */
  lemma ReportedReferrersWithinTotal(s: Analytics.State, ls: seq<Analytics.Label>, first: Analytics.State,
                                     more: seq<Analytics.Label>, third: Analytics.State, url: nat, rows: seq<Refs>)
    requires Analytics.Initial(s) && Analytics.Run(s, ls) == Some(first) && Analytics.Run(first, more) == Some(third)
    requires AnswersTop(third.space.db.counts, url, rows)
    ensures first.log <= third.log
    ensures RefClicks(rows) <=
            Sum(TotalCounts(first.space.db.counts, url)) + |ClickEvents(third.log[|first.log|..], url)|
  {
    Analytics.InitialInv(s);
    Analytics.RunKeepsInv(s, ls);
    Analytics.RunKeepsInv(first, more);
    Analytics.RunGoesOnwards(first, more);
    ReferrersWithinTotal(third, url, rows);
    ClicksSince(first.log, third.log, url);
    if url in first.space.db.rows {
      Analytics.TotalIsClicks(first, url);
    } else if url in third.space.db.rows {
      assert forall h | h in first.log :: Analytics.HitOk(first, h);
      assert ClickEvents(first.log, url) == {};
    }
  }

  // ------------------------------------------------- a click between the queries

  const CLICK := Analytics.Event("abc", "r", Some(0))
  const LINK := Row(1, Some("abc"), "u", None, 0)
  const START := Analytics.State(CodeSpace.INIT, [], 0, {}, map[], {}, [], [], map[])

  ghost predicate Reached(s: Analytics.State, counts: map<Key, nat>, stage: Analytics.Stage) {
    && s.space == CodeSpace.State(Db(map[1 := LINK], 2, counts, s.space.db.claims), {}, {}, {1})
    && s.stream == [CLICK] && s.workers == map[0 := Analytics.Busy([0], 0, stage)]
  }

  lemma {:induction false} RunThenStep(s: Analytics.State, ls: seq<Analytics.Label>, l: Analytics.Label)
    requires Analytics.Run(s, ls).Some?
    ensures Analytics.Run(s, ls + [l]) == Analytics.Next(Analytics.Run(s, ls).value, l)
    decreases |ls|
  {
    if ls == [] {
      assert [l][1..] == [];
    } else {
      RunThenStep(Analytics.Next(s, ls[0]).value, ls[1..], l);
      assert (ls + [l])[1..] == ls[1..] + [l];
    }
  }

  lemma ClickRead() returns (ls: seq<Analytics.Label>, s: Analytics.State)
    ensures Analytics.Run(START, ls) == Some(s) && Reached(s, map[], Analytics.AtClaim) && s.space.db.claims == {}
  {
    assert CodeSpace.ValidCustom("abc") by { assert CodeSpace.Lower("abc")[1] == 'b'; }
    ls := [];
    var create := Analytics.Table(CodeSpace.InsertCustom("abc", "u", None, 0, Ok));
    RunThenStep(START, ls, create);
    RunThenStep(START, ls + [create], Analytics.Publish(CLICK));
    RunThenStep(START, ls + [create] + [Analytics.Publish(CLICK)], Analytics.Read(0, Ok));
    ls := ls + [create] + [Analytics.Publish(CLICK)] + [Analytics.Read(0, Ok)];
    s := Analytics.Run(START, ls).value;
    assert s.workers[0].batch == [0];
  }

  lemma ClickClaimed() returns (ls: seq<Analytics.Label>, s: Analytics.State)
    ensures Analytics.Run(START, ls) == Some(s) && Reached(s, map[], Analytics.AtTotal(1, 0))
  {
    ls, s := ClickRead();
    FindIs(s.space.db.(claims := {0}), 1, "abc");
    RunThenStep(START, ls, Analytics.Act(0, Ok, 0));
    ls := ls + [Analytics.Act(0, Ok, 0)];
    RunThenStep(START, ls, Analytics.Act(0, Ok, 0));
    ls := ls + [Analytics.Act(0, Ok, 0)];
    s := Analytics.Run(START, ls).value;
  }

  /** The two queries can disagree: a click counted between them is in no total but leads the referrers. */
  lemma ReferrersMayOutrunTotal()
    ensures exists ls, first, more, third, rows :: (
      Analytics.Initial(START) && Analytics.Run(START, ls) == Some(first) &&
      Analytics.Run(first, more) == Some(third) &&
      AnswersTop(third.space.db.counts, 1, rows) &&
      Sum(TotalCounts(first.space.db.counts, 1)) == 0 && RefClicks(rows) == 1)
  {
    var ls, first := ClickClaimed();
    var more, third := ClickCredited(first);
    assert TotalCounts(first.space.db.counts, 1) == map[];
    var rows := ReferrerListed(third.space.db.counts);
  }

  lemma ClickCredited(first: Analytics.State) returns (more: seq<Analytics.Label>, third: Analytics.State)
    requires Reached(first, map[], Analytics.AtTotal(1, 0))
    ensures Analytics.Run(first, more) == Some(third)
    ensures third.space.db.counts == map[Key(1, 0, Total) := 1, Key(1, 0, Referrer("r")) := 1]
  {
    more := [Analytics.Act(0, Ok, 0), Analytics.Act(0, Ok, 0)];
    var second := Analytics.Next(first, more[0]).value;
    third := Analytics.Next(second, more[1]).value;
    assert more[1..] == [more[1]] && more[1..][1..] == [];
  }

  lemma ReferrerListed(counts: map<Key, nat>) returns (rows: seq<Refs>)
    requires counts == map[Key(1, 0, Total) := 1, Key(1, 0, Referrer("r")) := 1]
    ensures AnswersTop(counts, 1, rows) && RefClicks(rows) == 1
  {
    rows := [Refs("r", 1)];
    var k := Key(1, 0, Referrer("r"));
    assert CountsFrom(counts, 1, "r") == map[k := 1];
    SumPick(map[k := 1], k);
    assert map[k := 1] - {k} == map[];
    assert k in counts;
    assert rows[1..] == [];
  }
}
