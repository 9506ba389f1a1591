/** The week's energy, one evening at a time, and when it reads as low.  Days are day numbers; a day is missing where its
    date cannot be read. */
module Energy {
  import opened Common
  import R = Ranking

  const RECORD_DAYS := 7
  const LOOKBACK := 3
  const LOW := 2

  datatype Report = Report(day: Option<int>, level: int)

  /** `today` is zero while nothing was reported. */
  datatype Supply = Supply(reports: seq<Report>, today: int, low: bool)

  predicate Usable(r: Report, today: int) {
    r.day.Some? && today - (RECORD_DAYS - 1) <= r.day.value <= today && 1 <= r.level <= 5
  }

  /** The usable reports of a week, ranked by day and then by place. */
  function Ranked(reports: seq<Report>, today: int): (r: seq<R.Ranked<Report>>)
    ensures forall k :: 0 <= k < |r| ==>
              Usable(r[k].item, today) && r[k].score == -(r[k].item.day.value as real) && r[k].id < |reports|
    ensures forall j, k :: 0 <= j < k < |r| ==> r[j].id < r[k].id
    ensures forall x :: x in reports && Usable(x, today) <==> exists k :: 0 <= k < |r| && r[k].item == x
  {
    if reports == [] then []
    else
      var n := |reports| - 1;
      assert reports == reports[..n] + [reports[n]];
      var before := Ranked(reports[..n], today);
      if !Usable(reports[n], today) then before
      else
        var more := before + [R.Ranked(reports[n], -(reports[n].day.value as real), n)];
        assert forall k :: 0 <= k < |before| ==> more[k] == before[k];
        assert more[|before|].item == reports[n];
        more
  }

  function Unranked(ranked: seq<R.Ranked<Report>>): (r: seq<Report>)
    ensures |r| == |ranked| && forall k :: 0 <= k < |r| ==> r[k] == ranked[k].item
  {
    seq(|ranked|, k requires 0 <= k < |ranked| => ranked[k].item)
  }

  /** Oldest first; reports of one day as they came. */
  function Week(reports: seq<Report>, today: int): seq<Report> {
    Unranked(R.Sort(Ranked(reports, today)))
  }

  /** The level last reported for today. */
  function Latest(reports: seq<Report>, today: int): int {
    if reports == [] then 0
    else
      var r := reports[|reports| - 1];
      if Usable(r, today) && r.day == Some(today) then r.level else Latest(reports[..|reports| - 1], today)
  }

  function LowOnes(reports: seq<Report>): (n: nat)
    ensures n <= |reports|
  {
    if reports == [] then 0
    else LowOnes(reports[..|reports| - 1]) + (if reports[|reports| - 1].level <= LOW then 1 else 0)
  }

  function LastFew(week: seq<Report>): (r: seq<Report>)
    ensures |r| <= |week| && r == week[|week| - |r|..]
    ensures |r| == LOOKBACK || (|r| < LOOKBACK && |r| == |week|)
  {
    if |week| <= LOOKBACK then week else week[|week| - LOOKBACK..]
  }

  function SupplyOf(reports: seq<Report>, today: int): Supply {
    var week := Week(reports, today);
    var last := LastFew(week);
    Supply(week, Latest(reports, today), |last| >= 2 && LowOnes(last) * 2 > |last|)
  }

  // ---------- The procedure ----------

  method GatherWeek(reports: seq<Report>, today: int) returns (kept: seq<R.Ranked<Report>>, level: int)
    ensures kept == Ranked(reports, today) && level == Latest(reports, today)
  {
    kept, level := [], 0;
    var from := today - (RECORD_DAYS - 1);
    for i := 0 to |reports|
      invariant kept == Ranked(reports[..i], today) && level == Latest(reports[..i], today)
    {
      assert reports[..i + 1][..i] == reports[..i];
      var r := reports[i];
      if r.day.None? || r.day.value < from || r.day.value > today || !(1 <= r.level <= 5) {
        continue;
      }
      kept := kept + [R.Ranked(r, -(r.day.value as real), i)];
      if r.day.value == today {
        level := r.level;
      }
    }
    assert reports[..|reports|] == reports;
  }

  method CountLow(last: seq<Report>) returns (low: nat)
    ensures low == LowOnes(last)
  {
    low := 0;
    for i := 0 to |last|
      invariant low == LowOnes(last[..i])
    {
      assert last[..i + 1][..i] == last[..i];
      if last[i].level <= LOW {
        low := low + 1;
      }
    }
    assert last[..|last|] == last;
  }

  method ReadEnergy(reports: seq<Report>, today: int) returns (e: Supply)
    ensures e == SupplyOf(reports, today)
  {
    hide Ranked, Latest, R.Sort, Unranked;
    var kept, level := GatherWeek(reports, today);
    var week := Unranked(R.Sort(kept));
    var last := LastFew(week);
    var low := CountLow(last);
    e := Supply(week, level, |last| >= 2 && low * 2 > |last|);
  }

  // ---------- What the reading means ----------

  predicate ByDay(week: seq<Report>) {
    && (forall k :: 0 <= k < |week| ==> week[k].day.Some?)
    && forall j, k :: 0 <= j < k < |week| ==> week[j].day.value <= week[k].day.value
  }

  lemma SortedByDay(ranked: seq<R.Ranked<Report>>, sorted: seq<R.Ranked<Report>>)
    requires (forall x :: x in ranked <==> x in sorted) && R.Sorted(sorted)
    requires forall x :: x in ranked ==> x.item.day.Some? && x.score == -(x.item.day.value as real)
    ensures ByDay(Unranked(sorted))
  {
    forall k | 0 <= k < |sorted|
      ensures sorted[k].item.day.Some? && sorted[k].score == -(sorted[k].item.day.value as real)
    {
      assert sorted[k] in ranked;
    }
    forall j, k | 0 <= j < k < |sorted|
      ensures sorted[j].item.day.value <= sorted[k].item.day.value
    {
      assert !R.Before(sorted[k], sorted[j]);
    }
  }

  lemma UnrankedMembers(ranked: seq<R.Ranked<Report>>, x: Report)
    ensures x in Unranked(ranked) <==> exists r :: r in ranked && r.item == x
  {
    if x in Unranked(ranked) {
      var k :| 0 <= k < |ranked| && Unranked(ranked)[k] == x;
      assert ranked[k] in ranked;
    }
    if exists r :: r in ranked && r.item == x {
      var r :| r in ranked && r.item == x;
      var k :| 0 <= k < |ranked| && ranked[k] == r;
      assert Unranked(ranked)[k] == x;
    }
  }

  lemma RankedMembers(reports: seq<Report>, today: int, x: Report)
    ensures (exists r :: r in Ranked(reports, today) && r.item == x) <==> x in reports && Usable(x, today)
    ensures forall r :: r in Ranked(reports, today) ==> r.item.day.Some? && r.score == -(r.item.day.value as real)
  {
    var ranked := Ranked(reports, today);
    hide Ranked;
    if exists r :: r in ranked && r.item == x {
      var r :| r in ranked && r.item == x;
      var k :| 0 <= k < |ranked| && ranked[k] == r;
    }
    if x in reports && Usable(x, today) {
      var k :| 0 <= k < |ranked| && ranked[k].item == x;
      assert ranked[k] in ranked;
    }
  }

  /** The week's reports are the usable ones, oldest first. */
  lemma WeekIs(reports: seq<Report>, today: int)
    ensures ByDay(Week(reports, today))
    ensures forall x :: x in Week(reports, today) <==> x in reports && Usable(x, today)
  {
    hide Ranked, Unranked, R.Sort, R.Sorted, ByDay, Usable;
    var ranked := Ranked(reports, today);
    var sorted := R.Sort(ranked);
    R.SameElements(ranked, sorted);
    forall x ensures x in Week(reports, today) <==> x in reports && Usable(x, today) {
      RankedMembers(reports, today, x);
      UnrankedMembers(sorted, x);
    }
    RankedMembers(reports, today, Report(None, 0));
    SortedByDay(ranked, sorted);
  }

  predicate LowAt(week: seq<Report>, k: int) {
    0 <= k < |week| && week[k].level <= LOW
  }

  lemma {:induction false} LowOnesAre(week: seq<Report>)
    ensures LowOnes(week) >= 1 <==> exists k :: LowAt(week, k)
    ensures LowOnes(week) >= 2 <==> exists j, k :: j < k && LowAt(week, j) && LowAt(week, k)
  {
    if week != [] {
      var n := |week| - 1;
      LowOnesAre(week[..n]);
      forall k ensures LowAt(week, k) <==> LowAt(week[..n], k) || (k == n && week[n].level <= LOW) {}
      if LowOnes(week[..n]) >= 1 {
        var k :| LowAt(week[..n], k);
        assert LowAt(week, k);
      }
      if LowOnes(week[..n]) >= 2 {
        var j, k :| j < k && LowAt(week[..n], j) && LowAt(week[..n], k);
        assert LowAt(week, j) && LowAt(week, k);
      }
      if week[n].level <= LOW {
        assert LowAt(week, n);
      }
    }
  }

  /** Two of the last three, if there are as many. */
  ghost predicate TwoLow(week: seq<Report>) {
    exists j, k :: |week| - LOOKBACK <= j < k && LowAt(week, j) && LowAt(week, k)
  }

  lemma LastAt(week: seq<Report>, k: int)
    ensures LowAt(LastFew(week), k) <==> k >= 0 && LowAt(week, |week| - |LastFew(week)| + k)
  {
    hide LastFew;
  }

  lemma TwoLowIsTwoOnes(week: seq<Report>)
    ensures TwoLow(week) <==> LowOnes(LastFew(week)) >= 2
  {
    hide LastFew, LowOnes, LowAt;
    var last := LastFew(week);
    var skipped := |week| - |last|;
    LowOnesAre(last);
    if LowOnes(last) >= 2 {
      var j, k :| j < k && LowAt(last, j) && LowAt(last, k);
      LastAt(week, j);
      LastAt(week, k);
      assert |week| - LOOKBACK <= skipped + j < skipped + k;
    }
    if TwoLow(week) {
      var j, k :| |week| - LOOKBACK <= j < k && LowAt(week, j) && LowAt(week, k);
      IsAPlace(week, j);
      LastAt(week, j - skipped);
      LastAt(week, k - skipped);
    }
  }

  lemma IsAPlace(week: seq<Report>, k: int)
    requires LowAt(week, k)
    ensures 0 <= k < |week|
  {
  }

  /** Energy reads as low exactly when two of the last three evenings told of were low or spent. */
  lemma LowMeans(reports: seq<Report>, today: int)
    ensures SupplyOf(reports, today).low <==> TwoLow(Week(reports, today))
  {
    hide Week, LowOnes, LastFew, TwoLow;
    var week := Week(reports, today);
    TwoLowIsTwoOnes(week);
  }

  /** No two reports are about the same day, as the table keeps them. */
  predicate OneADay(reports: seq<Report>) {
    forall j, k :: 0 <= j < k < |reports| ==> reports[j].day != reports[k].day
  }

  lemma {:induction false} LatestIs(reports: seq<Report>, today: int)
    ensures Latest(reports, today) == 0 <==> forall r :: r in reports && Usable(r, today) ==> r.day != Some(today)
    ensures Latest(reports, today) != 0 ==>
              exists r :: r in reports && Usable(r, today) && r.day == Some(today) && r.level == Latest(reports, today)
  {
    if reports != [] {
      var n := |reports| - 1;
      assert reports == reports[..n] + [reports[n]];
      LatestIs(reports[..n], today);
    }
  }

  lemma SameDaySame(reports: seq<Report>, a: Report, b: Report)
    requires OneADay(reports) && a in reports && b in reports && a.day == b.day
    ensures a == b
  {
  }

  predicate DaysApart(week: seq<Report>) {
    forall j, k :: 0 <= j < k < |week| ==> week[j].day != week[k].day
  }

  lemma OneApart(week: seq<Report>, r: Report)
    requires DaysApart(week) && forall x :: x in week ==> x.day != r.day
    ensures DaysApart(week + [r])
  {
    forall k | 0 <= k < |week| ensures week[k].day != r.day {
      assert week[k] in week;
    }
  }

  lemma RankedOneMore(reports: seq<Report>, r: Report, today: int)
    ensures Unranked(Ranked(reports + [r], today))
         == if Usable(r, today) then Unranked(Ranked(reports, today)) + [r] else Unranked(Ranked(reports, today))
  {
    assert (reports + [r])[..|reports|] == reports;
  }

  lemma {:induction false} RankedOnce(reports: seq<Report>, today: int)
    requires OneADay(reports)
    ensures DaysApart(Unranked(Ranked(reports, today)))
  {
    hide Ranked, Unranked, DaysApart, Usable;
    if reports == [] {
      NothingRanked(today);
    } else {
      var n := |reports| - 1;
      RankedOnce(reports[..n], today);
      assert reports == reports[..n] + [reports[n]];
      RankedOneMore(reports[..n], reports[n], today);
      forall x | x in Unranked(Ranked(reports[..n], today))
        ensures x.day != reports[n].day
      {
        UnrankedMembers(Ranked(reports[..n], today), x);
        RankedMembers(reports[..n], today, x);
      }
      OneApart(Unranked(Ranked(reports[..n], today)), reports[n]);
    }
  }

  lemma NothingRanked(today: int)
    ensures DaysApart(Unranked(Ranked([], today)))
  {
  }

  lemma SameRanked(a: seq<R.Ranked<Report>>, b: seq<R.Ranked<Report>>)
    requires multiset(a) == multiset(b)
    ensures forall x :: x in a <==> x in b
  {
    R.SameElements(a, b);
  }

  lemma SortedApart(ranked: seq<R.Ranked<Report>>, sorted: seq<R.Ranked<Report>>)
    requires (forall x :: x in ranked <==> x in sorted) && R.DistinctIds(sorted) && DaysApart(Unranked(ranked))
    ensures DaysApart(Unranked(sorted))
  {
    forall j, k | 0 <= j < k < |sorted|
      ensures sorted[j].item.day != sorted[k].item.day
    {
      assert sorted[j] in ranked && sorted[k] in ranked;
      var p :| 0 <= p < |ranked| && ranked[p] == sorted[j];
      var q :| 0 <= q < |ranked| && ranked[q] == sorted[k];
      assert Unranked(ranked)[p].day == sorted[j].item.day && Unranked(ranked)[q].day == sorted[k].item.day;
    }
  }

  lemma RankedIdsApart(reports: seq<Report>, today: int)
    ensures R.DistinctIds(Ranked(reports, today))
  {
    hide Ranked;
    var ranked := Ranked(reports, today);
    assert forall j, k :: 0 <= j < k < |ranked| ==> ranked[j].id < ranked[k].id;
  }

  lemma WeekApart(reports: seq<Report>, today: int)
    requires OneADay(reports)
    ensures DaysApart(Week(reports, today))
  {
    hide Ranked, Unranked, R.Sort, R.Sorted, R.DistinctIds, DaysApart, OneADay;
    var ranked := Ranked(reports, today);
    var sorted := R.Sort(ranked);
    RankedOnce(reports, today);
    RankedIdsApart(reports, today);
    R.DistinctIdsPermute(ranked, sorted);
    SameRanked(ranked, sorted);
    SortedApart(ranked, sorted);
  }

  lemma RisingUnique(a: seq<Report>, b: seq<Report>)
    requires ByDay(a) && ByDay(b) && forall x :: x in a <==> x in b
    requires DaysApart(a) && DaysApart(b)
    ensures a == b
  {
    var x := seq(|a|, i requires 0 <= i < |a| => R.Ranked(a[i], -(a[i].day.value as real), 0));
    var y := seq(|b|, i requires 0 <= i < |b| => R.Ranked(b[i], -(b[i].day.value as real), 0));
    forall r
      ensures r in x <==> r in y
    {
      if r in x {
        var i :| 0 <= i < |x| && x[i] == r;
        assert a[i] in b;
        var j :| 0 <= j < |b| && b[j] == a[i];
        assert y[j] == r;
      }
      if r in y {
        var i :| 0 <= i < |y| && y[i] == r;
        assert b[i] in a;
        var j :| 0 <= j < |a| && a[j] == b[i];
        assert x[j] == r;
      }
    }
    R.StrictlySortedUnique(x, y);
    assert |a| == |x| == |y| == |b|;
    forall i | 0 <= i < |a| ensures a[i] == b[i] {
      assert x[i] == y[i];
    }
  }

  /** With one report a day the order they were read in does not show. */
  lemma OrderDoesNotShow(a: seq<Report>, b: seq<Report>, today: int)
    requires OneADay(a) && OneADay(b) && forall x :: x in a <==> x in b
    ensures SupplyOf(a, today) == SupplyOf(b, today)
  {
    hide Week, Latest, OneADay, ByDay, DaysApart, LastFew, LowOnes;
    WeekIs(a, today);
    WeekIs(b, today);
    WeekApart(a, today);
    WeekApart(b, today);
    RisingUnique(Week(a, today), Week(b, today));
    LatestIs(a, today);
    LatestIs(b, today);
    if Latest(a, today) != 0 && Latest(b, today) != 0 {
      var r :| r in a && Usable(r, today) && r.day == Some(today) && r.level == Latest(a, today);
      var s :| s in b && Usable(s, today) && s.day == Some(today) && s.level == Latest(b, today);
      SameDaySame(a, r, s);
    }
  }
}
