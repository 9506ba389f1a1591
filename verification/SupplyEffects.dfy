/** The numbers a front's supply is judged by, said report by report, and exactly when it reads as outrun or cut. */
module SupplyEffects {
  import opened Common
  import opened Supply
  import T = Theatre
  import E = Energy

  // ---------- The window ----------

  /** Two weeks without a readable first sortie; with one, the days since it, today included, between seven and fourteen. */
  predicate WindowSaid(first: First, today: int, days: int) {
    match first
    case On(day) =>
      && (today - day >= 13 ==> days == 14)
      && (today - day <= 6 ==> days == 7)
      && (6 < today - day < 13 ==> days == today - day + 1)
    case _ => days == 14
  }

  lemma WindowIs(first: First, today: int)
    ensures WindowSaid(first, today, WindowDays(first, today))
  {
  }

  // ---------- Sorties ----------

  function OneIf(b: bool): nat {
    if b then 1 else 0
  }

  /** A sortie more counts with its minutes in the window from the first of its days to today, or in what is left of the last
      28 days before it, and is flown in the first case only; on another front, or on no day that can be read, it
      counts nowhere. */
  lemma OneSortieMore(r: Record, s: Sortie, front: Id)
    ensures var more := r.(sorties := r.sorties + [s]);
            var a, b := CountOf(r, front), CountOf(more, front);
            var from := r.today - WindowDays(r.first, r.today) + 1;
            var here := s.frontId == front && s.day.Some?;
            && b.windowMin == a.windowMin + (if here && from <= s.day.value <= r.today then s.minutes else 0)
            && b.earlierMin == a.earlierMin + (if here && r.today - 27 <= s.day.value < from then s.minutes else 0)
            && b.flown == a.flown + OneIf(here && from <= s.day.value <= r.today)
            && b.done == a.done && b.open == a.open && b.dueSoon == a.dueSoon
  {
    hide AimedAt, CarriedOut, StillOpen, DueSoon;
    var more := r.(sorties := r.sorties + [s]);
    assert more.sorties[..|r.sorties|] == r.sorties;
    TalliedSame(r.orders, r, more, front);
  }

  lemma {:induction false} TalliedSame(orders: seq<Order>, a: Record, b: Record, front: Id)
    requires a.items == b.items && a.today == b.today
    ensures Tallied(orders, a, front) == Tallied(orders, b, front)
  {
    if orders != [] {
      TalliedSame(orders[..|orders| - 1], a, b, front);
    }
  }

  // ---------- Orders ----------

  /** The item an order is aimed at, as the last kept item with the identifier has it, lies on the front. */
  ghost predicate LiesOn(items: seq<Item>, id: Id, front: Id) {
    exists k: nat :: HoldsPlace(items, id, k) && items[k].frontId == Some(front)
  }

  predicate MayHold(item: Item, id: Id) {
    item.id == id && item.status != T.Proposed && item.status != T.Dropped && item.frontId.Some?
  }

  predicate HoldsPlace(items: seq<Item>, id: Id, k: nat) {
    k < |items| && MayHold(items[k], id) && forall j :: k < j < |items| ==> !MayHold(items[j], id)
  }

  lemma HoldsBefore(items: seq<Item>, id: Id, k: nat)
    requires items != [] && !MayHold(items[|items| - 1], id)
    ensures HoldsPlace(items, id, k) <==> k < |items| - 1 && HoldsPlace(items[..|items| - 1], id, k)
  {
    var before := items[..|items| - 1];
    assert forall j :: 0 <= j < |before| ==> before[j] == items[j];
    if k < |before| && HoldsPlace(before, id, k) {
      forall j | k < j < |items| ensures !MayHold(items[j], id) {
        if j < |before| {
          assert !MayHold(before[j], id);
        }
      }
    }
  }

  lemma {:induction false} FrontIs(items: seq<Item>, id: Id, front: Id)
    ensures FrontOf(items, id) == Some(front) <==> LiesOn(items, id, front)
  {
    if items != [] {
      var n := |items| - 1;
      if MayHold(items[n], id) {
        assert HoldsPlace(items, id, n);
        if items[n].frontId == Some(front) {
          assert LiesOn(items, id, front);
        }
      } else {
        FrontIs(items[..n], id, front);
        hide MayHold, HoldsPlace, Filed;
        forall k: nat ensures HoldsPlace(items, id, k) <==> k < n && HoldsPlace(items[..n], id, k) {
          HoldsBefore(items, id, k);
        }
        StillHeld(items, id, front);
        NotFiled(items[n], id);
      }
    }
  }

  lemma NotFiled(item: Item, id: Id)
    ensures MayHold(item, id) <==> item.id == id && Filed(item)
  {
  }

  lemma StillHeld(items: seq<Item>, id: Id, front: Id)
    requires items != []
    requires forall k: nat :: HoldsPlace(items, id, k) <==> k < |items| - 1 && HoldsPlace(items[..|items| - 1], id, k)
    ensures LiesOn(items, id, front) <==> LiesOn(items[..|items| - 1], id, front)
  {
    var before := items[..|items| - 1];
    if LiesOn(items, id, front) {
      var k: nat :| HoldsPlace(items, id, k) && items[k].frontId == Some(front);
      assert HoldsPlace(before, id, k) && before[k] == items[k];
    }
    if LiesOn(before, id, front) {
      var k: nat :| HoldsPlace(before, id, k) && before[k].frontId == Some(front);
      assert HoldsPlace(items, id, k);
      assert before[k] == items[k];
    }
  }

  /** An order more counts where its target lies on the front: as done when it was carried out in the last 28 days, as open
      while it is open or stale, and then as due soon when it is due no later than the end of the seventh day from today. */
  lemma OneMoreOrder(r: Record, o: Order, front: Id)
    ensures var more := r.(orders := r.orders + [o]);
            var a, b := CountOf(r, front), CountOf(more, front);
            var here := o.target.Some? && LiesOn(r.items, o.target.value, front);
            var open := here && (o.status == T.OrderOpen || o.status == T.OrderStale);
            && b.done == a.done + OneIf(here && o.status == T.OrderDone && o.resolvedOn.Some? && o.resolvedOn.value >= r.today - 27)
            && b.open == a.open + OneIf(open)
            && b.dueSoon == a.dueSoon + OneIf(open && o.dueOn.Some? && o.dueOn.value <= r.today + 7)
            && b.windowMin == a.windowMin && b.earlierMin == a.earlierMin && b.flown == a.flown
  {
    if o.target.Some? {
      FrontIs(r.items, o.target.value, front);
    }
    hide LiesOn, FrontOf, Minutes, Flown;
    var more := r.(orders := r.orders + [o]);
    assert more.orders[..|r.orders|] == r.orders;
    TalliedSame(r.orders, r, more, front);
  }

  lemma NothingCounted(r: Record, front: Id)
    ensures CountOf(r.(orders := [], sorties := []), front) == Count(0, 0, 0, 0, 0, 0)
  {
  }

  // ---------- The judgement ----------

  /** Hours an order: at least three carried out and any minute flown in the record give the front's own rate, from a quarter
      to eight at the outside; else it is one sortie, 25 minutes where none is set. */
  predicate HoursSaid(r: Record, c: Count, hours: real) {
    if c.done >= 3 && c.windowMin + c.earlierMin > 0 then
      var own := (c.windowMin + c.earlierMin) as real / (60 * c.done) as real;
      hours == if own < 0.25 then 0.25 else if own > 8.0 then 8.0 else own
    else
      hours * 60.0 == if r.sortieMinutes > 0 then r.sortieMinutes as real else 25.0
  }

  lemma HoursAre(r: Record, front: Id)
    ensures var x := ReadingOf(r, front);
            && HoursSaid(r, x.count, x.perOrder) && x.count == CountOf(r, front)
            && (x.measured <==> x.count.done >= 3 && x.count.windowMin + x.count.earlierMin > 0)
  {
    hide CountOf, PerWeek, Exceeds;
    var c := CountOf(r, front);
    if Measured(c) {
      Own(c.windowMin + c.earlierMin, c.done);
    }
  }

  lemma Own(minutes: int, done: nat)
    requires done > 0
    ensures minutes as real / 60.0 / done as real == minutes as real / (60 * done) as real
  {
    var q := minutes as real / 60.0 / done as real;
    assert minutes as real == q * done as real * 60.0;
    assert (60 * done) as real == 60.0 * done as real;
    assert q * (60 * done) as real == minutes as real;
  }

  /** Hours a week are the hours of the window, seven days of it. */
  lemma WeeklyIs(r: Record, front: Id)
    ensures var x := ReadingOf(r, front);
            && x.perWeek * 60.0 * WindowDays(r.first, r.today) as real == x.count.windowMin as real * 7.0
            && (x.perWeek > 0.0 <==> x.count.windowMin > 0)
  {
    hide CountOf, PerOrder, Exceeds, WindowDays;
    PerWeekIs(CountOf(r, front).windowMin, WindowDays(r.first, r.today));
  }

  lemma PerWeekIs(minutes: int, days: int)
    requires days > 0
    ensures Weekly(minutes, days) * 60.0 * days as real == minutes as real * 7.0
    ensures Weekly(minutes, days) > 0.0 <==> minutes > 0
  {
    var d := days as real;
    var w := minutes as real / 60.0 * 7.0 / d;
    assert w * d == minutes as real / 60.0 * 7.0;
    Sign(w, d);
  }

  lemma Sign(w: real, d: real)
    requires d > 0.0
    ensures w * d > 0.0 <==> w > 0.0
  {
  }

  /** The work of so many orders takes more hours than there are and one order's besides. */
  predicate OneTooMany(orders: nat, perOrder: real, hours: real) {
    orders > 0 && (orders as real - 1.0) * perOrder > hours
  }

  lemma LessOne(orders: nat, perOrder: real, hours: real)
    requires perOrder > 0.0 && hours > 0.0
    ensures OneTooMany(orders, perOrder, hours) <==> orders as real * perOrder > hours + perOrder
  {
    assert (orders as real - 1.0) * perOrder == orders as real * perOrder - perOrder;
    if orders == 0 {
      assert orders as real * perOrder == 0.0;
    }
  }

  /** A front is outrun exactly when it was ever supplied, minutes were flown in the window, and all orders due soon but one
      take more than a week's hours, or all open orders but one more than those of the weeks until orders go stale: two
      weeks where none are set.  It is cut off exactly when nothing was flown in the window, something was before it, and
      an order is due soon. */
  lemma JudgementIs(r: Record, front: Id)
    ensures var x := ReadingOf(r, front);
            var weeks := if r.staleWeeks > 0.0 then r.staleWeeks else 2.0;
            && (x.outrun <==>
                  && r.first != Never && x.count.windowMin > 0
                  && (OneTooMany(x.count.dueSoon, x.perOrder, x.perWeek)
                      || OneTooMany(x.count.open, x.perOrder, x.perWeek * weeks)))
            && (x.cut <==> r.first != Never && x.count.windowMin == 0 && x.count.earlierMin > 0 && x.count.dueSoon > 0)
  {
    WeeklyIs(r, front);
    hide CountOf, PerOrder, PerWeek, OneTooMany, Measured;
    var x := ReadingOf(r, front);
    var weeks := if r.staleWeeks > 0.0 then r.staleWeeks else 2.0;
    DueWithin(r, front);
    if x.perWeek > 0.0 {
      Sign(x.perWeek, weeks);
      LessOne(x.count.dueSoon, x.perOrder, x.perWeek);
      LessOne(x.count.open, x.perOrder, x.perWeek * weeks);
      NoneTooMany(x.perOrder, x.perWeek);
      NoneTooMany(x.perOrder, x.perWeek * weeks);
    }
  }

  lemma NoneTooMany(perOrder: real, hours: real)
    ensures !OneTooMany(0, perOrder, hours)
  {
  }

  lemma DueWithin(r: Record, front: Id)
    ensures CountOf(r, front).dueSoon <= CountOf(r, front).open
  {
  }

  /** The fronts read are those that are active, in their order. */
  lemma ReadingsAppend(r: Record, fronts: seq<Front>, f: Front)
    ensures Readings(r, fronts + [f]) == Readings(r, fronts) + (if f.active then [ReadingOf(r, f.id)] else [])
    ensures Readings(r, []) == []
  {
    assert (fronts + [f])[..|fronts|] == fronts;
  }

  // ---------- Energy ----------

  predicate Counts(report: E.Report, today: int) {
    report.day.Some? && today - 6 <= report.day.value <= today && 1 <= report.level <= 5
  }

  predicate LowEvening(week: seq<E.Report>, k: int) {
    0 <= k < |week| && week[k].level <= 2
  }

  /** Two evenings of the last three. */
  ghost predicate TwoEvenings(week: seq<E.Report>) {
    exists j, k :: |week| - 3 <= j < k && LowEvening(week, j) && LowEvening(week, k)
  }

  predicate ReportedToday(reports: seq<E.Report>, today: int, k: int) {
    0 <= k < |reports| && Counts(reports[k], today) && reports[k].day == Some(today)
  }

  lemma {:induction false} LatestSays(reports: seq<E.Report>, today: int, k: int)
    requires ReportedToday(reports, today, k)
    requires forall j :: k < j < |reports| ==> !ReportedToday(reports, today, j)
    ensures E.Latest(reports, today) == reports[k].level
  {
    var n := |reports| - 1;
    if k < n {
      assert !ReportedToday(reports, today, n);
      assert reports[..n][k] == reports[k];
      forall j | k < j < n ensures !ReportedToday(reports[..n], today, j) {
        assert !ReportedToday(reports, today, j);
      }
      LatestSays(reports[..n], today, k);
    }
  }

  lemma {:induction false} LatestNone(reports: seq<E.Report>, today: int)
    requires forall j :: 0 <= j < |reports| ==> !ReportedToday(reports, today, j)
    ensures E.Latest(reports, today) == 0
  {
    if reports != [] {
      var n := |reports| - 1;
      assert !ReportedToday(reports, today, n);
      forall j | 0 <= j < n ensures !ReportedToday(reports[..n], today, j) {
        assert !ReportedToday(reports, today, j);
      }
      LatestNone(reports[..n], today);
    }
  }

  lemma SaidOnce(week: seq<E.Report>)
    ensures E.TwoLow(week) <==> TwoEvenings(week)
  {
    hide E.LowAt, LowEvening;
    forall k ensures E.LowAt(week, k) <==> LowEvening(week, k) {
      SameLow(week, k);
    }
    if E.TwoLow(week) {
      var j, k :| |week| - E.LOOKBACK <= j < k && E.LowAt(week, j) && E.LowAt(week, k);
      assert LowEvening(week, j) && LowEvening(week, k);
    }
    if TwoEvenings(week) {
      var j, k :| |week| - 3 <= j < k && LowEvening(week, j) && LowEvening(week, k);
      assert E.LowAt(week, j) && E.LowAt(week, k);
    }
  }

  lemma SameLow(week: seq<E.Report>, k: int)
    ensures E.LowAt(week, k) <==> LowEvening(week, k)
  {
  }

  /** The week's energy is the reports of today and the six days before it on the scale from one to five, oldest first; the
      level is the last one reported today, zero when there is none; and it is low exactly when two of the last three
      were at two or under. */
  lemma EnergyIs(reports: seq<E.Report>, today: int)
    ensures var e := E.SupplyOf(reports, today);
            && E.ByDay(e.reports) && (forall x :: x in e.reports <==> x in reports && Counts(x, today))
            && (e.low <==> TwoEvenings(e.reports))
            && (forall k :: LastToday(reports, today, k) ==> e.today == reports[k].level)
            && ((forall k :: 0 <= k < |reports| ==> !ReportedToday(reports, today, k)) ==> e.today == 0)
  {
    hide E.Week, E.Latest, E.ByDay, E.TwoLow, TwoEvenings, E.LowOnes, E.LastFew, ReportedToday;
    E.WeekIs(reports, today);
    E.LowMeans(reports, today);
    SaidOnce(E.Week(reports, today));
    forall k | LastToday(reports, today, k) ensures E.Latest(reports, today) == reports[k].level {
      LatestSays(reports, today, k);
    }
    if forall k :: 0 <= k < |reports| ==> !ReportedToday(reports, today, k) {
      LatestNone(reports, today);
    }
  }

  predicate LastToday(reports: seq<E.Report>, today: int, k: int) {
    ReportedToday(reports, today, k) && 0 <= k < |reports| && forall j :: k < j < |reports| ==> !ReportedToday(reports, today, j)
  }
}
