/** The supply of a front: the hours flown for it, and the hours its open orders will take.  Days are day numbers in
    the person's own calendar, hours and money exact reals; currencies are ranked numbers, zero for none. */
module Supply {
  import opened Common
  import T = Theatre

  type Id = nat

  const RECORD_DAYS := 28
  const WINDOW_DAYS := 14
  const MIN_WINDOW_DAYS := 7
  const RATE_MIN_ORDERS := 3
  const DUE_SOON_DAYS := 7
  const DEFAULT_MINUTES := 25
  const DEFAULT_STALE_WEEKS := 2.0

  datatype Front = Front(id: Id, active: bool, funds: Option<real>, fundsCurrency: nat)

  datatype Item = Item(id: Id, objective: bool, status: T.Status, frontId: Option<Id>, cost: Option<real>, currency: nat)

  datatype Order = Order(target: Option<Id>, status: T.OrderStatus, resolvedOn: Option<int>, dueOn: Option<int>)

  /** The day is missing where the date cannot be read. */
  datatype Sortie = Sortie(frontId: Id, minutes: int, day: Option<int>)

  datatype First = Never | Unreadable | On(day: int)

  datatype Record = Record(
    items: seq<Item>, orders: seq<Order>, sorties: seq<Sortie>, first: First, sortieMinutes: int, staleWeeks: real, today: int)

  /** What the time readings of a front are made from. */
  datatype Count = Count(windowMin: int, earlierMin: int, flown: nat, done: nat, open: nat, dueSoon: nat)

  datatype Reading = Reading(
    count: Count, perWeek: real, perOrder: real, measured: bool, outrun: bool, cut: bool)

  function Clamp(v: int, lo: int, hi: int): int {
    var up := if v < lo then lo else v;
    if up > hi then hi else up
  }

  /** Two weeks, or what there is of a younger record, but a week of it at least. */
  function WindowDays(first: First, today: int): (days: int)
    ensures MIN_WINDOW_DAYS <= days <= WINDOW_DAYS
  {
    match first
    case On(day) => Clamp(today - day + 1, MIN_WINDOW_DAYS, WINDOW_DAYS)
    case _ => WINDOW_DAYS
  }

  function WindowStart(r: Record): int {
    r.today - (WindowDays(r.first, r.today) - 1)
  }

  function RecordStart(r: Record): int {
    r.today - (RECORD_DAYS - 1)
  }

  predicate FlownIn(s: Sortie, front: Id, from: int, before: int) {
    s.frontId == front && s.day.Some? && from <= s.day.value < before
  }

  /** The minutes flown for a front on the days of a stretch. */
  function Minutes(sorties: seq<Sortie>, front: Id, from: int, before: int): int {
    if sorties == [] then 0
    else
      Minutes(sorties[..|sorties| - 1], front, from, before)
      + (if FlownIn(sorties[|sorties| - 1], front, from, before) then sorties[|sorties| - 1].minutes else 0)
  }

  function Flown(sorties: seq<Sortie>, front: Id, from: int, before: int): nat {
    if sorties == [] then 0
    else
      Flown(sorties[..|sorties| - 1], front, from, before)
      + (if FlownIn(sorties[|sorties| - 1], front, from, before) then 1 else 0)
  }

  /** The front the last kept item with the identifier is filed under. */
  function FrontOf(items: seq<Item>, id: Id): Option<Id> {
    if items == [] then None
    else
      var last := items[|items| - 1];
      if last.id == id && Filed(last) then last.frontId else FrontOf(items[..|items| - 1], id)
  }

  predicate Filed(item: Item) {
    item.status != T.Proposed && item.status != T.Dropped && item.frontId.Some?
  }

  predicate AimedAt(o: Order, items: seq<Item>, front: Id) {
    o.target.Some? && FrontOf(items, o.target.value) == Some(front)
  }

  predicate CarriedOut(o: Order, since: int) {
    o.status == T.OrderDone && o.resolvedOn.Some? && o.resolvedOn.value >= since
  }

  predicate StillOpen(o: Order) {
    o.status == T.OrderOpen || o.status == T.OrderStale
  }

  /** Due by the end of the seventh day from today, or overdue. */
  predicate DueSoon(o: Order, today: int) {
    StillOpen(o) && o.dueOn.Some? && o.dueOn.value < today + DUE_SOON_DAYS + 1
  }

  datatype Tally = Tally(done: nat, open: nat, dueSoon: nat)

  function Tallied(orders: seq<Order>, r: Record, front: Id): (t: Tally)
    ensures t.dueSoon <= t.open
  {
    if orders == [] then Tally(0, 0, 0)
    else
      var before := Tallied(orders[..|orders| - 1], r, front);
      var o := orders[|orders| - 1];
      if !AimedAt(o, r.items, front) then before
      else
        Tally(before.done + (if CarriedOut(o, RecordStart(r)) then 1 else 0),
              before.open + (if StillOpen(o) then 1 else 0),
              before.dueSoon + (if DueSoon(o, r.today) then 1 else 0))
  }

  function CountOf(r: Record, front: Id): Count {
    var t := Tallied(r.orders, r, front);
    Count(Minutes(r.sorties, front, WindowStart(r), r.today + 1), Minutes(r.sorties, front, RecordStart(r), WindowStart(r)),
          Flown(r.sorties, front, WindowStart(r), r.today + 1), t.done, t.open, t.dueSoon)
  }

  function Block(r: Record): int {
    if r.sortieMinutes <= 0 then DEFAULT_MINUTES else r.sortieMinutes
  }

  function StaleWeeks(r: Record): real {
    if r.staleWeeks <= 0.0 then DEFAULT_STALE_WEEKS else r.staleWeeks
  }

  predicate Measured(c: Count) {
    c.done >= RATE_MIN_ORDERS && c.windowMin + c.earlierMin > 0
  }

  function Within(v: real, lo: real, hi: real): real {
    var up := if v < lo then lo else v;
    if up > hi then hi else up
  }

  /** Hours an order: the front's own rate once enough were carried out, else one sortie. */
  function Rate(measured: bool, minutes: int, done: nat, block: int): (h: real)
    requires measured ==> done > 0
    requires block > 0
    ensures h > 0.0
  {
    if measured then Within(minutes as real / 60.0 / done as real, 0.25, 8.0) else block as real / 60.0
  }

  function Weekly(minutes: int, days: int): real
    requires days > 0
  {
    minutes as real / 60.0 * 7.0 / days as real
  }

  function PerOrder(r: Record, c: Count): (h: real)
    ensures h > 0.0
  {
    Rate(Measured(c), c.windowMin + c.earlierMin, c.done, Block(r))
  }

  function PerWeek(r: Record, c: Count): real {
    Weekly(c.windowMin, WindowDays(r.first, r.today))
  }

  /** The orders due, or all that are open, take longer than there will be hours for, by more than one order's worth. */
  predicate Exceeds(perWeek: real, perOrder: real, open: nat, dueSoon: nat, staleWeeks: real) {
    && perWeek > 0.0 && open > 0
    && (dueSoon as real * perOrder > perWeek + perOrder || open as real * perOrder > perWeek * staleWeeks + perOrder)
  }

  predicate Outrun(r: Record, c: Count) {
    r.first != Never && Exceeds(PerWeek(r, c), PerOrder(r, c), c.open, c.dueSoon, StaleWeeks(r))
  }

  predicate Cut(r: Record, c: Count) {
    r.first != Never && c.windowMin == 0 && c.earlierMin > 0 && c.dueSoon > 0
  }

  function ReadingOf(r: Record, front: Id): Reading {
    var c := CountOf(r, front);
    Reading(c, PerWeek(r, c), PerOrder(r, c), Measured(c), Outrun(r, c), Cut(r, c))
  }

  function Readings(r: Record, fronts: seq<Front>): seq<Reading> {
    if fronts == [] then []
    else
      Readings(r, fronts[..|fronts| - 1])
      + (if fronts[|fronts| - 1].active then [ReadingOf(r, fronts[|fronts| - 1].id)] else [])
  }

  // ---------- The procedure ----------

  method IndexFronts(items: seq<Item>) returns (frontOf: map<Id, Id>)
    ensures forall id: Id :: FrontOf(items, id) == if id in frontOf then Some(frontOf[id]) else None
  {
    frontOf := map[];
    for i := 0 to |items|
      invariant forall id: Id :: FrontOf(items[..i], id) == if id in frontOf then Some(frontOf[id]) else None
    {
      assert items[..i + 1][..i] == items[..i];
      var it := items[i];
      if it.status == T.Proposed || it.status == T.Dropped || it.frontId.None? {
        continue;
      }
      frontOf := frontOf[it.id := it.frontId.value];
    }
    assert items[..|items|] == items;
  }

  method CountSorties(r: Record, front: Id) returns (windowMin: int, earlierMin: int, flown: nat)
    ensures windowMin == Minutes(r.sorties, front, WindowStart(r), r.today + 1)
    ensures earlierMin == Minutes(r.sorties, front, RecordStart(r), WindowStart(r))
    ensures flown == Flown(r.sorties, front, WindowStart(r), r.today + 1)
  {
    var windowStart, recordStart := WindowStart(r), RecordStart(r);
    windowMin, earlierMin, flown := 0, 0, 0;
    for i := 0 to |r.sorties|
      invariant windowMin == Minutes(r.sorties[..i], front, windowStart, r.today + 1)
      invariant earlierMin == Minutes(r.sorties[..i], front, recordStart, windowStart)
      invariant flown == Flown(r.sorties[..i], front, windowStart, r.today + 1)
    {
      assert r.sorties[..i + 1][..i] == r.sorties[..i];
      var s := r.sorties[i];
      if s.frontId != front {
        continue;
      }
      if s.day.None? || s.day.value < recordStart || s.day.value > r.today {
        continue;
      }
      if s.day.value < windowStart {
        earlierMin := earlierMin + s.minutes;
        continue;
      }
      windowMin := windowMin + s.minutes;
      flown := flown + 1;
    }
    assert r.sorties[..|r.sorties|] == r.sorties;
  }

  method CountOrders(r: Record, front: Id, frontOf: map<Id, Id>) returns (t: Tally)
    requires forall id: Id :: FrontOf(r.items, id) == if id in frontOf then Some(frontOf[id]) else None
    ensures t == Tallied(r.orders, r, front)
  {
    var done, open, dueSoon := 0, 0, 0;
    for i := 0 to |r.orders|
      invariant Tally(done, open, dueSoon) == Tallied(r.orders[..i], r, front)
    {
      assert r.orders[..i + 1][..i] == r.orders[..i];
      var o := r.orders[i];
      if o.target.None? || o.target.value !in frontOf || frontOf[o.target.value] != front {
        continue;
      }
      match o.status
      case OrderDone =>
        if o.resolvedOn.Some? && o.resolvedOn.value >= RecordStart(r) {
          done := done + 1;
        }
      case OrderOpen | OrderStale =>
        open := open + 1;
        if o.dueOn.Some? && o.dueOn.value < r.today + DUE_SOON_DAYS + 1 {
          dueSoon := dueSoon + 1;
        }
      case OrderProposed | OrderDropped =>
    }
    assert r.orders[..|r.orders|] == r.orders;
    t := Tally(done, open, dueSoon);
  }

  method ReadFront(r: Record, front: Id, frontOf: map<Id, Id>) returns (reading: Reading)
    requires forall id: Id :: FrontOf(r.items, id) == if id in frontOf then Some(frontOf[id]) else None
    ensures reading == ReadingOf(r, front)
  {
    var windowMin, earlierMin, flown := CountSorties(r, front);
    var t := CountOrders(r, front, frontOf);
    var c := Count(windowMin, earlierMin, flown, t.done, t.open, t.dueSoon);
    var perWeek, perOrder := PerWeek(r, c), PerOrder(r, c);
    hide PerWeek, PerOrder, Rate, Weekly, Exceeds;
    var outrun := Judge(perWeek, perOrder, t.open, t.dueSoon, StaleWeeks(r));
    outrun := r.first != Never && outrun;
    var cut := r.first != Never && windowMin == 0 && earlierMin > 0 && t.dueSoon > 0;
    reading := Reading(c, perWeek, perOrder, t.done >= RATE_MIN_ORDERS && windowMin + earlierMin > 0, outrun, cut);
  }

  method Judge(perWeek: real, perOrder: real, open: nat, due: nat, staleWeeks: real) returns (outrun: bool)
    ensures outrun == Exceeds(perWeek, perOrder, open, due, staleWeeks)
  {
    var dueSoon := due as real * perOrder;
    var backlog := open as real * perOrder;
    outrun := perWeek > 0.0 && open > 0
      && (dueSoon > perWeek + perOrder || backlog > perWeek * staleWeeks + perOrder);
  }

  method ReadFronts(r: Record, fronts: seq<Front>) returns (out: seq<Reading>)
    ensures out == Readings(r, fronts)
  {
    var frontOf := IndexFronts(r.items);
    out := [];
    for i := 0 to |fronts|
      invariant out == Readings(r, fronts[..i])
    {
      assert fronts[..i + 1][..i] == fronts[..i];
      if !fronts[i].active {
        continue;
      }
      var reading := ReadFront(r, fronts[i].id, frontOf);
      out := out + [reading];
    }
    assert fronts[..|fronts|] == fronts;
  }

  // ---------- What the readings mean ----------

  lemma {:induction false} MinutesSplit(sorties: seq<Sortie>, front: Id, a: int, b: int, c: int)
    requires a <= b <= c
    ensures Minutes(sorties, front, a, b) + Minutes(sorties, front, b, c) == Minutes(sorties, front, a, c)
  {
    if sorties != [] {
      MinutesSplit(sorties[..|sorties| - 1], front, a, b, c);
    }
  }

  /** Every minute of the four-week record is counted once: in the window or before it. */
  lemma RecordIsWindowAndEarlier(r: Record, front: Id)
    ensures var c := CountOf(r, front);
            c.windowMin + c.earlierMin == Minutes(r.sorties, front, r.today - 27, r.today + 1)
  {
    MinutesSplit(r.sorties, front, RecordStart(r), WindowStart(r), r.today + 1);
  }

  /** A front is never both outrunning its supply and cut off from it. */
  lemma NeverBoth(r: Record, front: Id)
    ensures !(ReadingOf(r, front).outrun && ReadingOf(r, front).cut)
  {
  }

  lemma {:induction false} TalliedAppend(a: seq<Order>, b: seq<Order>, r: Record, front: Id)
    ensures var x, y, t := Tallied(a, r, front), Tallied(b, r, front), Tallied(a + b, r, front);
            t == Tally(x.done + y.done, x.open + y.open, x.dueSoon + y.dueSoon)
  {
    if b == [] {
      assert a + b == a;
    } else {
      var n := |b| - 1;
      hide AimedAt, CarriedOut, StillOpen, DueSoon;
      TalliedAppend(a, b[..n], r, front);
      assert (a + b)[..|a| + n] == a + b[..n] && (a + b)[|a| + n] == b[n];
    }
  }

  predicate MoreWork(c: Count, d: Count) {
    d == c.(open := d.open, dueSoon := d.dueSoon) && c.open <= d.open && c.dueSoon <= d.dueSoon
  }

  lemma TimesMore(a: nat, b: nat, h: real)
    requires a <= b && h > 0.0
    ensures a as real * h <= b as real * h
  {
    assert b as real * h - a as real * h == (b - a) as real * h >= 0.0;
  }

  lemma MoreWorkKeepsReadings(r: Record, c: Count, d: Count)
    requires MoreWork(c, d)
    ensures Outrun(r, c) ==> Outrun(r, d)
    ensures Cut(r, c) ==> Cut(r, d)
  {
    hide Rate, Weekly, Exceeds;
    if Outrun(r, c) {
      MoreExceeds(PerWeek(r, c), PerOrder(r, c), c, d, StaleWeeks(r));
    }
  }

  lemma MoreExceeds(perWeek: real, perOrder: real, c: Count, d: Count, staleWeeks: real)
    requires c.open <= d.open && c.dueSoon <= d.dueSoon && perOrder > 0.0
    requires Exceeds(perWeek, perOrder, c.open, c.dueSoon, staleWeeks)
    ensures Exceeds(perWeek, perOrder, d.open, d.dueSoon, staleWeeks)
  {
    TimesMore(c.open, d.open, perOrder);
    TimesMore(c.dueSoon, d.dueSoon, perOrder);
  }

  lemma DueIsOpen(o: Order, today: int)
    ensures DueSoon(o, today) ==> StillOpen(o)
  {
  }

  lemma OneOrderCounts(r: Record, before: seq<Order>, o: Order, after: seq<Order>, front: Id)
    requires StillOpen(o)
    ensures var a, b := CountOf(r.(orders := before + after), front), CountOf(r.(orders := before + [o] + after), front);
            MoreWork(a, b) && (!AimedAt(o, r.items, front) ==> a == b)
  {
    hide Minutes, Flown, AimedAt, DueSoon;
    var less, more := r.(orders := before + after), r.(orders := before + [o] + after);
    DueIsOpen(o, r.today);
    TalliedAppend(before, after, r, front);
    TalliedAppend(before + [o], after, r, front);
    TalliedAppend(before, [o], r, front);
    assert [o][..0] == [];
    TalliedForget(before + after, less, r, front);
    TalliedForget(before + [o] + after, more, r, front);
  }

  /** One order more, wherever in the list and whatever its date, never turns a reading off; on another front it changes
      nothing here. */
  lemma OneOrderMore(r: Record, before: seq<Order>, o: Order, after: seq<Order>, front: Id)
    requires StillOpen(o)
    ensures var less, more := r.(orders := before + after), r.(orders := before + [o] + after);
            && (ReadingOf(less, front).outrun ==> ReadingOf(more, front).outrun)
            && (ReadingOf(less, front).cut ==> ReadingOf(more, front).cut)
            && (!AimedAt(o, r.items, front) ==> ReadingOf(less, front) == ReadingOf(more, front))
  {
    hide PerOrder, PerWeek, Outrun, Cut, CountOf, MoreWork, AimedAt;
    var less, more := r.(orders := before + after), r.(orders := before + [o] + after);
    OneOrderCounts(r, before, o, after, front);
    MoreWorkKeepsReadings(less, CountOf(less, front), CountOf(more, front));
    SameButOrders(less, more, CountOf(more, front));
  }

  lemma {:induction false} TalliedForget(orders: seq<Order>, a: Record, b: Record, front: Id)
    requires a == b.(orders := a.orders)
    ensures Tallied(orders, a, front) == Tallied(orders, b, front)
  {
    if orders != [] {
      TalliedForget(orders[..|orders| - 1], a, b, front);
    }
  }

  lemma SameButOrders(a: Record, b: Record, c: Count)
    requires a == b.(orders := a.orders)
    ensures Outrun(a, c) == Outrun(b, c) && Cut(a, c) == Cut(b, c)
    ensures PerOrder(a, c) == PerOrder(b, c) && PerWeek(a, c) == PerWeek(b, c)
  {
    hide Rate, Weekly, Exceeds;
  }
}
