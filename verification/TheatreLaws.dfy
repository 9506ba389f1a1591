/** What the layout guarantees: every item and order on the map is drawn and counted exactly once, and the front
    line only advances as things close. */
module TheatreLaws {
  import opened Common
  import opened Sequences
  import opened Partition
  import opened Theatre

  ghost predicate DistinctItems(items: seq<Item>) {
    forall i, j :: 0 <= i < j < |items| ==> items[i].id != items[j].id
  }

  ghost predicate DistinctFronts(fronts: seq<Front>) {
    forall i, j :: 0 <= i < j < |fronts| ==> fronts[i].id != fronts[j].id
  }

  // ---------- Sums do not depend on order ----------

  /** What items add up to does not depend on the order they are met in. */
  lemma {:induction false} SumPermute(a: seq<Item>, b: seq<Item>, byTarget: Targets)
    requires multiset(a) == multiset(b)
    ensures Sum(a, byTarget) == Sum(b, byTarget)
  {
    hide Chips, Sums.Plus;
    if a == [] {
      assert |multiset(b)| == 0;
    } else {
      var n := |a| - 1;
      RemoveAt(a, n);
      assert a[..n] + a[n + 1..] == a[..n];
      assert a[n] in multiset(a);
      var j := SomewhereIn(b, a[n]);
      RemoveAt(b, j);
      SumPermute(a[..n], b[..j] + b[j + 1..], byTarget);
      SumMove(b[..j], b[j], b[j + 1..], byTarget);
      assert b == b[..j] + [b[j]] + b[j + 1..];
    }
  }

  lemma SumMove(a: seq<Item>, x: Item, b: seq<Item>, byTarget: Targets)
    ensures Sum(a + [x] + b, byTarget) == Sum(a + b, byTarget).Plus(Chips(x, byTarget))
  {
    hide Chips, Sums.Plus;
    SumAppend(a + [x], b, byTarget);
    SumOne(a, x, byTarget);
    SumAppend(a, b, byTarget);
    PlusSwap(Sum(a, byTarget), Chips(x, byTarget), Sum(b, byTarget));
  }

  lemma PlusSwap(a: Sums, b: Sums, c: Sums)
    ensures a.Plus(b).Plus(c) == a.Plus(c).Plus(b)
  {
  }

  // ---------- Every item lands on one row of one lane ----------

  lemma {:induction false} ObjectivesAndOthers(items: seq<Item>)
    ensures multiset(items) == multiset(Objectives(items)) + multiset(Others(items))
  {
    if items != [] {
      assert items == items[..|items| - 1] + [items[|items| - 1]];
      ObjectivesAndOthers(items[..|items| - 1]);
    }
  }

  lemma {:induction false} RankedCover(items: seq<Item>)
    ensures multiset(items) == multiset(Ranked(items, 0)) + multiset(Ranked(items, 1)) + multiset(Ranked(items, 2))
  {
    if items != [] {
      assert items == items[..|items| - 1] + [items[|items| - 1]];
      RankedCover(items[..|items| - 1]);
    }
  }

  /** Sorting the objectives keeps them. */
  lemma StableByRankPermutes(items: seq<Item>)
    ensures multiset(StableByRank(items)) == multiset(items)
  {
    RankedCover(items);
  }

  lemma IdsOfIsMap(items: seq<Item>, id: Item -> Id)
    requires forall it :: id(it) == it.id
    ensures IdsOf(items) == Map(id, items)
  {
    if items != [] { IdsOfIsMap(items[..|items| - 1], id); }
  }

  lemma IdsPermute(a: seq<Item>, b: seq<Item>)
    requires multiset(a) == multiset(b)
    ensures multiset(IdsOf(a)) == multiset(IdsOf(b))
    ensures Keys(IdsOf(a)) == Keys(IdsOf(b))
  {
    var id := (it: Item) => it.id;
    IdsOfIsMap(a, id);
    IdsOfIsMap(b, id);
    MapPermute(id, a, b);
    assert forall k :: k in IdsOf(a) <==> k in multiset(IdsOf(a));
    assert forall k :: k in IdsOf(b) <==> k in multiset(IdsOf(b));
  }

  lemma {:induction false} DistinctMeetsOnce(keys: seq<Id>, k: Id)
    requires Distinct(keys)
    ensures multiset(keys)[k] <= 1
  {
    if keys != [] {
      var n := |keys| - 1;
      assert keys == keys[..n] + [keys[n]];
      DistinctMeetsOnce(keys[..n], k);
      assert keys[n] !in keys[..n];
      assert keys[n] !in multiset(keys[..n]);
    }
  }

  lemma RepeatMeetsTwice(keys: seq<Id>, i: nat, j: nat)
    requires i < j < |keys| && keys[i] == keys[j]
    ensures multiset(keys)[keys[j]] >= 2
  {
    RemoveAt(keys, j);
    var others := keys[..j] + keys[j + 1..];
    assert others[i] == keys[j];
    assert keys[j] in multiset(others);
  }

  lemma DistinctWithin(keys: seq<Id>, all: seq<Id>)
    requires multiset(keys) <= multiset(all) && Distinct(all)
    ensures Distinct(keys)
  {
    forall i, j | 0 <= i < j < |keys| ensures keys[i] != keys[j] {
      DistinctMeetsOnce(all, keys[j]);
      if keys[i] == keys[j] { RepeatMeetsTwice(keys, i, j); }
    }
  }

  lemma IdsWithin(part: seq<Item>, whole: seq<Item>)
    requires multiset(part) <= multiset(whole) && DistinctItems(whole)
    ensures Distinct(IdsOf(part))
  {
    var id := (it: Item) => it.id;
    IdsOfIsMap(part, id);
    IdsOfIsMap(whole, id);
    MapWithin(id, part, whole);
    DistinctWithin(IdsOf(part), IdsOf(whole));
  }

  lemma {:induction false} MapWithin<A, B>(f: A -> B, part: seq<A>, whole: seq<A>)
    requires multiset(part) <= multiset(whole)
    ensures multiset(Map(f, part)) <= multiset(Map(f, whole))
  {
    if part != [] {
      var n := |part| - 1;
      RemoveAt(part, n);
      assert part[..n] + part[n + 1..] == part[..n];
      assert part[n] in multiset(part);
      var j := SomewhereIn(whole, part[n]);
      RemoveAt(whole, j);
      MapWithin(f, part[..n], whole[..j] + whole[j + 1..]);
      MapAppend(f, whole[..j], whole[j + 1..]);
      MapAppend(f, whole[..j] + [whole[j]], whole[j + 1..]);
      MapAppend(f, whole[..j], [whole[j]]);
      assert [whole[j]][..0] == [];
    }
  }

  lemma {:induction false} OnRowsAre(objectives: seq<Item>, items: seq<Item>)
    ensures multiset(OnRows(objectives, items, false))
         == multiset(objectives) + multiset(Groups(Others(items), ParentOf, IdsOf(objectives)))
  {
    if objectives != [] {
      var n := |objectives| - 1;
      var last := objectives[n];
      assert objectives == objectives[..n] + [last];
      OnRowsAre(objectives[..n], items);
      assert IdsOf(objectives)[..n] == IdsOf(objectives[..n]);
      assert multiset(OnRow(Some(last), Bearing(items, last))) == multiset{last} + multiset(Bearing(items, last));
    }
  }

  /** A lane's rows hold the lane's items, each once. */
  lemma LaneKeepsItems(items: seq<Item>)
    requires DistinctItems(items)
    ensures multiset(OnLane(items, false)) == multiset(items)
  {
    var objectives := Objectives(items);
    var sorted := StableByRank(objectives);
    StableByRankPermutes(objectives);
    ObjectivesAndOthers(items);
    IdsWithin(sorted, items);
    IdsPermute(objectives, sorted);
    OnRowsAre(sorted, items);
    PartitionByKey(Others(items), ParentOf, IdsOf(sorted));
  }

  lemma {:induction false} WithKeyWithin<T>(things: seq<T>, key: T -> Option<Id>, k: Id)
    ensures multiset(WithKey(things, key, k)) <= multiset(things)
  {
    if things != [] {
      assert things == things[..|things| - 1] + [things[|things| - 1]];
      WithKeyWithin(things[..|things| - 1], key, k);
    }
  }

  lemma {:induction false} OutsideWithin<T>(things: seq<T>, key: T -> Option<Id>, keys: set<Id>)
    ensures multiset(Outside(things, key, keys)) <= multiset(things)
  {
    if things != [] {
      assert things == things[..|things| - 1] + [things[|things| - 1]];
      OutsideWithin(things[..|things| - 1], key, keys);
    }
  }

  lemma DistinctPart(part: seq<Item>, whole: seq<Item>)
    requires multiset(part) <= multiset(whole) && DistinctItems(whole)
    ensures DistinctItems(part)
  {
    IdsWithin(part, whole);
    forall i, j | 0 <= i < j < |part| ensures part[i].id != part[j].id {
      assert IdsOf(part)[i] != IdsOf(part)[j];
    }
  }

  lemma {:induction false} OnLanesAre(active: seq<Front>, placed: seq<Item>)
    requires DistinctItems(placed)
    ensures multiset(OnLanes(active, placed)) == multiset(Groups(placed, FrontOf, FrontIds(active)))
  {
    if active != [] {
      var n := |active| - 1;
      var items := WithKey(placed, FrontOf, active[n].id);
      OnLanesAre(active[..n], placed);
      assert FrontIds(active)[..n] == FrontIds(active[..n]);
      WithKeyWithin(placed, FrontOf, active[n].id);
      DistinctPart(items, placed);
      LaneKeepsItems(items);
    }
  }

  lemma {:induction false} ActiveAmong(fronts: seq<Front>, k: Id)
    requires k in FrontIds(ActiveFronts(fronts))
    ensures exists i :: 0 <= i < |fronts| && fronts[i].id == k
  {
    if fronts != [] {
      var n := |fronts| - 1;
      var front := ActiveFronts(fronts[..n]);
      assert fronts == fronts[..n] + [fronts[n]];
      assert FrontIds(front + [fronts[n]])[..|front|] == FrontIds(front) by {
        assert (front + [fronts[n]])[..|front|] == front;
      }
      if fronts[n].id != k {
        assert k in FrontIds(front);
        ActiveAmong(fronts[..n], k);
        var i :| 0 <= i < n && fronts[..n][i].id == k;
        assert fronts[i].id == k;
      }
    }
  }

  lemma {:induction false} ActiveAreDistinct(fronts: seq<Front>)
    requires DistinctFronts(fronts)
    ensures Distinct(FrontIds(ActiveFronts(fronts)))
  {
    if fronts != [] {
      var n := |fronts| - 1;
      var front := ActiveFronts(fronts[..n]);
      ActiveAreDistinct(fronts[..n]);
      assert fronts == fronts[..n] + [fronts[n]];
      if fronts[n].status == FrontActive {
        if fronts[n].id in FrontIds(front) {
          ActiveAmong(fronts[..n], fronts[n].id);
        }
        var ids := FrontIds(front + [fronts[n]]);
        assert (front + [fronts[n]])[..|front|] == front;
        assert ids == FrontIds(front) + [fronts[n].id];
      }
    }
  }

  lemma {:induction false} PlacedWithin(items: seq<Item>)
    ensures multiset(Placed(items)) <= multiset(items)
  {
    if items != [] {
      assert items == items[..|items| - 1] + [items[|items| - 1]];
      PlacedWithin(items[..|items| - 1]);
    }
  }

  /** The items on all the lanes, in the order they are drawn. */
  function Drawn(fronts: seq<Front>, items: seq<Item>): seq<Item> {
    var active, placed := ActiveFronts(fronts), Placed(items);
    OnLanes(active, placed) + OnLane(Unassigned(active, placed), false)
  }

  /** Every item not proposed or dropped is on exactly one row of exactly one lane, and nothing else is. */
  lemma EveryItemOnce(fronts: seq<Front>, items: seq<Item>)
    requires DistinctItems(items) && DistinctFronts(fronts)
    ensures multiset(Drawn(fronts, items)) == multiset(Placed(items))
  {
    var active, placed := ActiveFronts(fronts), Placed(items);
    PlacedWithin(items);
    DistinctPart(placed, items);
    ActiveAreDistinct(fronts);
    OnLanesAre(active, placed);
    PartitionByKey(placed, FrontOf, FrontIds(active));
    OutsideWithin(placed, FrontOf, Keys(FrontIds(active)));
    DistinctPart(Unassigned(active, placed), placed);
    LaneKeepsItems(Unassigned(active, placed));
  }

  /** And so the totals are those of the items on the map, whichever rows they were counted on. */
  lemma TotalsAreTheMaps(fronts: seq<Front>, items: seq<Item>, orders: seq<Order>)
    requires DistinctItems(items) && DistinctFronts(fronts)
    ensures TotalsOf(fronts, items, orders) == TotalsIn(Sum(Placed(items), TargetsOf(orders)))
  {
    EveryItemOnce(fronts, items);
    SumPermute(Drawn(fronts, items), Placed(items), TargetsOf(orders));
  }

  lemma KindOfOne(item: Item, byTarget: Targets)
    ensures var one := Chips(item, byTarget);
            one.objectives + one.opposition + one.cleared + one.fog + one.lifted == 1
  {
  }

  /** Every item on the map is counted once by kind. */
  lemma {:induction false} KindsAddUp(items: seq<Item>, byTarget: Targets)
    ensures var sum := Sum(items, byTarget);
            sum.objectives + sum.opposition + sum.cleared + sum.fog + sum.lifted == |items|
  {
    hide Chips;
    if items != [] {
      KindsAddUp(items[..|items| - 1], byTarget);
      KindOfOne(items[|items| - 1], byTarget);
    }
  }

  /** The objective, obstacle and unknown totals sum to the number of items placed. */
  lemma TotalsCountEveryItem(fronts: seq<Front>, items: seq<Item>, orders: seq<Order>)
    requires DistinctItems(items) && DistinctFronts(fronts)
    ensures var t := TotalsOf(fronts, items, orders);
            t.objectives + t.opposition + t.cleared + t.fog + t.lifted == |Placed(items)|
  {
    TotalsAreTheMaps(fronts, items, orders);
    KindsAddUp(Placed(items), TargetsOf(orders));
  }

  // ---------- Every order is counted once ----------

  function TargetOf(order: Order): Option<Id> {
    order.targetId
  }

  lemma {:induction false} AimedAtIsWithKey(orders: seq<Order>, id: Id)
    ensures AimedAt(TargetsOf(orders), id) == WithKey(Aimed(orders), TargetOf, id)
  {
    if orders != [] {
      var n := |orders| - 1;
      AimedAtIsWithKey(orders[..n], id);
      assert Aimed(orders) == if Agreed(orders[n]) then Aimed(orders[..n]) + [orders[n]] else Aimed(orders[..n]);
      WithKeyOne(Aimed(orders[..n]), TargetOf, id, orders[n]);
    }
  }

  lemma {:induction false} DoneAppend(a: seq<Order>, b: seq<Order>)
    ensures Done(a + b) == Done(a) + Done(b)
  {
    if b == [] {
      assert a + b == a;
    } else {
      assert (a + b)[..|a| + |b| - 1] == a + b[..|b| - 1];
      DoneAppend(a, b[..|b| - 1]);
    }
  }

  lemma ChipsOfOrders(s: Sums, item: Item, byTarget: Targets)
    ensures var t, orders := s.Plus(Chips(item, byTarget)), AimedAt(byTarget, item.id);
            t.open + t.done == s.open + s.done + |orders| && t.done == s.done + Done(orders)
  {
  }

  /** The orders aimed at these items are counted once each, the done ones as done. */
  lemma {:induction false} OrdersAddUp(items: seq<Item>, orders: seq<Order>)
    ensures var sum := Sum(items, TargetsOf(orders));
            var aimed := Groups(Aimed(orders), TargetOf, IdsOf(items));
            sum.open + sum.done == |aimed| && sum.done == Done(aimed)
  {
    hide Chips, Sums.Plus, TargetsOf, AimedAt, WithKey, Done;
    if items == [] {
      DoneAppend([], []);
    } else {
      var n := |items| - 1;
      OrdersAddUp(items[..n], orders);
      ChipsOfOrders(Sum(items[..n], TargetsOf(orders)), items[n], TargetsOf(orders));
      AimedAtIsWithKey(orders, items[n].id);
      assert IdsOf(items)[..n] == IdsOf(items[..n]);
      DoneAppend(Groups(Aimed(orders), TargetOf, IdsOf(items[..n])), WithKey(Aimed(orders), TargetOf, items[n].id));
    }
  }

  /** The kept orders aimed at an item on the map are a selection without repeats of the orders kept, missing only
      those aimed elsewhere; open and done together count each of them once. */
  lemma EveryOrderOnce(fronts: seq<Front>, items: seq<Item>, orders: seq<Order>)
    requires DistinctItems(items) && DistinctFronts(fronts)
    ensures var t := TotalsOf(fronts, items, orders);
            var aimed := Groups(Aimed(orders), TargetOf, IdsOf(Placed(items)));
            && t.ordersOpen + t.ordersDone == |aimed| && t.ordersDone == Done(aimed)
            && multiset(aimed) + multiset(Outside(Aimed(orders), TargetOf, Keys(IdsOf(Placed(items))))) == multiset(Aimed(orders))
  {
    PlacedWithin(items);
    IdsWithin(Placed(items), items);
    TotalsAreTheMaps(fronts, items, orders);
    OrdersAddUp(Placed(items), orders);
    PartitionByKey(Aimed(orders), TargetOf, IdsOf(Placed(items)));
  }

  function RowOrders(rows: seq<Row>): OrderCount {
    if rows == [] then OrderCount(0, 0, 0) else AddOrders(RowOrders(rows[..|rows| - 1]), rows[|rows| - 1].orders)
  }

  function LaneOrders(lanes: seq<Lane>): OrderCount {
    if lanes == [] then OrderCount(0, 0, 0) else AddOrders(LaneOrders(lanes[..|lanes| - 1]), RowOrders(lanes[|lanes| - 1].rows))
  }

  lemma {:induction false} RowsCountOrders(objectives: seq<Item>, items: seq<Item>, byTarget: Targets, now: int)
    ensures RowOrders(RowsOf(objectives, items, byTarget, now)) == OrdersIn(Sum(OnRows(objectives, items, false), byTarget))
  {
    hide Chips, Sums.Plus, OrdersIn, AddOrders;
    if objectives == [] {
      OrdersAdd(NONE, NONE);
    } else {
      var n := |objectives| - 1;
      var last := objectives[n];
      var on := OnRows(objectives[..n], items, false);
      var row := OnRow(Some(last), Bearing(items, last));
      RowsCountOrders(objectives[..n], items, byTarget, now);
      SumAppend(on, row, byTarget);
      OrdersAdd(Sum(on, byTarget), Sum(row, byTarget));
    }
  }

  lemma LaneCountsOrders(id: Option<Id>, name: string, items: seq<Item>, byTarget: Targets, now: int)
    ensures RowOrders(LaneOf(id, name, items, byTarget, now).rows) == OrdersIn(Sum(OnLane(items, false), byTarget))
  {
    hide Chips, Sums.Plus, OrdersIn, AddOrders, Sum;
    var sorted := StableByRank(Objectives(items));
    var rows := RowsOf(sorted, items, byTarget, now);
    var on := OnRows(sorted, items, false);
    RowsCountOrders(sorted, items, byTarget, now);
    SumAppend(on, Loose(items), byTarget);
    OrdersAdd(Sum(on, byTarget), Sum(Loose(items), byTarget));
    if Loose(items) == [] {
      assert OnLane(items, false) == on;
      assert LaneOf(id, name, items, byTarget, now).rows == rows;
    } else {
      var last := RowOf(None, Loose(items), byTarget, now);
      assert OnRow(None, Loose(items)) == Loose(items);
      assert (rows + [last])[..|rows|] == rows;
    }
  }

  lemma {:induction false} LanesCountOrders(active: seq<Front>, placed: seq<Item>, byTarget: Targets, now: int)
    ensures LaneOrders(LanesOf(active, placed, byTarget, now)) == OrdersIn(Sum(OnLanes(active, placed), byTarget))
  {
    hide Chips, Sums.Plus, OrdersIn, AddOrders, OnLane, LaneOf, RowOrders;
    if active == [] {
      OrdersAdd(NONE, NONE);
    } else {
      var n := |active| - 1;
      var items := WithKey(placed, FrontOf, active[n].id);
      LanesCountOrders(active[..n], placed, byTarget, now);
      LaneCountsOrders(Some(active[n].id), active[n].name, items, byTarget, now);
      SumAppend(OnLanes(active[..n], placed), OnLane(items, false), byTarget);
      OrdersAdd(Sum(OnLanes(active[..n], placed), byTarget), Sum(OnLane(items, false), byTarget));
    }
  }

  /** The order counts drawn on the rows sum to the totals. */
  lemma RowOrdersSumToTotals(fronts: seq<Front>, items: seq<Item>, orders: seq<Order>, now: int)
    ensures var t := TotalsOf(fronts, items, orders);
            var rows := LaneOrders(Laid(fronts, items, orders, now));
            rows.open == t.ordersOpen && rows.done == t.ordersDone
  {
    hide Chips, Sums.Plus, AddOrders, OnLane, LaneOf, RowOrders, Sum, OnLanes, LanesOf;
    var active, placed, byTarget := ActiveFronts(fronts), Placed(items), TargetsOf(orders);
    var rest := Unassigned(active, placed);
    var lanes := LanesOf(active, placed, byTarget, now);
    LanesCountOrders(active, placed, byTarget, now);
    LaneCountsOrders(None, "No front", rest, byTarget, now);
    SumAppend(OnLanes(active, placed), OnLane(rest, false), byTarget);
    OrdersAdd(Sum(OnLanes(active, placed), byTarget), Sum(OnLane(rest, false), byTarget));
    EmptyLane();
    if rest == [] {
      assert OnLanes(active, placed) + OnLane(rest, false) == OnLanes(active, placed);
      assert Laid(fronts, items, orders, now) == lanes;
    } else {
      var last := LaneOf(None, "No front", rest, byTarget, now);
      assert (lanes + [last])[..|lanes|] == lanes;
    }
  }

  // ---------- Every item is drawn once ----------

  function RowPosts(row: Row): seq<Post> {
    (if row.objective.Some? then [row.objective.value] else []) + row.obstacles + row.unknowns
  }

  function LanePosts(lane: Lane): seq<Post> {
    FlatMap(RowPosts, lane.rows)
  }

  lemma {:induction false} KidsPosts(kids: seq<Item>, now: int, draw: Item -> Post)
    requires forall it :: draw(it) == PostOf(it, now)
    requires forall k :: k in kids ==> k.type_ != Objective
    ensures multiset(PostsOf(kids, Obstacle, now)) + multiset(PostsOf(kids, Unknown, now)) == multiset(Map(draw, kids))
  {
    hide PostOf;
    if kids != [] {
      var n := |kids| - 1;
      assert kids == kids[..n] + [kids[n]];
      assert kids[n] in kids;
      KidsPosts(kids[..n], now, draw);
    }
  }

  lemma RowPostsAre(objective: Option<Item>, kids: seq<Item>, byTarget: Targets, now: int, draw: Item -> Post)
    requires forall it :: draw(it) == PostOf(it, now)
    requires forall k :: k in kids ==> k.type_ != Objective
    ensures multiset(RowPosts(RowOf(objective, kids, byTarget, now))) == multiset(Map(draw, OnRow(objective, kids)))
  {
    hide PostOf, PostsOf, Line, OrdersIn, Sum;
    KidsPosts(kids, now, draw);
    if objective.Some? {
      MapAppend(draw, [objective.value], kids);
      MapOne(draw, objective.value);
    } else {
      assert OnRow(objective, kids) == kids;
    }
  }

  lemma MapOne<A, B>(f: A -> B, x: A)
    ensures Map(f, [x]) == [f(x)]
  {
    assert [x][..0] == [];
  }

  lemma {:induction false} OthersAreOthers(items: seq<Item>)
    ensures forall k :: k in Others(items) ==> k.type_ != Objective
  {
    if items != [] { OthersAreOthers(items[..|items| - 1]); }
  }

  lemma BearingAreOthers(items: seq<Item>, objective: Item)
    ensures forall k :: k in Bearing(items, objective) || k in Loose(items) ==> k.type_ != Objective
  {
    var others := Others(items);
    var bearing, loose := Bearing(items, objective), Loose(items);
    OthersAreOthers(items);
    WithKeyWithin(others, ParentOf, objective.id);
    OutsideWithin(others, ParentOf, Keys(IdsOf(Objectives(items))));
    assert forall k :: k in bearing ==> k in multiset(bearing);
    assert forall k :: k in loose ==> k in multiset(loose);
    assert forall k :: k in multiset(others) ==> k in others;
  }

  lemma {:induction false} RowsPostsAre(
    objectives: seq<Item>, items: seq<Item>, byTarget: Targets, now: int, draw: Item -> Post)
    requires forall it :: draw(it) == PostOf(it, now)
    ensures multiset(FlatMap(RowPosts, RowsOf(objectives, items, byTarget, now)))
         == multiset(Map(draw, OnRows(objectives, items, false)))
  {
    hide RowOf, RowPosts, OnRow, Bearing, PostOf;
    if objectives != [] {
      var n := |objectives| - 1;
      var last := objectives[n];
      var kids := Bearing(items, last);
      RowsPostsAre(objectives[..n], items, byTarget, now, draw);
      BearingAreOthers(items, last);
      RowPostsAre(Some(last), kids, byTarget, now, draw);
      FlatMapOne(RowPosts, RowsOf(objectives[..n], items, byTarget, now), RowOf(Some(last), kids, byTarget, now));
      MapAppend(draw, OnRows(objectives[..n], items, false), OnRow(Some(last), kids));
    }
  }

  lemma LanePostsAre(id: Option<Id>, name: string, items: seq<Item>, byTarget: Targets, now: int, draw: Item -> Post)
    requires forall it :: draw(it) == PostOf(it, now)
    ensures multiset(LanePosts(LaneOf(id, name, items, byTarget, now))) == multiset(Map(draw, OnLane(items, false)))
  {
    hide RowOf, RowPosts, PostOf, Line, RowsOf, OnRows, StableByRank, Loose, FlatMap, Map;
    var sorted := StableByRank(Objectives(items));
    var rows := RowsOf(sorted, items, byTarget, now);
    var loose := Loose(items);
    RowsPostsAre(sorted, items, byTarget, now, draw);
    if loose == [] {
      assert OnLane(items, false) == OnRows(sorted, items, false);
      assert rows + [] == rows;
    } else {
      MapAppend(draw, OnRows(sorted, items, false), loose);
      LooseAreOthers(items);
      RowPostsAre(None, loose, byTarget, now, draw);
      assert OnRow(None, loose) == loose;
      FlatMapOne(RowPosts, rows, RowOf(None, loose, byTarget, now));
    }
  }

  lemma LooseAreOthers(items: seq<Item>)
    ensures forall k :: k in Loose(items) ==> k.type_ != Objective
  {
    if items != [] { BearingAreOthers(items, items[0]); }
  }

  lemma {:induction false} LanesPostsAre(
    active: seq<Front>, placed: seq<Item>, byTarget: Targets, now: int, draw: Item -> Post)
    requires forall it :: draw(it) == PostOf(it, now)
    ensures multiset(FlatMap(LanePosts, LanesOf(active, placed, byTarget, now)))
         == multiset(Map(draw, OnLanes(active, placed)))
  {
    hide LaneOf, LanePosts, OnLane, PostOf, WithKey;
    if active != [] {
      var n := |active| - 1;
      var items := WithKey(placed, FrontOf, active[n].id);
      LanesPostsAre(active[..n], placed, byTarget, now, draw);
      LanePostsAre(Some(active[n].id), active[n].name, items, byTarget, now, draw);
      FlatMapOne(LanePosts, LanesOf(active[..n], placed, byTarget, now),
                 LaneOf(Some(active[n].id), active[n].name, items, byTarget, now));
      MapAppend(draw, OnLanes(active[..n], placed), OnLane(items, false));
    }
  }

  /** Items as the map shows them. */
  function Posts(items: seq<Item>, now: int): (r: seq<Post>)
    ensures |r| == |items| && forall i :: 0 <= i < |r| ==> r[i] == PostOf(items[i], now)
  {
    seq(|items|, i requires 0 <= i < |items| => PostOf(items[i], now))
  }

  lemma {:induction false} PostsAreMapped(items: seq<Item>, now: int, draw: Item -> Post)
    requires forall it :: draw(it) == PostOf(it, now)
    ensures Map(draw, items) == Posts(items, now)
  {
    hide PostOf;
    if items != [] {
      var n := |items| - 1;
      PostsAreMapped(items[..n], now, draw);
      assert Posts(items, now) == Posts(items[..n], now) + [PostOf(items[n], now)];
    }
  }

  /** The map shows exactly the posts of the items not proposed or dropped, each once, over all lanes and rows. */
  lemma EveryItemDrawnOnce(fronts: seq<Front>, items: seq<Item>, orders: seq<Order>, now: int)
    requires DistinctItems(items) && DistinctFronts(fronts)
    ensures multiset(FlatMap(LanePosts, Laid(fronts, items, orders, now))) == multiset(Posts(Placed(items), now))
  {
    hide LaneOf, LanePosts, OnLane, PostOf, Placed, ActiveFronts, TargetsOf, LanesOf, OnLanes;
    var draw := (it: Item) => PostOf(it, now);
    PostsAreMapped(Placed(items), now, draw);
    var active, placed, byTarget := ActiveFronts(fronts), Placed(items), TargetsOf(orders);
    var rest := Unassigned(active, placed);
    LanesPostsAre(active, placed, byTarget, now, draw);
    LanePostsAre(None, "No front", rest, byTarget, now, draw);
    MapAppend(draw, OnLanes(active, placed), OnLane(rest, false));
    EveryItemOnce(fronts, items);
    MapPermute(draw, Drawn(fronts, items), placed);
    EmptyLane();
    if rest == [] {
      assert Drawn(fronts, items) == OnLanes(active, placed);
      assert Laid(fronts, items, orders, now) == LanesOf(active, placed, byTarget, now);
    } else {
      FlatMapOne(LanePosts, LanesOf(active, placed, byTarget, now), LaneOf(None, "No front", rest, byTarget, now));
    }
  }
}
