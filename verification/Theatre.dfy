/** How the campaign map is drawn: lanes, rows, and the line of each lane. */
module Theatre {
  import opened Common
  import opened Partition

  const WEIGHT_OBJECTIVE := 2
  const WEIGHT_UNKNOWN := 1
  const WEIGHT_ORDER := 1
  const STRENGTH_DUG_IN := 2

  datatype FrontStatus = FrontActive | FrontWithdrawn

  datatype Front = Front(id: Id, name: string, status: FrontStatus)

  datatype Type = Objective | Obstacle | Unknown

  datatype Status = Proposed | Active | Resolved | Withdrawn | Dropped

  /** `kind` is empty and `strength` zero where none was given; `dueAt` is a moment. */
  datatype Item = Item(
    id: Id, type_: Type, frontId: Option<Id>, objectiveId: Option<Id>, text: string, status: Status,
    kind: string, strength: nat, strengthConfirmed: bool, dueAt: Option<int>)

  datatype OrderStatus = OrderProposed | OrderOpen | OrderDone | OrderDropped | OrderStale

  datatype Order = Order(id: Id, targetId: Option<Id>, status: OrderStatus, recon: bool)

  datatype Post = Post(
    id: Id, text: string, status: Status, kind: string, strength: nat, estimated: bool, due: Option<int>, overdue: bool)

  datatype OrderCount = OrderCount(open: nat, done: nat, recon: nat)

  datatype Row = Row(objective: Option<Post>, progress: real, obstacles: seq<Post>, unknowns: seq<Post>, orders: OrderCount)

  /** The lane for items under no active front has no identifier. */
  datatype Lane = Lane(id: Option<Id>, name: string, line: real, rows: seq<Row>)

  /** What is added up over items: the two sides of the line, the map's totals, and a row's recon orders. */
  datatype Sums = Sums(
    held: nat, total: nat, objectives: nat, taken: nat, withdrawn: nat, opposition: nat, cleared: nat, fog: nat,
    lifted: nat, open: nat, done: nat, recon: nat)
  {
    function Plus(s: Sums): Sums {
      Sums(held + s.held, total + s.total, objectives + s.objectives, taken + s.taken, withdrawn + s.withdrawn,
           opposition + s.opposition, cleared + s.cleared, fog + s.fog, lifted + s.lifted, open + s.open,
           done + s.done, recon + s.recon)
    }
  }

  const NONE := Sums(0, 0, 0, 0, 0, 0, 0, 0, 0, 0, 0, 0)

  datatype Totals = Totals(
    objectives: nat, taken: nat, withdrawn: nat, opposition: nat, cleared: nat, fog: nat, lifted: nat,
    ordersOpen: nat, ordersDone: nat)


  type Targets = map<Id, seq<Order>>

  // ---------- What one row comes to ----------

  function Strength(item: Item): nat {
    if item.strength == 0 then STRENGTH_DUG_IN else item.strength
  }

  function PostOf(item: Item, now: int): Post {
    Post(item.id, item.text, item.status,
         if item.type_ == Obstacle then item.kind else "",
         if item.type_ == Obstacle then Strength(item) else 0,
         item.type_ == Obstacle && !item.strengthConfirmed,
         if item.type_ == Objective then item.dueAt else None,
         item.type_ == Objective && item.dueAt.Some? && item.status == Active && item.dueAt.value < now)
  }

  /** What an item weighs on the line. */
  function Weight(item: Item): nat {
    match item.type_
    case Objective => WEIGHT_OBJECTIVE
    case Obstacle => Strength(item)
    case Unknown => WEIGHT_UNKNOWN
  }

  function AimedAt(byTarget: Targets, id: Id): seq<Order> {
    if id in byTarget then byTarget[id] else []
  }

  function Done(orders: seq<Order>): (n: nat)
    ensures n <= |orders|
  {
    if orders == [] then 0 else Done(orders[..|orders| - 1]) + (if orders[|orders| - 1].status == OrderDone then 1 else 0)
  }

  /** Recon orders not yet done. */
  function Scouting(orders: seq<Order>): nat {
    if orders == [] then 0
    else Scouting(orders[..|orders| - 1])
         + (if orders[|orders| - 1].status != OrderDone && orders[|orders| - 1].recon then 1 else 0)
  }

  function One(b: bool): nat {
    if b then 1 else 0
  }

  /** What one item adds, with the orders aimed at it. */
  function Chips(item: Item, byTarget: Targets): Sums {
    Drawn(item).Plus(Aim(AimedAt(byTarget, item.id)))
  }

  /** What the item adds itself. */
  function Drawn(item: Item): Sums {
    var resolved := item.status == Resolved;
    var weight := NONE.(total := Weight(item), held := if resolved then Weight(item) else 0);
    match item.type_
    case Objective =>
      weight.(objectives := 1, taken := One(resolved), withdrawn := One(item.status == Withdrawn))
    case Obstacle => weight.(opposition := One(!resolved), cleared := One(resolved))
    case Unknown => weight.(fog := One(!resolved), lifted := One(resolved))
  }

  /** What orders add: each weighs one, and the done ones hold ground. */
  function Aim(orders: seq<Order>): Sums {
    NONE.(total := |orders|, held := Done(orders), open := |orders| - Done(orders), done := Done(orders),
          recon := Scouting(orders))
  }

  /** What items add up to. */
  function Sum(items: seq<Item>, byTarget: Targets): Sums {
    if items == [] then NONE else Sum(items[..|items| - 1], byTarget).Plus(Chips(items[|items| - 1], byTarget))
  }

  function OrdersIn(sum: Sums): OrderCount {
    OrderCount(sum.open, sum.done, sum.recon)
  }

  function TotalsIn(sum: Sums): Totals {
    Totals(sum.objectives, sum.taken, sum.withdrawn, sum.opposition, sum.cleared, sum.fog, sum.lifted, sum.open, sum.done)
  }

  function Ratio(held: nat, total: nat): real {
    if total > 0 then held as real / total as real else 0.0
  }

  /** Ground held out of the ground there is; zero where there is none. */
  function Line(items: seq<Item>, byTarget: Targets): real {
    var sum := Sum(items, byTarget);
    Ratio(sum.held, sum.total)
  }

  function PostsOf(items: seq<Item>, type_: Type, now: int): seq<Post> {
    if items == [] then []
    else PostsOf(items[..|items| - 1], type_, now)
         + (if items[|items| - 1].type_ == type_ then [PostOf(items[|items| - 1], now)] else [])
  }

  /** Everything on a row: its objective, if any, and its children. */
  function OnRow(objective: Option<Item>, kids: seq<Item>): seq<Item> {
    (if objective.Some? then [objective.value] else []) + kids
  }

  /** What of it counts for the line: nothing under a withdrawn objective. */
  function CountedOnRow(objective: Option<Item>, kids: seq<Item>): seq<Item> {
    if objective.Some? && objective.value.status == Withdrawn then [] else OnRow(objective, kids)
  }

  function RowOf(objective: Option<Item>, kids: seq<Item>, byTarget: Targets, now: int): Row {
    Row(if objective.Some? then Some(PostOf(objective.value, now)) else None,
        Line(CountedOnRow(objective, kids), byTarget), PostsOf(kids, Obstacle, now), PostsOf(kids, Unknown, now),
        OrdersIn(Sum(OnRow(objective, kids), byTarget)))
  }

  // ---------- What a lane comes to ----------

  function Rank(status: Status): nat {
    match status
    case Active => 0
    case Resolved => 1
    case _ => 2
  }

  function Ranked(items: seq<Item>, rank: nat): seq<Item> {
    if items == [] then []
    else Ranked(items[..|items| - 1], rank)
         + (if Rank(items[|items| - 1].status) == rank then [items[|items| - 1]] else [])
  }

  /** What a stable sort by rank gives: live, then taken, then the rest, each in the order they came. */
  function StableByRank(items: seq<Item>): seq<Item> {
    Ranked(items, 0) + Ranked(items, 1) + Ranked(items, 2)
  }

  function Objectives(items: seq<Item>): seq<Item> {
    if items == [] then []
    else Objectives(items[..|items| - 1]) + (if items[|items| - 1].type_ == Objective then [items[|items| - 1]] else [])
  }

  function Others(items: seq<Item>): seq<Item> {
    if items == [] then []
    else Others(items[..|items| - 1]) + (if items[|items| - 1].type_ == Objective then [] else [items[|items| - 1]])
  }

  function ParentOf(item: Item): Option<Id> {
    item.objectiveId
  }

  function FrontOf(item: Item): Option<Id> {
    item.frontId
  }

  function IdsOf(items: seq<Item>): (ids: seq<Id>)
    ensures |ids| == |items| && forall i :: 0 <= i < |ids| ==> ids[i] == items[i].id
  {
    if items == [] then [] else IdsOf(items[..|items| - 1]) + [items[|items| - 1].id]
  }

  /** The opposition and fog bearing on an objective. */
  function Bearing(items: seq<Item>, objective: Item): seq<Item> {
    WithKey(Others(items), ParentOf, objective.id)
  }

  /** Obstacles and unknowns under no objective of the lane. */
  function Loose(items: seq<Item>): seq<Item> {
    Outside(Others(items), ParentOf, Keys(IdsOf(Objectives(items))))
  }

  function RowsOf(objectives: seq<Item>, items: seq<Item>, byTarget: Targets, now: int): seq<Row> {
    if objectives == [] then []
    else
      var last := objectives[|objectives| - 1];
      RowsOf(objectives[..|objectives| - 1], items, byTarget, now)
      + [RowOf(Some(last), Bearing(items, last), byTarget, now)]
  }

  /** Everything on these objectives' rows, or what of it counts for the line. */
  function OnRows(objectives: seq<Item>, items: seq<Item>, counted: bool): seq<Item> {
    if objectives == [] then []
    else
      var last := objectives[|objectives| - 1];
      OnRows(objectives[..|objectives| - 1], items, counted)
      + (if counted then CountedOnRow(Some(last), Bearing(items, last)) else OnRow(Some(last), Bearing(items, last)))
  }

  function OnLane(items: seq<Item>, counted: bool): seq<Item> {
    OnRows(StableByRank(Objectives(items)), items, counted) + Loose(items)
  }

  function LaneOf(id: Option<Id>, name: string, items: seq<Item>, byTarget: Targets, now: int): Lane {
    Lane(id, name, Line(OnLane(items, true), byTarget),
         RowsOf(StableByRank(Objectives(items)), items, byTarget, now)
         + (if Loose(items) == [] then [] else [RowOf(None, Loose(items), byTarget, now)]))
  }

  // ---------- The whole theatre ----------

  predicate OnMap(item: Item) {
    item.status != Proposed && item.status != Dropped
  }

  function Placed(items: seq<Item>): seq<Item> {
    if items == [] then []
    else Placed(items[..|items| - 1]) + (if OnMap(items[|items| - 1]) then [items[|items| - 1]] else [])
  }

  predicate Agreed(order: Order) {
    order.targetId.Some? && order.status != OrderProposed && order.status != OrderDropped
  }

  function Aimed(orders: seq<Order>): seq<Order> {
    if orders == [] then []
    else Aimed(orders[..|orders| - 1]) + (if Agreed(orders[|orders| - 1]) then [orders[|orders| - 1]] else [])
  }

  function TargetsOf(orders: seq<Order>): Targets {
    if orders == [] then map[]
    else
      var last := orders[|orders| - 1];
      var front := TargetsOf(orders[..|orders| - 1]);
      if Agreed(last) then front[last.targetId.value := AimedAt(front, last.targetId.value) + [last]] else front
  }

  function ActiveFronts(fronts: seq<Front>): seq<Front> {
    if fronts == [] then []
    else ActiveFronts(fronts[..|fronts| - 1])
         + (if fronts[|fronts| - 1].status == FrontActive then [fronts[|fronts| - 1]] else [])
  }

  function FrontIds(fronts: seq<Front>): (ids: seq<Id>)
    ensures |ids| == |fronts| && forall i :: 0 <= i < |ids| ==> ids[i] == fronts[i].id
  {
    if fronts == [] then [] else FrontIds(fronts[..|fronts| - 1]) + [fronts[|fronts| - 1].id]
  }

  function LanesOf(fronts: seq<Front>, placed: seq<Item>, byTarget: Targets, now: int): seq<Lane> {
    if fronts == [] then []
    else
      var last := fronts[|fronts| - 1];
      LanesOf(fronts[..|fronts| - 1], placed, byTarget, now)
      + [LaneOf(Some(last.id), last.name, WithKey(placed, FrontOf, last.id), byTarget, now)]
  }

  function Unassigned(active: seq<Front>, placed: seq<Item>): seq<Item> {
    Outside(placed, FrontOf, Keys(FrontIds(active)))
  }

  /** The lanes in display order, the unassigned one last and only if it has items. */
  function Laid(fronts: seq<Front>, items: seq<Item>, orders: seq<Order>, now: int): seq<Lane> {
    var active, placed, byTarget := ActiveFronts(fronts), Placed(items), TargetsOf(orders);
    LanesOf(active, placed, byTarget, now)
    + (if Unassigned(active, placed) == [] then []
       else [LaneOf(None, "No front", Unassigned(active, placed), byTarget, now)])
  }

  /** The items lane by lane. */
  function OnLanes(active: seq<Front>, placed: seq<Item>): seq<Item> {
    if active == [] then []
    else OnLanes(active[..|active| - 1], placed) + OnLane(WithKey(placed, FrontOf, active[|active| - 1].id), false)
  }

  function TotalsOf(fronts: seq<Front>, items: seq<Item>, orders: seq<Order>): Totals {
    var active, placed := ActiveFronts(fronts), Placed(items);
    TotalsIn(Sum(OnLanes(active, placed) + OnLane(Unassigned(active, placed), false), TargetsOf(orders)))
  }

  // ---------- The procedures ----------

  /** The totals every row adds to; `sum` is everything added so far. */
  class TheatreTotals {
    var objectives: nat
    var taken: nat
    var withdrawn: nat
    var opposition: nat
    var cleared: nat
    var fog: nat
    var lifted: nat
    var ordersOpen: nat
    var ordersDone: nat
    ghost var sum: Sums

    function Value(): Totals
      reads this
    {
      Totals(objectives, taken, withdrawn, opposition, cleared, fog, lifted, ordersOpen, ordersDone)
    }

    ghost predicate Valid()
      reads this
    {
      Value() == TotalsIn(sum)
    }

    constructor ()
      ensures Valid() && sum == NONE
    {
      objectives, taken, withdrawn, opposition, cleared, fog, lifted, ordersOpen, ordersDone := 0, 0, 0, 0, 0, 0, 0, 0, 0;
      sum := NONE;
    }

    /** Counts the orders aimed at one item. */
    method CountOrders(orders: seq<Order>) returns (held: nat, total: nat, count: OrderCount)
      requires Valid()
      modifies this
      ensures Valid() && sum == old(sum).Plus(Aim(orders))
      ensures held == Aim(orders).held && total == Aim(orders).total && count == OrdersIn(Aim(orders))
    {
      held, total, count := 0, 0, OrderCount(0, 0, 0);
      for i := 0 to |orders|
        invariant held == Done(orders[..i]) && total == i
        invariant count == OrderCount(i - Done(orders[..i]), Done(orders[..i]), Scouting(orders[..i]))
        invariant sum == old(sum)
        invariant Value() == old(Value()).(ordersOpen := old(ordersOpen) + count.open, ordersDone := old(ordersDone) + count.done)
      {
        assert orders[..i + 1][..i] == orders[..i];
        total := total + WEIGHT_ORDER;
        if orders[i].status == OrderDone {
          held := held + WEIGHT_ORDER;
          count := count.(done := count.done + 1);
          ordersDone := ordersDone + 1;
          continue;
        }
        count := count.(open := count.open + 1);
        ordersOpen := ordersOpen + 1;
        if orders[i].recon {
          count := count.(recon := count.recon + 1);
        }
      }
      assert orders[..|orders|] == orders;
      sum := sum.Plus(Aim(orders));
    }

    /** Counts one item as drawn. */
    method CountItem(item: Item) returns (held: nat, total: nat)
      requires Valid()
      modifies this
      ensures Valid() && sum == old(sum).Plus(Drawn(item))
      ensures held == Drawn(item).held && total == Drawn(item).total
    {
      held := 0;
      match item.type_ {
        case Objective =>
          objectives := objectives + 1;
          match item.status {
            case Resolved =>
              taken := taken + 1;
              held := WEIGHT_OBJECTIVE;
            case Withdrawn =>
              withdrawn := withdrawn + 1;
            case _ =>
          }
          total := WEIGHT_OBJECTIVE;
        case Obstacle =>
          total := Strength(item);
          if item.status == Resolved {
            held := total;
            cleared := cleared + 1;
          } else {
            opposition := opposition + 1;
          }
        case Unknown =>
          total := WEIGHT_UNKNOWN;
          if item.status == Resolved {
            held := WEIGHT_UNKNOWN;
            lifted := lifted + 1;
          } else {
            fog := fog + 1;
          }
      }
      sum := sum.Plus(Drawn(item));
    }

    /** Counts one item and the orders aimed at it. */
    method CountAt(item: Item, byTarget: Targets) returns (held: nat, total: nat, count: OrderCount)
      requires Valid()
      modifies this
      ensures Valid() && sum == old(sum).Plus(Chips(item, byTarget))
      ensures var chips := Chips(item, byTarget);
              held == chips.held && total == chips.total && count == OrdersIn(chips)
    {
      hide Drawn, Aim, Sums.Plus, TotalsIn, OrdersIn;
      PlusAssoc(sum, Drawn(item), Aim(AimedAt(byTarget, item.id)));
      PlusAdds(Drawn(item), Aim(AimedAt(byTarget, item.id)));
      DrawnHasNoOrders(item, Aim(AimedAt(byTarget, item.id)));
      held, total := CountItem(item);
      var h, t;
      h, t, count := CountOrders(AimedAt(byTarget, item.id));
      held, total := held + h, total + t;
    }
  }

  lemma DrawnHasNoOrders(item: Item, orders: Sums)
    ensures OrdersIn(Drawn(item).Plus(orders)) == OrdersIn(orders)
  {
  }

  lemma SumOne(items: seq<Item>, item: Item, byTarget: Targets)
    ensures Sum(items + [item], byTarget) == Sum(items, byTarget).Plus(Chips(item, byTarget))
  {
    assert (items + [item])[..|items|] == items;
  }

  lemma {:induction false} SumAppend(a: seq<Item>, b: seq<Item>, byTarget: Targets)
    ensures Sum(a + b, byTarget) == Sum(a, byTarget).Plus(Sum(b, byTarget))
  {
    hide Chips, Sums.Plus;
    if b == [] {
      assert a + b == a;
      PlusAssoc(Sum(a, byTarget), NONE, NONE);
    } else {
      var n := |b| - 1;
      assert a + b == a + b[..n] + [b[n]] && b == b[..n] + [b[n]];
      SumOne(a + b[..n], b[n], byTarget);
      SumOne(b[..n], b[n], byTarget);
      SumAppend(a, b[..n], byTarget);
      PlusAssoc(Sum(a, byTarget), Sum(b[..n], byTarget), Chips(b[n], byTarget));
    }
  }

  lemma SumOnRow(objective: Option<Item>, kids: seq<Item>, byTarget: Targets)
    ensures Sum(OnRow(objective, kids), byTarget)
         == if objective.Some? then Chips(objective.value, byTarget).Plus(Sum(kids, byTarget)) else Sum(kids, byTarget)
  {
    hide Chips;
    if objective.Some? {
      SumOne([], objective.value, byTarget);
      assert [] + [objective.value] == [objective.value];
      SumAppend([objective.value], kids, byTarget);
    } else {
      assert OnRow(objective, kids) == kids;
    }
  }

  lemma PlusAdds(a: Sums, b: Sums)
    ensures a.Plus(b).held == a.held + b.held && a.Plus(b).total == a.total + b.total
  {
  }

  lemma OrdersAdd(a: Sums, b: Sums)
    ensures OrdersIn(NONE) == OrderCount(0, 0, 0)
    ensures OrdersIn(a.Plus(b)) == AddOrders(OrdersIn(a), OrdersIn(b))
    ensures AddOrders(OrderCount(0, 0, 0), OrdersIn(b)) == OrdersIn(b)
  {
  }

  lemma PlusAssoc(a: Sums, b: Sums, c: Sums)
    ensures a.Plus(b).Plus(c) == a.Plus(b.Plus(c))
    ensures a.Plus(NONE) == a && NONE.Plus(a) == a
  {
  }

  lemma LineOfNothing(byTarget: Targets)
    ensures Line([], byTarget) == 0.0 && Sum([], byTarget) == NONE
  {
  }

  function AddOrders(a: OrderCount, b: OrderCount): OrderCount {
    OrderCount(a.open + b.open, a.done + b.done, a.recon + b.recon)
  }

  /** Draws and counts the opposition and fog of one row. */
  method LayKids(kids: seq<Item>, byTarget: Targets, now: int, totals: TheatreTotals)
    returns (obstacles: seq<Post>, unknowns: seq<Post>, held: nat, total: nat, orders: OrderCount)
    requires totals.Valid()
    requires forall k :: k in kids ==> k.type_ != Objective
    modifies totals
    ensures totals.Valid() && totals.sum == old(totals.sum).Plus(Sum(kids, byTarget))
    ensures obstacles == PostsOf(kids, Obstacle, now) && unknowns == PostsOf(kids, Unknown, now)
    ensures var sum := Sum(kids, byTarget);
            held == sum.held && total == sum.total && orders == OrdersIn(sum)
  {
    hide Chips, Sums.Plus, OrdersIn, AddOrders, PostOf;
    obstacles, unknowns, held, total, orders := [], [], 0, 0, OrderCount(0, 0, 0);
    ghost var sum := NONE;
    ghost var start := totals.sum;
    PlusAssoc(start, NONE, NONE);
    OrdersAdd(NONE, NONE);
    for i := 0 to |kids|
      invariant obstacles == PostsOf(kids[..i], Obstacle, now) && unknowns == PostsOf(kids[..i], Unknown, now)
      invariant sum == Sum(kids[..i], byTarget)
      invariant held == sum.held && total == sum.total && orders == OrdersIn(sum)
      invariant totals.Valid() && totals.sum == start.Plus(sum)
    {
      assert kids[..i + 1][..i] == kids[..i];
      OrdersAdd(sum, Chips(kids[i], byTarget));
      PlusAdds(sum, Chips(kids[i], byTarget));
      PlusAssoc(start, sum, Chips(kids[i], byTarget));
      if kids[i].type_ == Obstacle {
        obstacles := obstacles + [PostOf(kids[i], now)];
      } else {
        unknowns := unknowns + [PostOf(kids[i], now)];
      }
      var h, t, count := totals.CountAt(kids[i], byTarget);
      held, total, orders := held + h, total + t, AddOrders(orders, count);
      sum := sum.Plus(Chips(kids[i], byTarget));
    }
    assert kids[..|kids|] == kids;
  }

  /** Draws a row, counting what is on it; also gives what it adds to the two sides of the lane's line. */
  method BuildRow(objective: Option<Item>, kids: seq<Item>, byTarget: Targets, now: int, totals: TheatreTotals)
    returns (row: Row, held: nat, total: nat)
    requires totals.Valid()
    requires forall k :: k in kids ==> k.type_ != Objective
    modifies totals
    ensures totals.Valid() && totals.sum == old(totals.sum).Plus(Sum(OnRow(objective, kids), byTarget))
    ensures row == RowOf(objective, kids, byTarget, now)
    ensures var counted := Sum(CountedOnRow(objective, kids), byTarget);
            held == counted.held && total == counted.total
  {
    hide Chips, Sum, PostOf, PostsOf, Ratio, AddOrders, OrdersIn, Sums.Plus;
    var shown: Option<Post> := None;
    var orders := OrderCount(0, 0, 0);
    held, total := 0, 0;
    if objective.Some? {
      shown := Some(PostOf(objective.value, now));
      held, total, orders := totals.CountAt(objective.value, byTarget);
    }
    var obstacles, unknowns, h, t, more := LayKids(kids, byTarget, now, totals);
    held, total, orders := held + h, total + t, AddOrders(orders, more);
    SumOnRow(objective, kids, byTarget);
    ghost var own := if objective.Some? then Chips(objective.value, byTarget) else NONE;
    OrdersAdd(own, Sum(kids, byTarget));
    PlusAdds(own, Sum(kids, byTarget));
    PlusAssoc(old(totals.sum), own, Sum(kids, byTarget));
    assert held == Sum(OnRow(objective, kids), byTarget).held;
    assert total == Sum(OnRow(objective, kids), byTarget).total;
    assert orders == OrdersIn(Sum(OnRow(objective, kids), byTarget));
    if objective.Some? && objective.value.status == Withdrawn {
      LineOfNothing(byTarget);
      return Row(shown, 0.0, obstacles, unknowns, orders), 0, 0;
    }
    row := Row(shown, Ratio(held, total), obstacles, unknowns, orders);
  }

  /** Obstacles and unknowns under the objective given, or, given none, under none that is here. */
  method Children(items: seq<Item>, objective: Option<Id>, here: set<Id>) returns (out: seq<Item>)
    ensures out == if objective.Some? then WithKey(Others(items), ParentOf, objective.value)
                   else Outside(Others(items), ParentOf, here)
    ensures forall k :: k in out ==> k.type_ != Objective
  {
    out := [];
    for i := 0 to |items|
      invariant out == if objective.Some? then WithKey(Others(items[..i]), ParentOf, objective.value)
                       else Outside(Others(items[..i]), ParentOf, here)
      invariant forall k :: k in out ==> k.type_ != Objective
    {
      assert items[..i + 1][..i] == items[..i];
      var it := items[i];
      if it.type_ == Objective {
        assert Others(items[..i + 1]) == Others(items[..i]);
        continue;
      }
      assert Others(items[..i + 1]) == Others(items[..i]) + [it];
      if objective.Some? {
        WithKeyOne(Others(items[..i]), ParentOf, objective.value, it);
        if it.objectiveId.Some? && it.objectiveId.value == objective.value {
          out := out + [it];
        }
      } else {
        OutsideOne(Others(items[..i]), ParentOf, here, it);
        if it.objectiveId.None? || it.objectiveId.value !in here {
          out := out + [it];
        }
      }
    }
    assert items[..|items|] == items;
  }

  lemma OnRowsOne(objectives: seq<Item>, o: Item, items: seq<Item>, byTarget: Targets, now: int)
    ensures OnRows(objectives + [o], items, true) == OnRows(objectives, items, true) + CountedOnRow(Some(o), Bearing(items, o))
    ensures OnRows(objectives + [o], items, false) == OnRows(objectives, items, false) + OnRow(Some(o), Bearing(items, o))
    ensures RowsOf(objectives + [o], items, byTarget, now)
         == RowsOf(objectives, items, byTarget, now) + [RowOf(Some(o), Bearing(items, o), byTarget, now)]
  {
    assert (objectives + [o])[..|objectives|] == objectives;
  }

  /** One row per objective, in the order given. */
  method LayRows(objectives: seq<Item>, items: seq<Item>, here: set<Id>, byTarget: Targets, now: int, totals: TheatreTotals)
    returns (rows: seq<Row>, held: nat, total: nat)
    requires totals.Valid()
    modifies totals
    ensures totals.Valid() && totals.sum == old(totals.sum).Plus(Sum(OnRows(objectives, items, false), byTarget))
    ensures rows == RowsOf(objectives, items, byTarget, now)
    ensures var counted := Sum(OnRows(objectives, items, true), byTarget);
            held == counted.held && total == counted.total
  {
    hide Chips, Sum, Sums.Plus, RowOf, OnRow, WithKey, Others;
    PlusAssoc(totals.sum, NONE, NONE);
    LineOfNothing(byTarget);
    rows, held, total := [], 0, 0;
    ghost var on: seq<Item> := [];
    ghost var counted: seq<Item> := [];
    for i := 0 to |objectives|
      invariant rows == RowsOf(objectives[..i], items, byTarget, now)
      invariant on == OnRows(objectives[..i], items, false) && counted == OnRows(objectives[..i], items, true)
      invariant held == Sum(counted, byTarget).held && total == Sum(counted, byTarget).total
      invariant totals.Valid() && totals.sum == old(totals.sum).Plus(Sum(on, byTarget))
    {
      assert objectives[..i + 1] == objectives[..i] + [objectives[i]];
      var o := objectives[i];
      var kids := Children(items, Some(o.id), here);
      var row, h, w := BuildRow(Some(o), kids, byTarget, now, totals);
      OnRowsOne(objectives[..i], o, items, byTarget, now);
      SumAppend(on, OnRow(Some(o), kids), byTarget);
      PlusAssoc(old(totals.sum), Sum(on, byTarget), Sum(OnRow(Some(o), kids), byTarget));
      SumAppend(counted, CountedOnRow(Some(o), kids), byTarget);
      PlusAdds(Sum(counted, byTarget), Sum(CountedOnRow(Some(o), kids), byTarget));
      rows := rows + [row];
      if o.status != Withdrawn {
        held, total := held + h, total + w;
      }
      on, counted := on + OnRow(Some(o), kids), counted + CountedOnRow(Some(o), kids);
    }
    assert objectives[..|objectives|] == objectives;
  }

  method GatherObjectives(items: seq<Item>) returns (objectives: seq<Item>, here: set<Id>)
    ensures objectives == Objectives(items) && here == Keys(IdsOf(objectives))
  {
    objectives, here := [], {};
    for i := 0 to |items|
      invariant objectives == Objectives(items[..i]) && here == Keys(IdsOf(objectives))
    {
      assert items[..i + 1][..i] == items[..i];
      if items[i].type_ == Objective {
        KeysOfOne(objectives, items[i]);
        objectives := objectives + [items[i]];
        here := here + {items[i].id};
      }
    }
    assert items[..|items|] == items;
  }

  lemma KeysOfOne(items: seq<Item>, item: Item)
    ensures Keys(IdsOf(items + [item])) == Keys(IdsOf(items)) + {item.id}
  {
    assert (items + [item])[..|items|] == items;
    assert IdsOf(items + [item]) == IdsOf(items) + [item.id];
  }

  method LayLane(id: Option<Id>, name: string, items: seq<Item>, byTarget: Targets, now: int, totals: TheatreTotals)
    returns (lane: Lane)
    requires totals.Valid()
    modifies totals
    ensures totals.Valid() && totals.sum == old(totals.sum).Plus(Sum(OnLane(items, false), byTarget))
    ensures lane == LaneOf(id, name, items, byTarget, now)
  {
    hide Chips, Sum, Sums.Plus, RowOf, RowsOf, OnRows, StableByRank, Objectives, Others, Outside, Ratio;
    LineOfNothing(byTarget);
    ghost var start := totals.sum;
    var objectives, here := GatherObjectives(items);
    objectives := StableByRank(objectives);
    var rows, held, total := LayRows(objectives, items, here, byTarget, now, totals);
    var loose := Children(items, None, here);
    SumAppend(OnRows(objectives, items, false), loose, byTarget);
    SumAppend(OnRows(objectives, items, true), loose, byTarget);
    PlusAssoc(start, Sum(OnRows(objectives, items, false), byTarget), Sum(loose, byTarget));
    PlusAssoc(start.Plus(Sum(OnRows(objectives, items, false), byTarget)), NONE, NONE);
    PlusAdds(Sum(OnRows(objectives, items, true), byTarget), Sum(loose, byTarget));
    if |loose| > 0 {
      assert OnRow(None, loose) == loose;
      var row, h, w := BuildRow(None, loose, byTarget, now, totals);
      rows := rows + [row];
      held, total := held + h, total + w;
    }
    lane := Lane(id, name, Ratio(held, total), rows);
  }

  function Lookup(byFront: map<Id, seq<Item>>, id: Id): seq<Item> {
    if id in byFront then byFront[id] else []
  }

  lemma PlacedNone(active: set<Id>)
    ensures Placed([]) == [] && Outside([], FrontOf, active) == []
    ensures forall id :: WithKey([], FrontOf, id) == []
  {
  }

  lemma PlacedOne(items: seq<Item>, item: Item)
    ensures Placed(items + [item])
         == if item.status == Proposed || item.status == Dropped then Placed(items) else Placed(items) + [item]
  {
    assert (items + [item])[..|items|] == items;
  }

  /** Files the items on the map under their active front, or under none. */
  method FileItems(items: seq<Item>, active: set<Id>) returns (byFront: map<Id, seq<Item>>, unassigned: seq<Item>)
    ensures forall id :: id in active ==> Lookup(byFront, id) == WithKey(Placed(items), FrontOf, id)
    ensures unassigned == Outside(Placed(items), FrontOf, active)
  {
    hide Placed, WithKey, Outside;
    PlacedNone(active);
    byFront, unassigned := map[], [];
    for i := 0 to |items|
      invariant forall id :: id in active ==> Lookup(byFront, id) == WithKey(Placed(items[..i]), FrontOf, id)
      invariant unassigned == Outside(Placed(items[..i]), FrontOf, active)
    {
      assert items[..i + 1] == items[..i] + [items[i]];
      var it := items[i];
      PlacedOne(items[..i], it);
      if it.status == Proposed || it.status == Dropped {
        continue;
      }
      ghost var placed := Placed(items[..i]);
      OutsideOne(placed, FrontOf, active, it);
      forall id { WithKeyOne(placed, FrontOf, id, it); }
      if it.frontId.None? || it.frontId.value !in active {
        unassigned := unassigned + [it];
        continue;
      }
      byFront := byFront[it.frontId.value := Lookup(byFront, it.frontId.value) + [it]];
    }
    assert items[..|items|] == items;
  }

  lemma ActiveOne(fronts: seq<Front>, f: Front)
    ensures ActiveFronts(fronts + [f]) == if f.status == FrontActive then ActiveFronts(fronts) + [f] else ActiveFronts(fronts)
    ensures f.status == FrontActive ==>
              Keys(FrontIds(ActiveFronts(fronts + [f]))) == Keys(FrontIds(ActiveFronts(fronts))) + {f.id}
  {
    var before := ActiveFronts(fronts);
    assert (fronts + [f])[..|fronts|] == fronts;
    assert (before + [f])[..|before|] == before;
    assert FrontIds(before + [f]) == FrontIds(before) + [f.id];
  }

  method GatherActive(fronts: seq<Front>) returns (active: set<Id>)
    ensures active == Keys(FrontIds(ActiveFronts(fronts)))
  {
    active := {};
    for i := 0 to |fronts|
      invariant active == Keys(FrontIds(ActiveFronts(fronts[..i])))
    {
      assert fronts[..i + 1] == fronts[..i] + [fronts[i]];
      ActiveOne(fronts[..i], fronts[i]);
      if fronts[i].status == FrontActive {
        active := active + {fronts[i].id};
      }
    }
    assert fronts[..|fronts|] == fronts;
  }

  method GatherTargets(orders: seq<Order>) returns (byTarget: Targets)
    ensures byTarget == TargetsOf(orders)
  {
    byTarget := map[];
    for i := 0 to |orders|
      invariant byTarget == TargetsOf(orders[..i])
    {
      assert orders[..i + 1][..i] == orders[..i];
      var o := orders[i];
      if o.targetId.None? || o.status == OrderProposed || o.status == OrderDropped {
        continue;
      }
      byTarget := byTarget[o.targetId.value := AimedAt(byTarget, o.targetId.value) + [o]];
    }
    assert orders[..|orders|] == orders;
  }

  lemma {:induction false} ActiveIsFiled(fronts: seq<Front>, i: nat)
    requires i < |fronts| && fronts[i].status == FrontActive
    ensures fronts[i].id in Keys(FrontIds(ActiveFronts(fronts)))
  {
    var n := |fronts| - 1;
    assert fronts == fronts[..n] + [fronts[n]];
    ActiveOne(fronts[..n], fronts[n]);
    if i < n { ActiveIsFiled(fronts[..n], i); }
  }

  lemma ActiveOfNone()
    ensures ActiveFronts([]) == []
  {
  }

  lemma OnLanesOne(active: seq<Front>, f: Front, placed: seq<Item>, byTarget: Targets, now: int)
    ensures OnLanes(active + [f], placed) == OnLanes(active, placed) + OnLane(WithKey(placed, FrontOf, f.id), false)
    ensures LanesOf(active + [f], placed, byTarget, now)
         == LanesOf(active, placed, byTarget, now)
            + [LaneOf(Some(f.id), f.name, WithKey(placed, FrontOf, f.id), byTarget, now)]
  {
    assert (active + [f])[..|active|] == active;
  }

  /** One lane per active front, in display order. */
  method LayFronts(fronts: seq<Front>, ghost placed: seq<Item>, byFront: map<Id, seq<Item>>, byTarget: Targets, now: int,
                   totals: TheatreTotals)
    returns (lanes: seq<Lane>)
    requires totals.Valid()
    requires forall id :: id in Keys(FrontIds(ActiveFronts(fronts))) ==>
               Lookup(byFront, id) == WithKey(placed, FrontOf, id)
    modifies totals
    ensures totals.Valid() && totals.sum == old(totals.sum).Plus(Sum(OnLanes(ActiveFronts(fronts), placed), byTarget))
    ensures lanes == LanesOf(ActiveFronts(fronts), placed, byTarget, now)
  {
    hide Chips, Sum, Sums.Plus, LaneOf, OnLane, WithKey, ActiveFronts;
    PlusAssoc(totals.sum, NONE, NONE);
    LineOfNothing(byTarget);
    ActiveOfNone();
    lanes := [];
    ghost var active: seq<Front> := [];
    for i := 0 to |fronts|
      invariant active == ActiveFronts(fronts[..i])
      invariant lanes == LanesOf(active, placed, byTarget, now)
      invariant totals.Valid() && totals.sum == old(totals.sum).Plus(Sum(OnLanes(active, placed), byTarget))
    {
      assert fronts[..i + 1] == fronts[..i] + [fronts[i]];
      ActiveOne(fronts[..i], fronts[i]);
      if fronts[i].status != FrontActive {
        continue;
      }
      ActiveIsFiled(fronts, i);
      OnLanesOne(active, fronts[i], placed, byTarget, now);
      var items := Lookup(byFront, fronts[i].id);
      SumAppend(OnLanes(active, placed), OnLane(items, false), byTarget);
      PlusAssoc(old(totals.sum), Sum(OnLanes(active, placed), byTarget), Sum(OnLane(items, false), byTarget));
      var lane := LayLane(Some(fronts[i].id), fronts[i].name, items, byTarget, now, totals);
      lanes := lanes + [lane];
      active := active + [fronts[i]];
    }
    assert fronts[..|fronts|] == fronts;
  }

  lemma EmptyLane()
    ensures OnLane([], false) == []
  {
  }

  method Layout(fronts: seq<Front>, items: seq<Item>, orders: seq<Order>, now: int)
    returns (lanes: seq<Lane>, totals: TheatreTotals)
    ensures lanes == Laid(fronts, items, orders, now)
    ensures totals.Value() == TotalsOf(fronts, items, orders)
  {
    hide Chips, Sum, Sums.Plus, TotalsIn, LanesOf, OnLanes, LaneOf, ActiveFronts, Placed, TargetsOf, Outside, WithKey;
    LineOfNothing(TargetsOf(orders));
    EmptyLane();
    totals := new TheatreTotals();
    var active := GatherActive(fronts);
    var byTarget := GatherTargets(orders);
    var byFront, unassigned := FileItems(items, active);
    lanes := LayFronts(fronts, Placed(items), byFront, byTarget, now, totals);
    ghost var filed := Sum(OnLanes(ActiveFronts(fronts), Placed(items)), byTarget);
    SumAppend(OnLanes(ActiveFronts(fronts), Placed(items)), OnLane(unassigned, false), byTarget);
    PlusAssoc(filed, NONE, NONE);
    if |unassigned| > 0 {
      var lane := LayLane(None, "No front", unassigned, byTarget, now, totals);
      lanes := lanes + [lane];
    }
  }
}
