/** What the numbers on the map count: ground, orders and totals, each said item by item. */
module Grounds {
  import opened Common
  import opened Partition
  import opened Theatre
  import opened TheatreLaws

  // ---------- Orders ----------

  /** An order that counts: aimed at the item and neither proposed nor dropped. */
  predicate AimsAt(o: Order, id: Id) {
    o.targetId == Some(id) && o.status != OrderProposed && o.status != OrderDropped
  }

  function Aiming(orders: seq<Order>, id: Id): nat {
    if orders == [] then 0
    else Aiming(orders[..|orders| - 1], id) + (if AimsAt(orders[|orders| - 1], id) then 1 else 0)
  }

  function AimingDone(orders: seq<Order>, id: Id): nat {
    if orders == [] then 0
    else
      var last := orders[|orders| - 1];
      AimingDone(orders[..|orders| - 1], id) + (if AimsAt(last, id) && last.status == OrderDone then 1 else 0)
  }

  function AimingRecon(orders: seq<Order>, id: Id): nat {
    if orders == [] then 0
    else
      var last := orders[|orders| - 1];
      AimingRecon(orders[..|orders| - 1], id) + (if AimsAt(last, id) && last.status != OrderDone && last.recon then 1 else 0)
  }

  lemma ScoutingOne(orders: seq<Order>, o: Order)
    ensures Done(orders + [o]) == Done(orders) + if o.status == OrderDone then 1 else 0
    ensures Scouting(orders + [o]) == Scouting(orders) + if o.status != OrderDone && o.recon then 1 else 0
  {
    assert (orders + [o])[..|orders|] == orders;
  }

  lemma {:induction false} AimedAre(orders: seq<Order>, id: Id)
    ensures var aimed := AimedAt(TargetsOf(orders), id);
            && |aimed| == Aiming(orders, id) && Done(aimed) == AimingDone(orders, id)
            && Scouting(aimed) == AimingRecon(orders, id)
  {
    if orders != [] {
      var n := |orders| - 1;
      AimedAre(orders[..n], id);
      ScoutingOne(AimedAt(TargetsOf(orders[..n]), id), orders[n]);
    }
  }

  // ---------- Ground ----------

  /** Two for an objective, its strength for an obstacle, taken as two while nobody gave one, and one for an unknown. */
  function Worth(item: Item): nat {
    match item.type_
    case Objective => 2
    case Obstacle => if item.strength == 0 then 2 else item.strength
    case Unknown => 1
  }

  /** All the ground there is on items: what they are worth, and one for each order aimed at them. */
  function AllGround(items: seq<Item>, orders: seq<Order>): nat {
    if items == [] then 0
    else AllGround(items[..|items| - 1], orders) + Worth(items[|items| - 1]) + Aiming(orders, items[|items| - 1].id)
  }

  /** What of it is held: what is resolved, and the orders carried out. */
  function HeldGround(items: seq<Item>, orders: seq<Order>): nat {
    if items == [] then 0
    else
      var last := items[|items| - 1];
      HeldGround(items[..|items| - 1], orders) + (if last.status == Resolved then Worth(last) else 0)
      + AimingDone(orders, last.id)
  }

  function Share(held: nat, all: nat): real {
    if all == 0 then 0.0 else held as real / all as real
  }

  /** Orders aimed at any of the items: those open, those done, and of the open ones those that scout. */
  function OrdersAt(items: seq<Item>, orders: seq<Order>): OrderCount {
    if items == [] then OrderCount(0, 0, 0)
    else
      var before := OrdersAt(items[..|items| - 1], orders);
      var id := items[|items| - 1].id;
      FewAtMost(orders, id);
      OrderCount(before.open + (Aiming(orders, id) - AimingDone(orders, id)), before.done + AimingDone(orders, id),
                 before.recon + AimingRecon(orders, id))
  }

  lemma {:induction false} FewAtMost(orders: seq<Order>, id: Id)
    ensures AimingDone(orders, id) <= Aiming(orders, id)
  {
    if orders != [] { FewAtMost(orders[..|orders| - 1], id); }
  }

  lemma ChipsOf(item: Item, byTarget: Targets)
    ensures var chips, aimed := Chips(item, byTarget), AimedAt(byTarget, item.id);
            && chips.total == Worth(item) + |aimed|
            && chips.held == (if item.status == Resolved then Worth(item) else 0) + Done(aimed)
            && chips.done == Done(aimed) && chips.recon == Scouting(aimed) && chips.open == |aimed| - Done(aimed)
  {
    hide AimedAt, Done, Scouting;
  }

  lemma SumSteps(items: seq<Item>, byTarget: Targets)
    requires items != []
    ensures var before, sum := Sum(items[..|items| - 1], byTarget), Sum(items, byTarget);
            var chips := Chips(items[|items| - 1], byTarget);
            && sum.total == before.total + chips.total && sum.held == before.held + chips.held
            && sum.open == before.open + chips.open && sum.done == before.done + chips.done
            && sum.recon == before.recon + chips.recon
  {
    hide Chips;
  }

  lemma {:induction false} SumIsGround(items: seq<Item>, orders: seq<Order>)
    ensures var sum := Sum(items, TargetsOf(orders));
            && sum.total == AllGround(items, orders) && sum.held == HeldGround(items, orders)
            && OrdersIn(sum) == OrdersAt(items, orders)
  {
    hide Chips, TargetsOf, Worth, Done, Scouting, AimedAt, Aiming, AimingDone, AimingRecon, Sums.Plus;
    if items == [] {
      SumOfNothing(TargetsOf(orders));
    } else {
      SumIsGround(items[..|items| - 1], orders);
      SumSteps(items, TargetsOf(orders));
      ChipsOf(items[|items| - 1], TargetsOf(orders));
      AimedAre(orders, items[|items| - 1].id);
      hide Sum;
    }
  }

  /** How far a row has come, and the orders on it; a withdrawn objective's row counts no progress. */
  lemma RowCounts(objective: Option<Item>, kids: seq<Item>, orders: seq<Order>, now: int)
    ensures var row := RowOf(objective, kids, TargetsOf(orders), now);
            var here := if objective.Some? then [objective.value] + kids else kids;
            && row.orders == OrdersAt(here, orders)
            && row.progress == if objective.Some? && objective.value.status == Withdrawn then 0.0
                               else Share(HeldGround(here, orders), AllGround(here, orders))
  {
    hide Sum, TargetsOf, HeldGround, AllGround, OrdersAt, PostsOf, PostOf, OrdersIn;
    var here := if objective.Some? then [objective.value] + kids else kids;
    assert OnRow(objective, kids) == here;
    SumIsGround(here, orders);
    SumOfNothing(TargetsOf(orders));
  }

  lemma SumOfNothing(byTarget: Targets)
    ensures Sum([], byTarget) == NONE
  {
  }

  // ---------- Totals ----------

  /** How many items are of a type, in a status if one is named. */
  function HowMany(items: seq<Item>, type_: Type, status: Option<Status>): nat {
    if items == [] then 0
    else
      var last := items[|items| - 1];
      HowMany(items[..|items| - 1], type_, status)
      + (if last.type_ == type_ && (status.None? || status.value == last.status) then 1 else 0)
  }

  lemma {:induction false} SumCounts(items: seq<Item>, byTarget: Targets)
    ensures var sum := Sum(items, byTarget);
            && sum.objectives == HowMany(items, Objective, None) && sum.taken == HowMany(items, Objective, Some(Resolved))
            && sum.withdrawn == HowMany(items, Objective, Some(Withdrawn))
            && sum.cleared == HowMany(items, Obstacle, Some(Resolved))
            && sum.opposition + sum.cleared == HowMany(items, Obstacle, None)
            && sum.lifted == HowMany(items, Unknown, Some(Resolved))
            && sum.fog + sum.lifted == HowMany(items, Unknown, None)
  {
    if items != [] {
      hide Aim, AimedAt;
      SumCounts(items[..|items| - 1], byTarget);
      DrawnCounts(items[|items| - 1], byTarget);
      hide Chips;
    }
  }

  lemma DrawnCounts(item: Item, byTarget: Targets)
    ensures var chips := Chips(item, byTarget);
            && chips.objectives == One(item.type_ == Objective)
            && chips.taken == One(item.type_ == Objective && item.status == Resolved)
            && chips.withdrawn == One(item.type_ == Objective && item.status == Withdrawn)
            && chips.cleared == One(item.type_ == Obstacle && item.status == Resolved)
            && chips.opposition == One(item.type_ == Obstacle && item.status != Resolved)
            && chips.lifted == One(item.type_ == Unknown && item.status == Resolved)
            && chips.fog == One(item.type_ == Unknown && item.status != Resolved)
  {
    hide AimedAt;
  }

  /** The totals of the map are counts of the items on it, whatever lanes and rows they are drawn in, and of the orders aimed
      at them. */
  lemma TotalsAre(fronts: seq<Front>, items: seq<Item>, orders: seq<Order>)
    requires DistinctItems(items) && DistinctFronts(fronts)
    ensures var t, placed := TotalsOf(fronts, items, orders), Placed(items);
            && t.objectives == HowMany(placed, Objective, None) && t.taken == HowMany(placed, Objective, Some(Resolved))
            && t.withdrawn == HowMany(placed, Objective, Some(Withdrawn))
            && t.cleared == HowMany(placed, Obstacle, Some(Resolved))
            && t.opposition == HowMany(placed, Obstacle, None) - HowMany(placed, Obstacle, Some(Resolved))
            && t.lifted == HowMany(placed, Unknown, Some(Resolved))
            && t.fog == HowMany(placed, Unknown, None) - HowMany(placed, Unknown, Some(Resolved))
            && t.ordersDone == OrdersAt(placed, orders).done && t.ordersOpen == OrdersAt(placed, orders).open
  {
    hide Sum, Placed, TotalsOf, HowMany, OrdersAt;
    TotalsAreTheMaps(fronts, items, orders);
    SumCounts(Placed(items), TargetsOf(orders));
    SumIsGround(Placed(items), orders);
  }

  /** What a post says of its item: an obstacle's kind and strength, and whether anyone confirmed it; an objective's date, and
      whether it has passed while the objective is still active. */
  lemma PostIs(item: Item, now: int)
    ensures var post := PostOf(item, now);
            && post.id == item.id && post.text == item.text && post.status == item.status
            && (item.type_ == Obstacle ==>
                  && post.kind == item.kind && post.strength == Worth(item) && (post.estimated <==> !item.strengthConfirmed)
                  && post.due.None? && !post.overdue)
            && (item.type_ == Objective ==>
                  && post.kind == "" && post.strength == 0 && !post.estimated && post.due == item.dueAt
                  && (post.overdue <==> item.status == Active && item.dueAt.Some? && item.dueAt.value < now))
            && (item.type_ == Unknown ==>
                  post.kind == "" && post.strength == 0 && !post.estimated && post.due.None? && !post.overdue)
  {
  }
}
