/** Lifting an unknown that was only proposed: what it puts on the map, and exactly when that moves the line back. */
module Lifting {
  import opened Common
  import opened Partition
  import opened Theatre
  import opened TheatreLaws
  import opened FrontLine

  // ---------- The map with one thing more on it ----------

  lemma {:induction false} WithKeyMultiplicity<T>(things: seq<T>, key: T -> Option<Id>, k: Id, x: T)
    ensures multiset(WithKey(things, key, k))[x] == if key(x) == Some(k) then multiset(things)[x] else 0
  {
    if things != [] {
      var n := |things| - 1;
      assert things == things[..n] + [things[n]];
      WithKeyMultiplicity(things[..n], key, k, x);
    }
  }

  lemma {:induction false} OutsideMultiplicity<T>(things: seq<T>, key: T -> Option<Id>, keys: set<Id>, x: T)
    ensures multiset(Outside(things, key, keys))[x]
         == if key(x).None? || key(x).value !in keys then multiset(things)[x] else 0
  {
    if things != [] {
      var n := |things| - 1;
      assert things == things[..n] + [things[n]];
      OutsideMultiplicity(things[..n], key, keys, x);
    }
  }

  lemma {:induction false} PlacedMultiplicity(items: seq<Item>, x: Item)
    ensures multiset(Placed(items))[x] == if OnMap(x) then multiset(items)[x] else 0
  {
    if items != [] {
      var n := |items| - 1;
      assert items == items[..n] + [items[n]];
      PlacedMultiplicity(items[..n], x);
    }
  }

  lemma {:induction false} CountingMultiplicity(items: seq<Item>, withdrawn: set<Id>, x: Item)
    ensures multiset(Counting(items, withdrawn))[x] == if Counts(x, withdrawn) then multiset(items)[x] else 0
  {
    if items != [] {
      var n := |items| - 1;
      assert items == items[..n] + [items[n]];
      CountingMultiplicity(items[..n], withdrawn, x);
    }
  }

  /** `after` holds what `before` does, and `x` besides if `more`. */
  ghost predicate Joined(before: seq<Item>, after: seq<Item>, x: Item, more: bool) {
    multiset(after) == if more then multiset(before) + multiset{x} else multiset(before)
  }

  lemma JoinsFront(before: seq<Item>, after: seq<Item>, x: Item, k: Id)
    requires Joined(before, after, x, true)
    ensures Joined(WithKey(before, FrontOf, k), WithKey(after, FrontOf, k), x, x.frontId == Some(k))
  {
    hide WithKey;
    forall y
      ensures multiset(WithKey(after, FrontOf, k))[y]
           == multiset(WithKey(before, FrontOf, k))[y] + if y == x && x.frontId == Some(k) then 1 else 0
    {
      WithKeyMultiplicity(before, FrontOf, k, y);
      WithKeyMultiplicity(after, FrontOf, k, y);
    }
  }

  lemma JoinsUnassigned(before: seq<Item>, after: seq<Item>, x: Item, keys: set<Id>)
    requires Joined(before, after, x, true)
    ensures Joined(Outside(before, FrontOf, keys), Outside(after, FrontOf, keys), x,
                   x.frontId.None? || x.frontId.value !in keys)
  {
    hide Outside;
    forall y
      ensures multiset(Outside(after, FrontOf, keys))[y]
           == multiset(Outside(before, FrontOf, keys))[y]
              + if y == x && (x.frontId.None? || x.frontId.value !in keys) then 1 else 0
    {
      OutsideMultiplicity(before, FrontOf, keys, y);
      OutsideMultiplicity(after, FrontOf, keys, y);
    }
  }

  lemma JoinsCounting(before: seq<Item>, after: seq<Item>, x: Item, withdrawn: set<Id>)
    requires Joined(before, after, x, true)
    ensures Joined(Counting(before, withdrawn), Counting(after, withdrawn), x, Counts(x, withdrawn))
  {
    hide Counting;
    forall y
      ensures multiset(Counting(after, withdrawn))[y]
           == multiset(Counting(before, withdrawn))[y] + if y == x && Counts(x, withdrawn) then 1 else 0
    {
      CountingMultiplicity(before, withdrawn, y);
      CountingMultiplicity(after, withdrawn, y);
    }
  }

  function Lifted(x: Item): Item {
    x.(status := Resolved)
  }

  lemma JoinsMap(items: seq<Item>, i: nat)
    requires i < |items| && items[i].status == Proposed
    ensures Joined(Placed(items), Placed(items[i := Lifted(items[i])]), Lifted(items[i]), true)
  {
    hide Placed;
    var x, after := items[i], items[i := Lifted(items[i])];
    forall y
      ensures multiset(Placed(after))[y] == multiset(Placed(items))[y] + if y == Lifted(x) then 1 else 0
    {
      PlacedMultiplicity(items, y);
      PlacedMultiplicity(after, y);
    }
  }

  // ---------- One lane ----------

  lemma {:induction false} WithdrawnMeans(items: seq<Item>, id: Id)
    ensures id in WithdrawnIds(items) <==>
            exists it :: it in multiset(items) && it.type_ == Objective && it.status == Withdrawn && it.id == id
  {
    if items != [] {
      var n := |items| - 1;
      assert items == items[..n] + [items[n]];
      WithdrawnMeans(items[..n], id);
    }
  }

  lemma JoiningWithdrawsNone(before: seq<Item>, after: seq<Item>, x: Item, more: bool)
    requires Joined(before, after, x, more) && x.type_ != Objective
    ensures WithdrawnIds(before) == WithdrawnIds(after)
  {
    hide WithdrawnIds;
    forall id
      ensures id in WithdrawnIds(before) <==> id in WithdrawnIds(after)
    {
      WithdrawnMeans(before, id);
      WithdrawnMeans(after, id);
    }
  }

  /** What the lane's line weighs, read off its rows. */
  function Ground(items: seq<Item>, byTarget: Targets): Sums {
    Sum(OnLane(items, true), byTarget)
  }

  lemma GroundIsCounting(items: seq<Item>, byTarget: Targets)
    requires DistinctItems(items)
    ensures Ground(items, byTarget) == Sum(Counting(items, WithdrawnIds(items)), byTarget)
  {
    hide Sum, OnLane, Counting, WithdrawnIds;
    LaneWeighsWhatCounts(items);
    SumPermute(OnLane(items, true), Counting(items, WithdrawnIds(items)), byTarget);
  }

  lemma SumJoined(before: seq<Item>, after: seq<Item>, x: Item, more: bool, byTarget: Targets)
    requires Joined(before, after, x, more)
    ensures Sum(after, byTarget) == if more then Sum(before, byTarget).Plus(Chips(x, byTarget)) else Sum(before, byTarget)
  {
    hide Sum, Chips, Sums.Plus;
    if more {
      assert multiset(before + [x]) == multiset(after);
      SumPermute(after, before + [x], byTarget);
      SumOne(before, x, byTarget);
    } else {
      SumPermute(after, before, byTarget);
    }
  }

  /** A lifted unknown adds one to the ground held and the orders aimed at it with their done ones, unless its row is a
      withdrawn objective's. */
  lemma GroundJoined(before: seq<Item>, after: seq<Item>, x: Item, more: bool, byTarget: Targets)
    requires Joined(before, after, x, more) && DistinctItems(before) && DistinctItems(after)
    requires x.type_ == Unknown && x.status == Resolved
    ensures var aimed, was, turned := AimedAt(byTarget, x.id), Ground(before, byTarget), Ground(after, byTarget);
            if more && Counts(x, WithdrawnIds(before))
            then turned.held == was.held + 1 + Done(aimed) && turned.total == was.total + 1 + |aimed|
            else turned == was
  {
    hide Ground, Sum, Chips, WithdrawnIds, Counting;
    var w := WithdrawnIds(before);
    JoiningWithdrawsNone(before, after, x, more);
    GroundIsCounting(before, byTarget);
    GroundIsCounting(after, byTarget);
    if more {
      JoinsCounting(before, after, x, w);
      SumJoined(Counting(before, w), Counting(after, w), x, Counts(x, w), byTarget);
      ChipsWeigh(x, byTarget);
    } else {
      CountingPermutes(before, after, w);
      SumJoined(Counting(before, w), Counting(after, w), x, false, byTarget);
    }
  }

  lemma CountingPermutes(before: seq<Item>, after: seq<Item>, withdrawn: set<Id>)
    requires multiset(before) == multiset(after)
    ensures multiset(Counting(before, withdrawn)) == multiset(Counting(after, withdrawn))
  {
    hide Counting;
    forall y ensures multiset(Counting(before, withdrawn))[y] == multiset(Counting(after, withdrawn))[y] {
      CountingMultiplicity(before, withdrawn, y);
      CountingMultiplicity(after, withdrawn, y);
    }
  }

  /** The line holds up when what is added is held at least as well as what is there. */
  lemma RatioHolds(held: nat, total: nat, done: nat, aimed: nat)
    requires held <= total && done <= aimed
    ensures Ratio(held, total) <= Ratio(held + 1 + done, total + 1 + aimed) <==> held * (1 + aimed) <= (1 + done) * total
  {
    var more, whole := held + 1 + done, total + 1 + aimed;
    if total > 0 {
      RatioCompare(held, total, more, whole);
      assert more * total - held * whole == (1 + done) * total - held * (1 + aimed);
    }
  }

  lemma RatioCompare(a: nat, b: nat, c: nat, d: nat)
    requires b > 0 && d > 0
    ensures a as real / b as real <= c as real / d as real <==> a * d <= c * b
  {
    var x, y := b as real, d as real;
    assert (c as real / y - a as real / x) * (x * y) == c as real * x - a as real * y;
    assert c as real * x == (c * b) as real && a as real * y == (a * d) as real;
    assert x * y > 0.0;
  }

  // ---------- The whole map ----------

  /** The items of the lane an item lands on. */
  function LaneFor(active: seq<Front>, placed: seq<Item>, x: Item): seq<Item> {
    if LandsOutside(active, x) then Unassigned(active, placed) else WithKey(placed, FrontOf, x.frontId.value)
  }

  predicate LandsOutside(active: seq<Front>, x: Item) {
    x.frontId.None? || x.frontId.value !in Keys(FrontIds(active))
  }

  /** Every lane there was is still there and no further back. */
  ghost predicate NoneBack(before: seq<Lane>, after: seq<Lane>) {
    |before| <= |after| && forall i :: 0 <= i < |before| ==> Ahead(before[i], after[i])
  }

  /** Known before the call: either the item's row is a withdrawn objective's, or the share of the lane's ground that is
      held is at most the share the item brings, its own weight held and the orders aimed at it as far as they are done. */
  predicate LaneHoldsUp(lane: seq<Item>, x: Item, byTarget: Targets) {
    var aimed, ground := AimedAt(byTarget, x.id), Ground(lane, byTarget);
    Counts(x, WithdrawnIds(lane)) ==> ground.held * (1 + |aimed|) <= (1 + Done(aimed)) * ground.total
  }

  predicate HoldsUp(fronts: seq<Front>, items: seq<Item>, orders: seq<Order>, x: Item) {
    LaneHoldsUp(LaneFor(ActiveFronts(fronts), Placed(items), x), x, TargetsOf(orders))
  }

  lemma {:induction false} LaneAt(active: seq<Front>, placed: seq<Item>, byTarget: Targets, now: int, j: nat)
    requires j < |active|
    ensures |LanesOf(active, placed, byTarget, now)| == |active|
    ensures LanesOf(active, placed, byTarget, now)[j]
         == LaneOf(Some(active[j].id), active[j].name, WithKey(placed, FrontOf, active[j].id), byTarget, now)
  {
    hide LaneOf, WithKey;
    var n := |active| - 1;
    LanesCount(active[..n], placed, byTarget, now);
    if j < n {
      LaneAt(active[..n], placed, byTarget, now, j);
    }
  }

  lemma {:induction false} LanesCount(active: seq<Front>, placed: seq<Item>, byTarget: Targets, now: int)
    ensures |LanesOf(active, placed, byTarget, now)| == |active|
  {
    hide LaneOf;
    if active != [] { LanesCount(active[..|active| - 1], placed, byTarget, now); }
  }

  lemma LineReads(id: Option<Id>, name: string, items: seq<Item>, byTarget: Targets, now: int)
    ensures var ground := Ground(items, byTarget);
            LaneOf(id, name, items, byTarget, now).line == Ratio(ground.held, ground.total) && ground.held <= ground.total
  {
    hide Sum, OnLane, Ratio;
    HeldWithinTotal(OnLane(items, true), byTarget);
  }

  /** One lane's line holds up, or is the same where the item does not land. */
  lemma LaneHolds(id: Option<Id>, name: string, before: seq<Item>, after: seq<Item>, x: Item, more: bool, byTarget: Targets,
                  now: int, later: int)
    requires Joined(before, after, x, more) && DistinctItems(before) && DistinctItems(after)
    requires x.type_ == Unknown && x.status == Resolved
    ensures LaneOf(id, name, before, byTarget, now).line <= LaneOf(id, name, after, byTarget, later).line
            <==> (more ==> LaneHoldsUp(before, x, byTarget))
  {
    hide Joined, DistinctItems, LaneOf, Ground, Ratio, Counts, WithdrawnIds, AimedAt, Done;
    var aimed, ground := AimedAt(byTarget, x.id), Ground(before, byTarget);
    GroundJoined(before, after, x, more, byTarget);
    LineReads(id, name, before, byTarget, now);
    LineReads(id, name, after, byTarget, later);
    if more && Counts(x, WithdrawnIds(before)) {
      RatioHolds(ground.held, ground.total, Done(aimed), |aimed|);
    }
  }

  /** Two lanes drawn at the same place, the second no further back. */
  predicate Ahead(before: Lane, after: Lane) {
    before.id == after.id && before.name == after.name && before.line <= after.line
  }

  lemma FrontHolds(active: seq<Front>, was: seq<Item>, turned: seq<Item>, x: Item, byTarget: Targets, now: int, later: int,
                   j: nat)
    requires Joined(was, turned, x, true) && DistinctItems(was) && DistinctItems(turned)
    requires x.type_ == Unknown && x.status == Resolved && j < |active|
    ensures |LanesOf(active, was, byTarget, now)| == |LanesOf(active, turned, byTarget, later)| == |active|
    ensures Ahead(LanesOf(active, was, byTarget, now)[j], LanesOf(active, turned, byTarget, later)[j])
            <==> (x.frontId == Some(active[j].id) ==> LaneHoldsUp(WithKey(was, FrontOf, active[j].id), x, byTarget))
  {
    hide Joined, DistinctItems, LaneOf, LanesOf, WithKey, LaneHoldsUp;
    var f := active[j];
    var before, after := WithKey(was, FrontOf, f.id), WithKey(turned, FrontOf, f.id);
    LaneAt(active, was, byTarget, now, j);
    LaneAt(active, turned, byTarget, later, j);
    JoinsFront(was, turned, x, f.id);
    WithKeyWithin(was, FrontOf, f.id);
    WithKeyWithin(turned, FrontOf, f.id);
    DistinctPart(before, was);
    DistinctPart(after, turned);
    LaneHolds(Some(f.id), f.name, before, after, x, x.frontId == Some(f.id), byTarget, now, later);
    LaneIsNamed(Some(f.id), f.name, before, byTarget, now);
    LaneIsNamed(Some(f.id), f.name, after, byTarget, later);
  }

  lemma UnassignedHolds(active: seq<Front>, was: seq<Item>, turned: seq<Item>, x: Item, byTarget: Targets, now: int, later: int)
    requires Joined(was, turned, x, true) && DistinctItems(was) && DistinctItems(turned)
    requires x.type_ == Unknown && x.status == Resolved
    ensures Unassigned(active, was) != [] ==> Unassigned(active, turned) != []
    ensures Ahead(LaneOf(None, "No front", Unassigned(active, was), byTarget, now),
                  LaneOf(None, "No front", Unassigned(active, turned), byTarget, later))
            <==> (LandsOutside(active, x) ==> LaneHoldsUp(Unassigned(active, was), x, byTarget))
  {
    hide DistinctItems, LaneOf, Outside, LaneHoldsUp;
    var keys := Keys(FrontIds(active));
    var before, after := Unassigned(active, was), Unassigned(active, turned);
    JoinsUnassigned(was, turned, x, keys);
    OutsideWithin(was, FrontOf, keys);
    OutsideWithin(turned, FrontOf, keys);
    DistinctPart(before, was);
    DistinctPart(after, turned);
    LaneHolds(None, "No front", before, after, x, LandsOutside(active, x), byTarget, now, later);
    LaneIsNamed(None, "No front", before, byTarget, now);
    LaneIsNamed(None, "No front", after, byTarget, later);
    assert |multiset(before)| <= |multiset(after)|;
  }

  lemma NothingToHold(x: Item, byTarget: Targets)
    ensures LaneHoldsUp([], x, byTarget)
  {
  }

  lemma FrontIsAt(active: seq<Front>, k: Id) returns (j: nat)
    requires k in Keys(FrontIds(active))
    ensures j < |active| && active[j].id == k
  {
    j :| 0 <= j < |active| && FrontIds(active)[j] == k;
  }

  /** The lanes drawn from what is placed, the unassigned one last and only if it has items. */
  function Lanes(active: seq<Front>, placed: seq<Item>, byTarget: Targets, now: int): seq<Lane> {
    LanesOf(active, placed, byTarget, now)
    + (if Unassigned(active, placed) == [] then [] else [LaneOf(None, "No front", Unassigned(active, placed), byTarget, now)])
  }

  lemma LanesHold(active: seq<Front>, was: seq<Item>, turned: seq<Item>, x: Item, byTarget: Targets, now: int, later: int)
    requires Joined(was, turned, x, true) && DistinctItems(was) && DistinctItems(turned)
    requires x.type_ == Unknown && x.status == Resolved
    ensures NoneBack(Lanes(active, was, byTarget, now), Lanes(active, turned, byTarget, later))
            <==> LaneHoldsUp(LaneFor(active, was, x), x, byTarget)
  {
    hide Joined, DistinctItems, LaneOf, LanesOf, WithKey, Unassigned, LaneHoldsUp, Ahead, Keys, FrontIds;
    var before, after := Lanes(active, was, byTarget, now), Lanes(active, turned, byTarget, later);
    var n := |active|;
    LanesCount(active, was, byTarget, now);
    LanesCount(active, turned, byTarget, later);
    UnassignedHolds(active, was, turned, x, byTarget, now, later);
    NothingToHold(x, byTarget);
    forall j | 0 <= j < n
      ensures Ahead(before[j], after[j])
              <==> (x.frontId == Some(active[j].id) ==> LaneHoldsUp(WithKey(was, FrontOf, active[j].id), x, byTarget))
    {
      FrontHolds(active, was, turned, x, byTarget, now, later, j);
    }
    if !LandsOutside(active, x) {
      var j := FrontIsAt(active, x.frontId.value);
      assert Ahead(before[j], after[j]) <==> LaneHoldsUp(LaneFor(active, was, x), x, byTarget);
    } else {
      forall j | 0 <= j < n ensures x.frontId != Some(active[j].id) { FrontIsFiled(active, j); }
      if Unassigned(active, was) != [] {
        assert |before| == n + 1 <= |after|;
        assert before[n] == LaneOf(None, "No front", Unassigned(active, was), byTarget, now);
        assert after[n] == LaneOf(None, "No front", Unassigned(active, turned), byTarget, later);
      } else {
        assert LaneFor(active, was, x) == [];
      }
    }
  }

  lemma FrontIsFiled(active: seq<Front>, j: nat)
    requires j < |active|
    ensures active[j].id in Keys(FrontIds(active))
  {
    assert FrontIds(active)[j] == active[j].id;
  }

  /** Lifting an unknown that was still only proposed puts it and the orders aimed at it on the map together.  No lane
      goes back exactly when the lane it lands on holds up. */
  lemma LiftingAProposal(fronts: seq<Front>, items: seq<Item>, i: nat, orders: seq<Order>, now: int, later: int)
    requires DistinctItems(items) && i < |items| && items[i].type_ == Unknown && items[i].status == Proposed
    ensures NoneBack(Laid(fronts, items, orders, now), Laid(fronts, items[i := Lifted(items[i])], orders, later))
            <==> HoldsUp(fronts, items, orders, items[i])
  {
    hide Placed, ActiveFronts, TargetsOf, Lanes, LaneFor, LaneHoldsUp, NoneBack, LaneOf, LanesOf, Unassigned;
    var active, byTarget := ActiveFronts(fronts), TargetsOf(orders);
    var x, turned := items[i], items[i := Lifted(items[i])];
    JoinsMap(items, i);
    PlacedWithin(items);
    PlacedWithin(turned);
    DistinctPart(Placed(items), items);
    DistinctPart(Placed(turned), turned);
    LanesHold(active, Placed(items), Placed(turned), Lifted(x), byTarget, now, later);
    LaidIsLanes(fronts, items, orders, now);
    LaidIsLanes(fronts, turned, orders, later);
    StatusDoesNotMove(active, Placed(items), x, byTarget);
  }

  lemma LaidIsLanes(fronts: seq<Front>, items: seq<Item>, orders: seq<Order>, now: int)
    ensures Laid(fronts, items, orders, now) == Lanes(ActiveFronts(fronts), Placed(items), TargetsOf(orders), now)
  {
  }

  lemma StatusDoesNotMove(active: seq<Front>, placed: seq<Item>, x: Item, byTarget: Targets)
    requires x.type_ == Unknown
    ensures LaneFor(active, placed, Lifted(x)) == LaneFor(active, placed, x)
    ensures forall lane :: LaneHoldsUp(lane, Lifted(x), byTarget) <==> LaneHoldsUp(lane, x, byTarget)
  {
    hide WithdrawnIds, Ground;
  }

  /** Where nothing aimed at it is left to do, lifting it moves no lane back. */
  lemma LiftingAFinishedProposal(fronts: seq<Front>, items: seq<Item>, i: nat, orders: seq<Order>, now: int, later: int)
    requires DistinctItems(items) && i < |items| && items[i].type_ == Unknown && items[i].status == Proposed
    requires forall o :: o in orders && Agreed(o) && o.targetId == Some(items[i].id) ==> o.status == OrderDone
    ensures NoneBack(Laid(fronts, items, orders, now), Laid(fronts, items[i := Lifted(items[i])], orders, later))
  {
    hide Laid, NoneBack, Placed, ActiveFronts, TargetsOf, LaneFor, Ground, WithdrawnIds;
    var x := items[i];
    LiftingAProposal(fronts, items, i, orders, now, later);
    AllDone(orders, x.id);
    var lane := LaneFor(ActiveFronts(fronts), Placed(items), x);
    LineReads(None, "", lane, TargetsOf(orders), now);
    Scales(1 + |AimedAt(TargetsOf(orders), x.id)|, Ground(lane, TargetsOf(orders)).held,
           Ground(lane, TargetsOf(orders)).total);
  }

  lemma Scales(k: nat, a: nat, b: nat)
    requires a <= b
    ensures a * k <= k * b
  {
  }

  lemma {:induction false} AllDone(orders: seq<Order>, id: Id)
    requires forall o :: o in orders && Agreed(o) && o.targetId == Some(id) ==> o.status == OrderDone
    ensures Done(AimedAt(TargetsOf(orders), id)) == |AimedAt(TargetsOf(orders), id)|
  {
    if orders != [] {
      var n := |orders| - 1;
      AllDone(orders[..n], id);
      assert orders[n] in orders;
      DoneOne(AimedAt(TargetsOf(orders[..n]), id), orders[n]);
    }
  }

  const TAKEN := Item(1, Objective, None, None, "win", Resolved, "", 0, false, None)
  const GUESSED := Item(2, Unknown, None, Some(1), "who", Proposed, "", 0, false, None)
  const SENT := Order(3, Some(2), OrderOpen, true)

  lemma OneOrder(o: Order)
    requires Agreed(o)
    ensures TargetsOf([o]) == map[o.targetId.value := [o]]
  {
    var none := [o][..0];
    assert TargetsOf(none) == map[];
    assert AimedAt(map[], o.targetId.value) + [o] == [o];
  }

  lemma ExamplePlaced()
    ensures Placed([TAKEN, GUESSED]) == [TAKEN] && Placed([TAKEN, Lifted(GUESSED)]) == [TAKEN, Lifted(GUESSED)]
  {
    assert [TAKEN, GUESSED][..1] == [TAKEN] == [TAKEN, Lifted(GUESSED)][..1] && [TAKEN][..0] == [];
    assert Placed([TAKEN]) == [TAKEN];
  }

  lemma OneCounts(x: Item)
    requires x.type_ == Objective && x.status == Resolved
    ensures WithdrawnIds([x]) == {} && Counting([x], {}) == [x]
  {
    assert [x][..0] == [];
  }

  lemma ExampleGround()
    ensures var ground := Ground([TAKEN], map[2 := [SENT]]); ground.held == ground.total == 2
  {
    hide Ground, Sum, Chips, Counting, WithdrawnIds;
    var byTarget := map[2 := [SENT]];
    OneCounts(TAKEN);
    GroundIsCounting([TAKEN], byTarget);
    SumJoined([], [TAKEN], TAKEN, true, byTarget);
    ChipsWeigh(TAKEN, byTarget);
    EmptySum(byTarget);
  }

  lemma EmptySum(byTarget: Targets)
    ensures Sum([], byTarget) == NONE
  {
  }

  lemma OneLane(items: seq<Item>, orders: seq<Order>, now: int)
    requires Placed(items) != [] && forall it :: it in Placed(items) ==> it.frontId.None?
    ensures Laid([], items, orders, now) == [LaneOf(None, "No front", Placed(items), TargetsOf(orders), now)]
  {
    hide LaneOf, Placed, TargetsOf;
    OutsideNone(Placed(items), FrontOf);
    assert Keys(FrontIds(ActiveFronts([]))) == {};
  }

  lemma NoneDone(o: Order)
    requires Agreed(o) && o.status != OrderDone
    ensures AimedAt(map[o.targetId.value := [o]], o.targetId.value) == [o] && Done([o]) == 0
  {
    assert [o][..0] == [];
  }

  lemma ExampleLines(byTarget: Targets)
    requires byTarget == map[2 := [SENT]]
    ensures LaneOf(None, "No front", [TAKEN], byTarget, 0).line == 1.0
    ensures LaneOf(None, "No front", [TAKEN, Lifted(GUESSED)], byTarget, 0).line == 0.75
  {
    hide LaneOf, Ground, WithdrawnIds, AimedAt, Done;
    var was, turned := [TAKEN], [TAKEN, Lifted(GUESSED)];
    ExampleGround();
    OneCounts(TAKEN);
    NoneDone(SENT);
    assert turned == was + [Lifted(GUESSED)];
    GroundJoined(was, turned, Lifted(GUESSED), true, byTarget);
    LineReads(None, "No front", was, byTarget, 0);
    LineReads(None, "No front", turned, byTarget, 0);
  }

  /** A taken objective holds all the ground there is; an order is out for what a proposed unknown under it would say.
      Answering that unknown moves the line from 1 back to 3/4. */
  lemma LiftingCanMoveBack()
    ensures var before, after := Laid([], [TAKEN, GUESSED], [SENT], 0), Laid([], [TAKEN, Lifted(GUESSED)], [SENT], 0);
            |before| == |after| == 1 && before[0].line == 1.0 && after[0].line == 0.75
    ensures !HoldsUp([], [TAKEN, GUESSED], [SENT], GUESSED)
  {
    hide Placed, Laid, LaneOf, TargetsOf, HoldsUp;
    ExamplePlaced();
    OneOrder(SENT);
    ExampleLines(TargetsOf([SENT]));
    OneLane([TAKEN, GUESSED], [SENT], 0);
    OneLane([TAKEN, Lifted(GUESSED)], [SENT], 0);
    assert [TAKEN, GUESSED][1 := Lifted(GUESSED)] == [TAKEN, Lifted(GUESSED)];
    LiftingAProposal([], [TAKEN, GUESSED], 1, [SENT], 0, 0);
  }
}
