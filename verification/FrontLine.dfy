/** The front line: what it weighs, and that it only advances as things close. */
module FrontLine {
  import opened Common
  import opened Partition
  import opened Theatre
  import opened TheatreLaws

  // ---------- What counts for a lane's line ----------

  /** The objectives that were not withdrawn, or those that were. */
  function Live(objectives: seq<Item>, live: bool): seq<Item> {
    if objectives == [] then []
    else Live(objectives[..|objectives| - 1], live)
         + (if (objectives[|objectives| - 1].status != Withdrawn) == live then [objectives[|objectives| - 1]] else [])
  }

  function WithdrawnIds(items: seq<Item>): set<Id> {
    if items == [] then {}
    else
      var last := items[|items| - 1];
      WithdrawnIds(items[..|items| - 1])
      + (if last.type_ == Objective && last.status == Withdrawn then {last.id} else {})
  }

  /** An item counts unless it is a withdrawn objective or bears on one. */
  predicate Counts(item: Item, withdrawn: set<Id>) {
    if item.type_ == Objective then item.status != Withdrawn
    else item.objectiveId.None? || item.objectiveId.value !in withdrawn
  }

  function Counting(items: seq<Item>, withdrawn: set<Id>): seq<Item> {
    if items == [] then []
    else Counting(items[..|items| - 1], withdrawn)
         + (if Counts(items[|items| - 1], withdrawn) then [items[|items| - 1]] else [])
  }

  lemma {:induction false} CountingSplits(items: seq<Item>, withdrawn: set<Id>)
    ensures multiset(Counting(items, withdrawn))
         == multiset(Live(Objectives(items), true)) + multiset(Outside(Others(items), ParentOf, withdrawn))
  {
    hide Outside, Live;
    if items == [] {
      NothingToSplit(withdrawn);
    } else {
      var n := |items| - 1;
      CountingSplits(items[..n], withdrawn);
      if items[n].type_ == Objective {
        LiveOne(Objectives(items[..n]), items[n]);
        assert Others(items) == Others(items[..n]);
      } else {
        OutsideOne(Others(items[..n]), ParentOf, withdrawn, items[n]);
        assert Objectives(items) == Objectives(items[..n]);
      }
    }
  }

  lemma NothingToSplit(withdrawn: set<Id>)
    ensures Live([], true) == [] && Outside([], ParentOf, withdrawn) == []
  {
  }

  lemma LiveOne(objectives: seq<Item>, o: Item)
    ensures forall live :: Live(objectives + [o], live)
                        == Live(objectives, live) + (if (o.status != Withdrawn) == live then [o] else [])
  {
    assert (objectives + [o])[..|objectives|] == objectives;
  }

  lemma {:induction false} LiveMultiplicity(objectives: seq<Item>, live: bool, x: Item)
    ensures multiset(Live(objectives, live))[x] == if (x.status != Withdrawn) == live then multiset(objectives)[x] else 0
  {
    if objectives != [] {
      var n := |objectives| - 1;
      assert objectives == objectives[..n] + [objectives[n]];
      LiveMultiplicity(objectives[..n], live, x);
    }
  }

  lemma LivePermute(a: seq<Item>, b: seq<Item>, live: bool)
    requires multiset(a) == multiset(b)
    ensures multiset(Live(a, live)) == multiset(Live(b, live))
  {
    forall x ensures multiset(Live(a, live))[x] == multiset(Live(b, live))[x] {
      LiveMultiplicity(a, live, x);
      LiveMultiplicity(b, live, x);
    }
  }

  lemma {:induction false} CountedRowsAre(objectives: seq<Item>, items: seq<Item>)
    ensures multiset(OnRows(objectives, items, true))
         == multiset(Live(objectives, true)) + multiset(Groups(Others(items), ParentOf, IdsOf(Live(objectives, true))))
  {
    hide Bearing;
    if objectives != [] {
      var n := |objectives| - 1;
      var last := objectives[n];
      var live := Live(objectives[..n], true);
      CountedRowsAre(objectives[..n], items);
      if last.status != Withdrawn {
        assert (live + [last])[..|live|] == live;
        assert IdsOf(live + [last]) == IdsOf(live) + [last.id];
        assert (IdsOf(live) + [last.id])[..|live|] == IdsOf(live);
        BearingIs(items, last);
      } else {
        assert Live(objectives, true) == live;
        assert OnRows(objectives, items, true) == OnRows(objectives[..n], items, true);
      }
    }
  }

  lemma BearingIs(items: seq<Item>, o: Item)
    ensures Bearing(items, o) == WithKey(Others(items), ParentOf, o.id)
  {
  }

  /** Groups over objectives are those of the live ones and those of the withdrawn ones. */
  lemma {:induction false} GroupsByLiveness(others: seq<Item>, objectives: seq<Item>)
    ensures multiset(Groups(others, ParentOf, IdsOf(objectives)))
         == multiset(Groups(others, ParentOf, IdsOf(Live(objectives, true))))
            + multiset(Groups(others, ParentOf, IdsOf(Live(objectives, false))))
  {
    hide Groups, WithKey, IdsOf;
    if objectives == [] {
      NoGroups(others);
    } else {
      var n := |objectives| - 1;
      var last := objectives[n];
      assert objectives == objectives[..n] + [last];
      GroupsByLiveness(others, objectives[..n]);
      GroupsOne(others, objectives[..n], last);
      GroupsOne(others, Live(objectives[..n], last.status != Withdrawn), last);
      assert Live(objectives, last.status == Withdrawn) == Live(objectives[..n], last.status == Withdrawn);
    }
  }

  lemma NoGroups(others: seq<Item>)
    ensures Groups(others, ParentOf, IdsOf([])) == []
  {
  }

  lemma GroupsOne(others: seq<Item>, objectives: seq<Item>, o: Item)
    ensures Groups(others, ParentOf, IdsOf(objectives + [o]))
         == Groups(others, ParentOf, IdsOf(objectives)) + WithKey(others, ParentOf, o.id)
  {
    assert (objectives + [o])[..|objectives|] == objectives;
    assert IdsOf(objectives + [o]) == IdsOf(objectives) + [o.id];
    assert (IdsOf(objectives) + [o.id])[..|objectives|] == IdsOf(objectives);
  }

  lemma {:induction false} WithdrawnAre(items: seq<Item>)
    ensures Keys(IdsOf(Live(Objectives(items), false))) == WithdrawnIds(items)
  {
    hide IdsOf, Keys;
    if items == [] {
      KeysOfNone();
    } else {
      var n := |items| - 1;
      var front := Objectives(items[..n]);
      WithdrawnAre(items[..n]);
      if items[n].type_ == Objective {
        LiveOne(front, items[n]);
        KeysOfOne(Live(front, false), items[n]);
      }
      assert Live(front, false) + [] == Live(front, false) && front + [] == front;
    }
  }

  lemma KeysOfNone()
    ensures Keys(IdsOf([])) == {}
  {
  }

  /** Whatever order the rows are in, the line weighs exactly the items that count. */
  lemma LaneWeighsWhatCounts(items: seq<Item>)
    requires DistinctItems(items)
    ensures multiset(OnLane(items, true)) == multiset(Counting(items, WithdrawnIds(items)))
  {
    hide Objectives, Others, StableByRank, OnRows, Groups, Outside, Live, IdsOf;
    var objectives, others := Objectives(items), Others(items);
    var sorted := StableByRank(objectives);
    var gone := Live(sorted, false);
    StableByRankPermutes(objectives);
    ObjectivesAndOthers(items);
    IdsWithin(sorted, items);
    IdsPermute(objectives, sorted);
    CountedRowsAre(sorted, items);
    GroupsByLiveness(others, sorted);
    PartitionByKey(others, ParentOf, IdsOf(sorted));
    LivePermute(objectives, sorted, true);
    LivePermute(objectives, sorted, false);
    IdsPermute(Live(objectives, false), gone);
    WithdrawnAre(items);
    LiveWithin(sorted, false);
    IdsWithin(gone, items);
    PartitionByKey(others, ParentOf, IdsOf(gone));
    CountingSplits(items, WithdrawnIds(items));
    Cancel(multiset(Groups(others, ParentOf, IdsOf(Live(sorted, true)))), multiset(Groups(others, ParentOf, IdsOf(gone))),
           multiset(Loose(items)), multiset(Outside(others, ParentOf, WithdrawnIds(items))));
    assert Keys(IdsOf(objectives)) == Keys(IdsOf(sorted));
  }

  lemma Cancel(a: multiset<Item>, b: multiset<Item>, c: multiset<Item>, d: multiset<Item>)
    ensures a + b + c == b + d ==> a + c == d
  {
    if a + b + c == b + d {
      forall x ensures (a + c)[x] == d[x] { assert (a + b + c)[x] == (b + d)[x]; }
    }
  }

  lemma LiveWithin(objectives: seq<Item>, live: bool)
    ensures multiset(Live(objectives, live)) <= multiset(objectives)
  {
    forall x ensures multiset(Live(objectives, live))[x] <= multiset(objectives)[x] {
      LiveMultiplicity(objectives, live, x);
    }
  }

  /** A lane's line is the ground held over the items that count. */
  lemma LineIsWhatCounts(id: Option<Id>, name: string, items: seq<Item>, byTarget: Targets, now: int)
    requires DistinctItems(items)
    ensures LaneOf(id, name, items, byTarget, now).line == Line(Counting(items, WithdrawnIds(items)), byTarget)
  {
    hide Sum, OnLane, Counting;
    LaneWeighsWhatCounts(items);
    SumPermute(OnLane(items, true), Counting(items, WithdrawnIds(items)), byTarget);
  }

  // ---------- The line stays between 0 and 1 ----------

  lemma {:induction false} HeldWithinTotal(items: seq<Item>, byTarget: Targets)
    ensures Sum(items, byTarget).held <= Sum(items, byTarget).total
  {
    if items != [] { HeldWithinTotal(items[..|items| - 1], byTarget); }
  }

  lemma RatioWithin(held: nat, total: nat)
    requires held <= total
    ensures 0.0 <= Ratio(held, total) <= 1.0
  {
  }

  lemma LineWithin(id: Option<Id>, name: string, items: seq<Item>, byTarget: Targets, now: int)
    ensures 0.0 <= LaneOf(id, name, items, byTarget, now).line <= 1.0
  {
    HeldWithinTotal(OnLane(items, true), byTarget);
    RatioWithin(Sum(OnLane(items, true), byTarget).held, Sum(OnLane(items, true), byTarget).total);
  }

  // ---------- The line only advances as things close ----------

  predicate Closes(before: Item, after: Item) {
    after == before || (before.status == Active && after == before.(status := Resolved))
  }

  /** Some active items are resolved: objectives taken, obstacles cleared, unknowns lifted.  A proposed unknown can be
      lifted as well, which `Lifting` is about. */
  ghost predicate Closing(before: seq<Item>, after: seq<Item>) {
    |before| == |after| && forall i :: 0 <= i < |before| ==> Closes(before[i], after[i])
  }

  predicate Finishes(before: Order, after: Order) {
    after == before || ((before.status == OrderOpen || before.status == OrderStale) && after == before.(status := OrderDone))
  }

  /** Some open orders are carried out. */
  ghost predicate Finishing(before: seq<Order>, after: seq<Order>) {
    |before| == |after| && forall i :: 0 <= i < |before| ==> Finishes(before[i], after[i])
  }

  /** The same orders aimed at the same things, at least as many done. */
  ghost predicate NoneUndone(before: Targets, after: Targets) {
    forall id :: KeptAt(before, after, id)
  }

  ghost predicate KeptAt(before: Targets, after: Targets, id: Id) {
    |AimedAt(before, id)| == |AimedAt(after, id)| && Done(AimedAt(before, id)) <= Done(AimedAt(after, id))
  }

  function Aiming(byTarget: Targets, o: Order): Targets
    requires Agreed(o)
  {
    byTarget[o.targetId.value := AimedAt(byTarget, o.targetId.value) + [o]]
  }

  lemma KeptAfterOne(b: Targets, a: Targets, was: Order, now: Order, id: Id)
    requires Agreed(was) && Finishes(was, now) && KeptAt(b, a, id)
    ensures KeptAt(Aiming(b, was), Aiming(a, now), id)
  {
    if id == was.targetId.value {
      DoneOne(AimedAt(b, id), was);
      DoneOne(AimedAt(a, id), now);
    }
  }

  lemma NothingUndone()
    ensures NoneUndone(map[], map[])
  {
  }

  lemma {:induction false} FinishingUndoesNone(before: seq<Order>, after: seq<Order>)
    requires Finishing(before, after)
    ensures NoneUndone(TargetsOf(before), TargetsOf(after))
  {
    hide AimedAt, KeptAt;
    if before == [] {
      assert NoneUndone(map[], map[]) by { NothingUndone(); }
    } else {
      var n := |before| - 1;
      var b, a := TargetsOf(before[..n]), TargetsOf(after[..n]);
      FinishingUndoesNone(before[..n], after[..n]);
      assert Finishes(before[n], after[n]);
      if Agreed(before[n]) {
        forall id ensures KeptAt(TargetsOf(before), TargetsOf(after), id) {
          assert KeptAt(b, a, id);
          KeptAfterOne(b, a, before[n], after[n], id);
        }
      }
    }
  }

  lemma DoneOne(orders: seq<Order>, o: Order)
    ensures Done(orders + [o]) == Done(orders) + (if o.status == OrderDone then 1 else 0)
  {
    assert (orders + [o])[..|orders|] == orders;
  }

  lemma {:induction false} ClosingKeepsWithdrawn(before: seq<Item>, after: seq<Item>)
    requires Closing(before, after)
    ensures WithdrawnIds(before) == WithdrawnIds(after)
  {
    if before != [] {
      var n := |before| - 1;
      assert Closes(before[n], after[n]);
      ClosingKeepsWithdrawn(before[..n], after[..n]);
    }
  }

  lemma ChipAdvances(before: Item, after: Item, b: Targets, a: Targets)
    requires Closes(before, after) && NoneUndone(b, a)
    ensures Chips(before, b).total == Chips(after, a).total && Chips(before, b).held <= Chips(after, a).held
  {
    hide Chips;
    assert KeptAt(b, a, before.id);
    ChipsWeigh(before, b);
    ChipsWeigh(after, a);
  }

  lemma ChipsWeigh(item: Item, byTarget: Targets)
    ensures Chips(item, byTarget).total == Weight(item) + |AimedAt(byTarget, item.id)|
    ensures Chips(item, byTarget).held == (if item.status == Resolved then Weight(item) else 0) + Done(AimedAt(byTarget, item.id))
  {
  }

  /** Closing things leaves the ground as it was and holds no less of it. */
  lemma {:induction false} GroundAdvances(before: seq<Item>, after: seq<Item>, withdrawn: set<Id>, b: Targets, a: Targets)
    requires Closing(before, after) && NoneUndone(b, a)
    ensures Sum(Counting(before, withdrawn), b).total == Sum(Counting(after, withdrawn), a).total
    ensures Sum(Counting(before, withdrawn), b).held <= Sum(Counting(after, withdrawn), a).held
  {
    hide Chips, NoneUndone, Sums.Plus;
    if before != [] {
      var n := |before| - 1;
      GroundAdvances(before[..n], after[..n], withdrawn, b, a);
      assert Closes(before[n], after[n]);
      if Counts(before[n], withdrawn) {
        ChipAdvances(before[n], after[n], b, a);
        SumOne(Counting(before[..n], withdrawn), before[n], b);
        SumOne(Counting(after[..n], withdrawn), after[n], a);
        PlusAdds(Sum(Counting(before[..n], withdrawn), b), Chips(before[n], b));
        PlusAdds(Sum(Counting(after[..n], withdrawn), a), Chips(after[n], a));
      } else {
        assert Counting(before, withdrawn) == Counting(before[..n], withdrawn);
        assert Counting(after, withdrawn) == Counting(after[..n], withdrawn);
      }
    }
  }

  lemma RatioAdvances(held: nat, more: nat, total: nat)
    requires held <= more
    ensures Ratio(held, total) <= Ratio(more, total)
  {
    if total > 0 {
      assert more as real / total as real - held as real / total as real == (more as real - held as real) / total as real;
    }
  }

  lemma LaneAdvances(id: Option<Id>, name: string, before: seq<Item>, after: seq<Item>, b: Targets, a: Targets,
                     now: int, later: int)
    requires DistinctItems(before) && Closing(before, after) && NoneUndone(b, a)
    ensures LaneOf(id, name, before, b, now).line <= LaneOf(id, name, after, a, later).line
  {
    hide LaneOf, Counting, Sum, NoneUndone, WithdrawnIds, Ratio;
    assert DistinctItems(after) by {
      assert forall i :: 0 <= i < |before| ==> Closes(before[i], after[i]);
    }
    ClosingKeepsWithdrawn(before, after);
    var w := WithdrawnIds(before);
    LineIsWhatCounts(id, name, before, b, now);
    LineIsWhatCounts(id, name, after, a, later);
    GroundAdvances(before, after, w, b, a);
    RatioAdvances(Sum(Counting(before, w), b).held, Sum(Counting(after, w), a).held, Sum(Counting(before, w), b).total);
  }

  lemma {:induction false} PlacedCloses(before: seq<Item>, after: seq<Item>)
    requires Closing(before, after)
    ensures Closing(Placed(before), Placed(after))
  {
    if before != [] {
      var n := |before| - 1;
      PlacedCloses(before[..n], after[..n]);
      assert Closes(before[n], after[n]);
    }
  }

  lemma {:induction false} WithKeyCloses(before: seq<Item>, after: seq<Item>, k: Id)
    requires Closing(before, after)
    ensures Closing(WithKey(before, FrontOf, k), WithKey(after, FrontOf, k))
  {
    if before != [] {
      var n := |before| - 1;
      WithKeyCloses(before[..n], after[..n], k);
      assert Closes(before[n], after[n]);
    }
  }

  lemma {:induction false} OutsideCloses(before: seq<Item>, after: seq<Item>, keys: set<Id>)
    requires Closing(before, after)
    ensures Closing(Outside(before, FrontOf, keys), Outside(after, FrontOf, keys))
  {
    if before != [] {
      var n := |before| - 1;
      OutsideCloses(before[..n], after[..n], keys);
      assert Closes(before[n], after[n]);
    }
  }

  /** The same lanes, none of them further back. */
  ghost predicate Advanced(before: seq<Lane>, after: seq<Lane>) {
    && |before| == |after|
    && forall i :: 0 <= i < |before| ==>
         before[i].id == after[i].id && before[i].name == after[i].name && before[i].line <= after[i].line
  }

  lemma {:induction false} LanesAdvance(active: seq<Front>, before: seq<Item>, after: seq<Item>, b: Targets, a: Targets,
                                        now: int, later: int)
    requires DistinctItems(before) && Closing(before, after) && NoneUndone(b, a)
    ensures Advanced(LanesOf(active, before, b, now), LanesOf(active, after, a, later))
  {
    hide NoneUndone;
    if active != [] {
      var n := |active| - 1;
      var f := active[n];
      var was, turned := WithKey(before, FrontOf, f.id), WithKey(after, FrontOf, f.id);
      LanesAdvance(active[..n], before, after, b, a, now, later);
      WithKeyCloses(before, after, f.id);
      WithKeyWithin(before, FrontOf, f.id);
      DistinctPart(was, before);
      LaneAdvances(Some(f.id), f.name, was, turned, b, a, now, later);
      LaneIsNamed(Some(f.id), f.name, was, b, now);
      LaneIsNamed(Some(f.id), f.name, turned, a, later);
      AdvancedOne(LanesOf(active[..n], before, b, now), LanesOf(active[..n], after, a, later),
                  LaneOf(Some(f.id), f.name, was, b, now), LaneOf(Some(f.id), f.name, turned, a, later));
    }
  }

  lemma LaneIsNamed(id: Option<Id>, name: string, items: seq<Item>, byTarget: Targets, now: int)
    ensures LaneOf(id, name, items, byTarget, now).id == id && LaneOf(id, name, items, byTarget, now).name == name
  {
  }

  lemma AdvancedOne(before: seq<Lane>, after: seq<Lane>, b: Lane, a: Lane)
    requires Advanced(before, after) && b.id == a.id && b.name == a.name && b.line <= a.line
    ensures Advanced(before + [b], after + [a])
  {
  }

  /** Resolving obstacles, lifting unknowns and taking objectives that are on the map, and finishing orders, in any number
      and any combination, moves no lane's line back, though taking an objective re-sorts its lane's rows.  What was not on
      the map yet can: see `Lifting`. */
  lemma FrontLineAdvances(fronts: seq<Front>, before: seq<Item>, after: seq<Item>,
                          ordersBefore: seq<Order>, ordersAfter: seq<Order>, now: int, later: int)
    requires DistinctItems(before) && Closing(before, after) && Finishing(ordersBefore, ordersAfter)
    ensures Advanced(Laid(fronts, before, ordersBefore, now), Laid(fronts, after, ordersAfter, later))
  {
    hide NoneUndone, LaneOf, LanesOf, Placed, Outside, ActiveFronts, TargetsOf, FrontIds;
    var active := ActiveFronts(fronts);
    var b, a := TargetsOf(ordersBefore), TargetsOf(ordersAfter);
    var was, turned := Placed(before), Placed(after);
    FinishingUndoesNone(ordersBefore, ordersAfter);
    PlacedCloses(before, after);
    PlacedWithin(before);
    DistinctPart(was, before);
    LanesAdvance(active, was, turned, b, a, now, later);
    var keys := Keys(FrontIds(active));
    OutsideCloses(was, turned, keys);
    OutsideWithin(was, FrontOf, keys);
    DistinctPart(Unassigned(active, was), was);
    LaneAdvances(None, "No front", Unassigned(active, was), Unassigned(active, turned), b, a, now, later);
    LaneIsNamed(None, "No front", Unassigned(active, was), b, now);
    LaneIsNamed(None, "No front", Unassigned(active, turned), a, later);
    var last, last' := LaneOf(None, "No front", Unassigned(active, was), b, now),
                       LaneOf(None, "No front", Unassigned(active, turned), a, later);
    AdvancedOne(LanesOf(active, was, b, now), LanesOf(active, turned, a, later), last, last');
    if Unassigned(active, was) == [] {
      assert Laid(fronts, before, ordersBefore, now) == LanesOf(active, was, b, now);
      assert Laid(fronts, after, ordersAfter, later) == LanesOf(active, turned, a, later);
    }
  }

  // ---------- A withdrawn row counts for nothing ----------

  lemma CountingOne(items: seq<Item>, item: Item, withdrawn: set<Id>)
    ensures Counting(items + [item], withdrawn)
         == if Counts(item, withdrawn) then Counting(items, withdrawn) + [item] else Counting(items, withdrawn)
    ensures WithdrawnIds(items + [item])
         == WithdrawnIds(items) + (if item.type_ == Objective && item.status == Withdrawn then {item.id} else {})
  {
    assert (items + [item])[..|items|] == items;
  }

  lemma {:induction false} CountingAgain(items: seq<Item>, withdrawn: set<Id>)
    ensures Counting(Counting(items, withdrawn), {}) == Counting(items, withdrawn)
    ensures WithdrawnIds(Counting(items, withdrawn)) == {}
  {
    if items != [] {
      var n := |items| - 1;
      var front := Counting(items[..n], withdrawn);
      CountingAgain(items[..n], withdrawn);
      assert items == items[..n] + [items[n]];
      CountingOne(items[..n], items[n], withdrawn);
      CountingOne(front, items[n], {});
    }
  }

  lemma {:induction false} CountingWithin(items: seq<Item>, withdrawn: set<Id>)
    ensures multiset(Counting(items, withdrawn)) <= multiset(items)
  {
    if items != [] {
      var n := |items| - 1;
      assert items == items[..n] + [items[n]];
      CountingWithin(items[..n], withdrawn);
    }
  }

  lemma {:induction false} SumNeedsOnlyItsTargets(items: seq<Item>, b: Targets, a: Targets)
    requires forall it :: it in items ==> AimedAt(b, it.id) == AimedAt(a, it.id)
    ensures Sum(items, b) == Sum(items, a)
  {
    hide Sums.Plus;
    if items != [] {
      var n := |items| - 1;
      assert items[n] in items;
      SumNeedsOnlyItsTargets(items[..n], b, a);
    }
  }

  /** Striking every withdrawn objective off a lane, with what bears on it and whatever orders are aimed there, leaves
      the line exactly where it was. */
  lemma WithdrawnRowsDoNotCount(id: Option<Id>, name: string, items: seq<Item>, b: Targets, a: Targets, now: int)
    requires DistinctItems(items)
    requires forall it :: it in Counting(items, WithdrawnIds(items)) ==> AimedAt(b, it.id) == AimedAt(a, it.id)
    ensures LaneOf(id, name, items, b, now).line
         == LaneOf(id, name, Counting(items, WithdrawnIds(items)), a, now).line
  {
    hide Counting, LaneOf, Sum, WithdrawnIds;
    var counted := Counting(items, WithdrawnIds(items));
    CountingAgain(items, WithdrawnIds(items));
    CountingWithin(items, WithdrawnIds(items));
    DistinctPart(counted, items);
    LineIsWhatCounts(id, name, items, b, now);
    LineIsWhatCounts(id, name, counted, a, now);
    SumNeedsOnlyItsTargets(counted, b, a);
  }
}
