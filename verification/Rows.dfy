/** Where things are drawn: which lane, which row, and in what order. */
module Rows {
  import opened Common
  import opened Partition
  import opened Theatre
  import opened TheatreLaws
  import opened Grounds
  import F = FrontLine

  // ---------- Picking things out keeps their order ----------

  /** Things picked out of a list stand in the order they have there. */
  ghost predicate InOrderOf<T(!new)>(part: seq<T>, whole: seq<T>) {
    && (forall x :: x in part ==> x in whole)
    && forall i, j :: 0 <= i < j < |part| ==> Precedes(whole, part[i], part[j])
  }

  /** Wherever the two are in the list, the one comes first. */
  ghost predicate Precedes<T(!new)>(whole: seq<T>, x: T, y: T) {
    forall p, q :: 0 <= p < |whole| && 0 <= q < |whole| && whole[p] == x && whole[q] == y ==> p < q
  }

  ghost predicate Once<T(!new)>(things: seq<T>) {
    forall p, q :: 0 <= p < q < |things| ==> things[p] != things[q]
  }

  /** One thing more at the end of the list, picked or not. */
  lemma OrderOneMore<T(!new)>(part: seq<T>, whole: seq<T>, x: T, picked: bool)
    requires InOrderOf(part, whole) && Once(whole + [x])
    ensures InOrderOf(part + (if picked then [x] else []), whole + [x])
  {
    var all := whole + [x];
    var more := part + (if picked then [x] else []);
    assert forall p :: 0 <= p < |whole| ==> all[p] == whole[p];
    forall y | y in part ensures y in whole && y != x {
      var p :| 0 <= p < |whole| && whole[p] == y;
      assert all[p] != all[|whole|];
    }
    assert all[|whole|] == x;
    forall i, j | 0 <= i < j < |more|
      ensures Precedes(all, more[i], more[j])
    {
      assert more[i] == part[i] && part[i] in part;
      if j < |part| {
        assert more[j] == part[j] && part[j] in part;
        assert Precedes(whole, part[i], part[j]);
      }
    }
  }

  lemma OrderThrough<T(!new)>(part: seq<T>, middle: seq<T>, whole: seq<T>)
    requires InOrderOf(part, middle) && InOrderOf(middle, whole)
    ensures InOrderOf(part, whole)
  {
    forall i, j | 0 <= i < j < |part|
      ensures Precedes(whole, part[i], part[j])
    {
      assert part[i] in middle && part[j] in middle;
      var k :| 0 <= k < |middle| && middle[k] == part[i];
      var l :| 0 <= l < |middle| && middle[l] == part[j];
      assert Precedes(middle, part[i], part[j]);
    }
  }

  lemma PickedOnce<T(!new)>(part: seq<T>, whole: seq<T>)
    requires InOrderOf(part, whole)
    ensures Once(part)
  {
    forall i, j | 0 <= i < j < |part| ensures part[i] != part[j] {
      assert part[i] in whole && Precedes(whole, part[i], part[j]);
      var p :| 0 <= p < |whole| && whole[p] == part[i];
    }
  }

  lemma NoneInOrder<T(!new)>(whole: seq<T>)
    ensures InOrderOf([], whole)
  {
  }

  lemma OnceUpTo<T(!new)>(things: seq<T>, n: nat)
    requires Once(things) && n <= |things|
    ensures Once(things[..n])
  {
    forall p, q | 0 <= p < q < n ensures things[..n][p] != things[..n][q] {
      assert things[p] != things[q];
    }
  }

  lemma DistinctIsOnce(items: seq<Item>)
    requires DistinctItems(items)
    ensures Once(items)
  {
  }

  // ---------- What each selection holds ----------

  lemma {:induction false} ObjectivesAre(items: seq<Item>)
    requires Once(items)
    ensures InOrderOf(Objectives(items), items)
    ensures forall it :: it in Objectives(items) <==> it in items && it.type_ == Objective
  {
    hide InOrderOf, Precedes, Once;
    if items == [] {
      NoneInOrder(items);
    } else {
      var n := |items| - 1;
      assert items == items[..n] + [items[n]];
      OnceUpTo(items, n);
      ObjectivesAre(items[..n]);
      OrderOneMore(Objectives(items[..n]), items[..n], items[n], items[n].type_ == Objective);
    }
  }

  lemma {:induction false} OthersAre(items: seq<Item>)
    requires Once(items)
    ensures InOrderOf(Others(items), items)
    ensures forall it :: it in Others(items) <==> it in items && it.type_ != Objective
  {
    hide InOrderOf, Precedes, Once;
    if items == [] {
      NoneInOrder(items);
    } else {
      var n := |items| - 1;
      assert items == items[..n] + [items[n]];
      OnceUpTo(items, n);
      OthersAre(items[..n]);
      OrderOneMore(Others(items[..n]), items[..n], items[n], items[n].type_ != Objective);
    }
  }

  lemma {:induction false} RankedAre(items: seq<Item>, rank: nat)
    requires Once(items)
    ensures InOrderOf(Ranked(items, rank), items)
    ensures forall it :: it in Ranked(items, rank) <==> it in items && Rank(it.status) == rank
  {
    hide InOrderOf, Precedes, Once, Rank;
    if items == [] {
      NoneInOrder(items);
    } else {
      var n := |items| - 1;
      assert items == items[..n] + [items[n]];
      OnceUpTo(items, n);
      RankedAre(items[..n], rank);
      OrderOneMore(Ranked(items[..n], rank), items[..n], items[n], Rank(items[n].status) == rank);
    }
  }

  lemma {:induction false} WithKeyIs(things: seq<Item>, key: Item -> Option<Id>, k: Id)
    requires Once(things)
    ensures InOrderOf(WithKey(things, key, k), things)
    ensures forall x :: x in WithKey(things, key, k) <==> x in things && key(x) == Some(k)
  {
    hide InOrderOf, Precedes, Once;
    if things == [] {
      NoneInOrder(things);
    } else {
      var n := |things| - 1;
      assert things == things[..n] + [things[n]];
      OnceUpTo(things, n);
      WithKeyIs(things[..n], key, k);
      OrderOneMore(WithKey(things[..n], key, k), things[..n], things[n], key(things[n]) == Some(k));
    }
  }

  lemma {:induction false} OutsideIs(things: seq<Item>, key: Item -> Option<Id>, keys: set<Id>)
    requires Once(things)
    ensures InOrderOf(Outside(things, key, keys), things)
    ensures forall x :: x in Outside(things, key, keys) <==> x in things && (key(x).None? || key(x).value !in keys)
  {
    hide InOrderOf, Precedes, Once;
    if things == [] {
      NoneInOrder(things);
    } else {
      var n := |things| - 1;
      assert things == things[..n] + [things[n]];
      OnceUpTo(things, n);
      OutsideIs(things[..n], key, keys);
      OrderOneMore(Outside(things[..n], key, keys), things[..n], things[n],
                   key(things[n]).None? || key(things[n]).value !in keys);
    }
  }

  lemma {:induction false} PlacedAre(items: seq<Item>)
    requires Once(items)
    ensures InOrderOf(Placed(items), items)
    ensures forall it :: it in Placed(items) <==> it in items && it.status != Proposed && it.status != Dropped
  {
    hide InOrderOf, Precedes, Once;
    if items == [] {
      NoneInOrder(items);
    } else {
      var n := |items| - 1;
      assert items == items[..n] + [items[n]];
      OnceUpTo(items, n);
      PlacedAre(items[..n]);
      OrderOneMore(Placed(items[..n]), items[..n], items[n], OnMap(items[n]));
    }
  }

  // ---------- The rows of a lane ----------

  /** Live, then taken, then what is neither; in each the order of the list. */
  ghost predicate Settled(sorted: seq<Item>, items: seq<Item>) {
    forall i, j :: 0 <= i < j < |sorted| ==>
      && (sorted[j].status == Active ==> sorted[i].status == Active)
      && (sorted[i].status != Active && sorted[i].status != Resolved ==>
            sorted[j].status != Active && sorted[j].status != Resolved)
      && (sorted[i].status == sorted[j].status ==>
            Precedes(items, sorted[i], sorted[j]))
  }

  lemma SortedAreSettled(objectives: seq<Item>)
    requires Once(objectives)
    ensures Settled(StableByRank(objectives), objectives)
    ensures forall it :: it in StableByRank(objectives) <==> it in objectives
  {
    var live, taken, gone := Ranked(objectives, 0), Ranked(objectives, 1), Ranked(objectives, 2);
    RankedAre(objectives, 0);
    RankedAre(objectives, 1);
    RankedAre(objectives, 2);
    hide Ranked, InOrderOf, Precedes, Once;
    var sorted := live + taken + gone;
    forall i, j | 0 <= i < j < |sorted|
      ensures && (sorted[j].status == Active ==> sorted[i].status == Active)
              && (sorted[i].status != Active && sorted[i].status != Resolved ==>
                    sorted[j].status != Active && sorted[j].status != Resolved)
      ensures sorted[i].status == sorted[j].status ==> Precedes(objectives, sorted[i], sorted[j])
    {
      PartOf(live, taken, gone, i);
      PartOf(live, taken, gone, j);
      if sorted[i].status == sorted[j].status {
        SamePartInOrder(live, taken, gone, objectives, i, j);
      }
    }
  }

  /** Which part of the sorted list a place is in. */
  lemma PartOf(live: seq<Item>, taken: seq<Item>, gone: seq<Item>, i: nat)
    requires i < |live| + |taken| + |gone|
    ensures var x := (live + taken + gone)[i];
            if i < |live| then x in live else if i < |live| + |taken| then x in taken else x in gone
  {
  }

  lemma SamePartInOrder(live: seq<Item>, taken: seq<Item>, gone: seq<Item>, whole: seq<Item>, i: nat, j: nat)
    requires InOrderOf(live, whole) && InOrderOf(taken, whole) && InOrderOf(gone, whole)
    requires i < j < |live| + |taken| + |gone|
    requires j < |live| || (|live| <= i && j < |live| + |taken|) || |live| + |taken| <= i
    ensures var sorted := live + taken + gone;
            Precedes(whole, sorted[i], sorted[j])
  {
    var sorted := live + taken + gone;
    if j < |live| {
      assert sorted[i] == live[i] && sorted[j] == live[j];
    } else if j < |live| + |taken| {
      assert sorted[i] == taken[i - |live|] && sorted[j] == taken[j - |live|];
    } else {
      assert sorted[i] == gone[i - |live| - |taken|] && sorted[j] == gone[j - |live| - |taken|];
    }
  }

  lemma {:induction false} RowAt(objectives: seq<Item>, items: seq<Item>, byTarget: Targets, now: int)
    ensures |RowsOf(objectives, items, byTarget, now)| == |objectives|
    ensures forall i :: 0 <= i < |objectives| ==>
              RowsOf(objectives, items, byTarget, now)[i]
              == RowOf(Some(objectives[i]), Bearing(items, objectives[i]), byTarget, now)
  {
    hide RowOf, Bearing;
    if objectives != [] { RowAt(objectives[..|objectives| - 1], items, byTarget, now); }
  }

  ghost predicate Ahead(items: seq<Item>, x: Id, y: Id) {
    forall p, q :: 0 <= p < |items| && 0 <= q < |items| && items[p].id == x && items[q].id == y ==> p < q
  }

  lemma AheadById(items: seq<Item>, x: Item, y: Item)
    requires DistinctItems(items) && x in items && y in items && Precedes(items, x, y)
    ensures Ahead(items, x.id, y.id)
  {
    var i :| 0 <= i < |items| && items[i] == x;
    var j :| 0 <= j < |items| && items[j] == y;
  }

  /** Rows with objectives first, live ones before taken ones before withdrawn ones; objectives of one status as listed. */
  ghost predicate RowsInOrder(rows: seq<Row>, items: seq<Item>) {
    forall i, j :: 0 <= i < j < |rows| ==>
      && rows[i].objective.Some?
      && (rows[j].objective.Some? ==> InTurn(rows[i].objective.value, rows[j].objective.value, items))
  }

  ghost predicate InTurn(a: Post, b: Post, items: seq<Item>) {
    && (b.status == Active ==> a.status == Active)
    && (a.status == Withdrawn ==> b.status == Withdrawn)
    && (a.status == b.status ==> Ahead(items, a.id, b.id))
  }

  ghost predicate AllOnMap(items: seq<Item>) {
    forall it :: it in items ==> it.status != Proposed && it.status != Dropped
  }

  lemma SortedIn(items: seq<Item>)
    requires DistinctItems(items)
    ensures var sorted := StableByRank(Objectives(items));
            && (forall it :: it in sorted ==> it in items && it.type_ == Objective)
            && forall i, j :: 0 <= i < j < |sorted| && sorted[i].status == sorted[j].status ==>
                 Ahead(items, sorted[i].id, sorted[j].id)
  {
    hide StableByRank, InOrderOf, Precedes, Once, Ahead, DistinctItems;
    var objectives := Objectives(items);
    var sorted := StableByRank(objectives);
    DistinctIsOnce(items);
    ObjectivesAre(items);
    PickedOnce(objectives, items);
    SortedAreSettled(objectives);
    forall i, j | 0 <= i < j < |sorted| && sorted[i].status == sorted[j].status
      ensures Ahead(items, sorted[i].id, sorted[j].id)
    {
      assert sorted[i] in objectives && sorted[j] in objectives;
      PrecedesThrough(objectives, items, sorted[i], sorted[j]);
      AheadById(items, sorted[i], sorted[j]);
    }
  }

  lemma PrecedesThrough<T(!new)>(middle: seq<T>, whole: seq<T>, x: T, y: T)
    requires InOrderOf(middle, whole) && x in middle && y in middle && Precedes(middle, x, y)
    ensures Precedes(whole, x, y)
  {
    var k :| 0 <= k < |middle| && middle[k] == x;
    var l :| 0 <= l < |middle| && middle[l] == y;
  }

  lemma ObjectiveShown(o: Item, kids: seq<Item>, byTarget: Targets, now: int)
    ensures var shown := RowOf(Some(o), kids, byTarget, now).objective;
            shown.Some? && shown.value.id == o.id && shown.value.status == o.status
  {
  }

  /** The rows of a lane, from top to bottom. */
  lemma LaneRowsInOrder(id: Option<Id>, name: string, items: seq<Item>, byTarget: Targets, now: int)
    requires DistinctItems(items) && AllOnMap(items)
    ensures RowsInOrder(LaneOf(id, name, items, byTarget, now).rows, items)
  {
    hide RowOf, Ahead, StableByRank, Line, Bearing, Loose, DistinctItems, Objectives;
    var sorted := StableByRank(Objectives(items));
    var rows := LaneOf(id, name, items, byTarget, now).rows;
    RowAt(sorted, items, byTarget, now);
    DistinctIsOnce(items);
    ObjectivesAre(items);
    PickedOnce(Objectives(items), items);
    SortedAreSettled(Objectives(items));
    SortedIn(items);
    forall i | 0 <= i < |sorted|
      ensures rows[i].objective.Some?
      ensures rows[i].objective.value.id == sorted[i].id && rows[i].objective.value.status == sorted[i].status
    {
      ObjectiveShown(sorted[i], Bearing(items, sorted[i]), byTarget, now);
    }
    forall i, j | 0 <= i < j < |rows|
      ensures rows[i].objective.Some?
      ensures rows[j].objective.Some? ==> InTurn(rows[i].objective.value, rows[j].objective.value, items)
    {
      if j < |sorted| {
        assert sorted[i] in items && sorted[j] in items;
      } else {
        LooseHasNone(Loose(items), byTarget, now);
      }
    }
  }

  lemma LooseHasNone(kids: seq<Item>, byTarget: Targets, now: int)
    ensures RowOf(None, kids, byTarget, now).objective.None?
  {
  }

  // ---------- What a row shows ----------

  ghost predicate PostsInOrder(posts: seq<Post>, items: seq<Item>) {
    forall a, b :: 0 <= a < b < |posts| ==> Ahead(items, posts[a].id, posts[b].id)
  }

  /** Exactly the items of a type under an objective, as listed. */
  ghost predicate ShowsUnder(posts: seq<Post>, items: seq<Item>, type_: Type, parent: Id, now: int) {
    && PostsInOrder(posts, items)
    && forall post :: post in posts <==>
         exists it :: it in items && it.type_ == type_ && it.objectiveId == Some(parent) && post == PostOf(it, now)
  }

  /** Exactly the items of a type under no objective of the list. */
  ghost predicate ShowsLoose(posts: seq<Post>, items: seq<Item>, type_: Type, now: int) {
    && PostsInOrder(posts, items)
    && forall post :: post in posts <==>
         exists it :: it in items && it.type_ == type_ && UnderNone(it, items) && post == PostOf(it, now)
  }

  ghost predicate UnderNone(it: Item, items: seq<Item>) {
    forall o :: o in items && o.type_ == Objective ==> it.objectiveId != Some(o.id)
  }

  lemma {:induction false} PostsShow(kids: seq<Item>, items: seq<Item>, type_: Type, now: int)
    requires DistinctItems(items) && InOrderOf(kids, items)
    ensures PostsInOrder(PostsOf(kids, type_, now), items)
    ensures forall post :: post in PostsOf(kids, type_, now) <==>
              exists kid :: kid in kids && kid.type_ == type_ && post == PostOf(kid, now)
  {
    hide Ahead, Precedes, DistinctItems;
    if kids != [] {
      var n := |kids| - 1;
      var front := PostsOf(kids[..n], type_, now);
      assert kids == kids[..n] + [kids[n]];
      FrontInOrder(kids, items);
      PostsShow(kids[..n], items, type_, now);
      forall a | 0 <= a < |front|
        ensures Ahead(items, front[a].id, kids[n].id)
      {
        assert front[a] in front;
        var kid :| kid in kids[..n] && kid.type_ == type_ && front[a] == PostOf(kid, now);
        var i :| 0 <= i < n && kids[..n][i] == kid;
        assert Precedes(items, kids[i], kids[n]) && kids[n] in kids;
        AheadById(items, kid, kids[n]);
      }
    }
  }

  lemma FrontInOrder(kids: seq<Item>, items: seq<Item>)
    requires kids != [] && InOrderOf(kids, items)
    ensures InOrderOf(kids[..|kids| - 1], items)
  {
    var n := |kids| - 1;
    assert kids == kids[..n] + [kids[n]];
  }

  lemma BearingAre(items: seq<Item>, o: Item)
    requires DistinctItems(items)
    ensures InOrderOf(Bearing(items, o), items)
    ensures forall it :: it in Bearing(items, o) <==>
              it in items && it.type_ != Objective && it.objectiveId == Some(o.id)
  {
    hide InOrderOf, Once, Others, WithKey, DistinctItems;
    DistinctIsOnce(items);
    OthersAre(items);
    PickedOnce(Others(items), items);
    WithKeyIs(Others(items), ParentOf, o.id);
    OrderThrough(Bearing(items, o), Others(items), items);
  }

  lemma LooseAre(items: seq<Item>)
    requires DistinctItems(items)
    ensures InOrderOf(Loose(items), items)
    ensures forall it :: it in Loose(items) <==> it in items && it.type_ != Objective && UnderNone(it, items)
  {
    hide InOrderOf, Once, Others, Outside, DistinctItems, Objectives, IdsOf, UnderNone;
    var ids := IdsOf(Objectives(items));
    DistinctIsOnce(items);
    OthersAre(items);
    PickedOnce(Others(items), items);
    OutsideIs(Others(items), ParentOf, Keys(ids));
    OrderThrough(Loose(items), Others(items), items);
    forall it
      ensures UnderNone(it, items) <==> it.objectiveId.None? || it.objectiveId.value !in Keys(ids)
    {
      UnderNoneIff(items, it);
    }
  }

  lemma UnderNoneIff(items: seq<Item>, it: Item)
    requires DistinctItems(items)
    ensures UnderNone(it, items) <==> it.objectiveId.None? || it.objectiveId.value !in Keys(IdsOf(Objectives(items)))
  {
    var objectives := Objectives(items);
    DistinctIsOnce(items);
    ObjectivesAre(items);
    hide Objectives, InOrderOf, Once, DistinctItems;
    if it.objectiveId.Some? && it.objectiveId.value in Keys(IdsOf(objectives)) {
      var i :| 0 <= i < |objectives| && IdsOf(objectives)[i] == it.objectiveId.value;
      assert objectives[i] in objectives;
    }
    if !UnderNone(it, items) {
      var o :| o in items && o.type_ == Objective && it.objectiveId == Some(o.id);
      assert o in objectives;
      var i :| 0 <= i < |objectives| && objectives[i] == o;
      assert IdsOf(objectives)[i] == o.id;
    }
  }

  /** Everything but objectives under the objective, or under none of the list. */
  ghost predicate Bears(kids: seq<Item>, items: seq<Item>, o: Option<Item>) {
    && InOrderOf(kids, items)
    && forall it :: it in kids <==>
         && it in items && it.type_ != Objective
         && (if o.Some? then it.objectiveId == Some(o.value.id) else UnderNone(it, items))
  }

  /** The orders aimed at what is on the row, and how much of its ground is held; none counts under a withdrawn objective. */
  predicate Counted(row: Row, o: Option<Item>, kids: seq<Item>, orders: seq<Order>) {
    var here := if o.Some? then [o.value] + kids else kids;
    && row.orders == OrdersAt(here, orders)
    && row.progress == if o.Some? && o.value.status == Withdrawn then 0.0
                       else Share(HeldGround(here, orders), AllGround(here, orders))
  }

  ghost predicate RowCounted(row: Row, o: Option<Item>, items: seq<Item>, orders: seq<Order>) {
    exists kids :: Bears(kids, items, o) && Counted(row, o, kids, orders)
  }

  /** An objective's row shows that objective and exactly the obstacles and the unknowns under it, each kind as listed; the
      last row, there exactly when something is under no objective of the lane, shows just that.  A row counts the orders
      and the ground of what it shows. */
  ghost predicate RowShows(row: Row, items: seq<Item>, orders: seq<Order>, now: int) {
    if row.objective.Some? then
      exists o :: o in items && RowShowsOf(row, o, items, orders, now)
    else
      && ShowsLoose(row.obstacles, items, Obstacle, now) && ShowsLoose(row.unknowns, items, Unknown, now)
      && RowCounted(row, None, items, orders)
      && exists it :: it in items && it.type_ != Objective && UnderNone(it, items)
  }

  ghost predicate RowShowsOf(row: Row, o: Item, items: seq<Item>, orders: seq<Order>, now: int) {
    && o.type_ == Objective && row.objective == Some(PostOf(o, now))
    && ShowsUnder(row.obstacles, items, Obstacle, o.id, now) && ShowsUnder(row.unknowns, items, Unknown, o.id, now)
    && RowCounted(row, Some(o), items, orders)
  }

  lemma RowUnderShows(o: Item, items: seq<Item>, orders: seq<Order>, now: int)
    requires DistinctItems(items) && o in items && o.type_ == Objective
    ensures RowShowsOf(RowOf(Some(o), Bearing(items, o), TargetsOf(orders), now), o, items, orders, now)
  {
    hide InOrderOf, Bearing, PostOf, PostsOf, PostsInOrder, Line, Sum, DistinctItems, OrdersAt, HeldGround, AllGround, Share,
         TargetsOf, OrdersIn;
    BearingAre(items, o);
    RowCounts(Some(o), Bearing(items, o), orders, now);
    assert Bears(Bearing(items, o), items, Some(o));
    PostsShow(Bearing(items, o), items, Obstacle, now);
    PostsShow(Bearing(items, o), items, Unknown, now);
  }

  lemma LooseRowShows(items: seq<Item>, orders: seq<Order>, now: int)
    requires DistinctItems(items) && Loose(items) != []
    ensures RowShows(RowOf(None, Loose(items), TargetsOf(orders), now), items, orders, now)
  {
    hide InOrderOf, Loose, PostOf, PostsOf, PostsInOrder, Line, Sum, DistinctItems, UnderNone, OrdersAt, HeldGround, AllGround,
         Share, TargetsOf, OrdersIn;
    LooseAre(items);
    RowCounts(None, Loose(items), orders, now);
    assert Bears(Loose(items), items, None);
    PostsShow(Loose(items), items, Obstacle, now);
    PostsShow(Loose(items), items, Unknown, now);
    assert Loose(items)[0] in Loose(items);
  }

  /** Every row of a lane shows what it should, and every objective has one. */
  lemma LaneRowsShow(id: Option<Id>, name: string, items: seq<Item>, orders: seq<Order>, now: int)
    requires DistinctItems(items)
    ensures var rows := LaneOf(id, name, items, TargetsOf(orders), now).rows;
            && (forall i :: 0 <= i < |rows| ==> RowShows(rows[i], items, orders, now))
            && (forall o :: o in items && o.type_ == Objective ==>
                  exists i :: 0 <= i < |rows| && rows[i].objective == Some(PostOf(o, now)))
            && (forall it :: it in items && it.type_ != Objective && UnderNone(it, items) ==>
                  rows != [] && rows[|rows| - 1].objective.None?)
  {
    hide RowOf, TargetsOf, PostOf, StableByRank, Line, Bearing, Loose, DistinctItems, Objectives, UnderNone, RowShows, RowShowsOf;
    var sorted := StableByRank(Objectives(items));
    var rows := LaneOf(id, name, items, TargetsOf(orders), now).rows;
    RowAt(sorted, items, TargetsOf(orders), now);
    DistinctIsOnce(items);
    ObjectivesAre(items);
    PickedOnce(Objectives(items), items);
    SortedAreSettled(Objectives(items));
    LooseAre(items);
    LooseHasNone(Loose(items), TargetsOf(orders), now);
    forall i | 0 <= i < |rows|
      ensures RowShows(rows[i], items, orders, now)
    {
      if i < |sorted| {
        assert sorted[i] in items;
        RowUnderShows(sorted[i], items, orders, now);
        ShowsOfShows(rows[i], sorted[i], items, orders, now);
      } else {
        LooseRowShows(items, orders, now);
      }
    }
    forall o | o in items && o.type_ == Objective
      ensures exists i :: 0 <= i < |rows| && rows[i].objective == Some(PostOf(o, now))
    {
      assert o in sorted;
      var i :| 0 <= i < |sorted| && sorted[i] == o;
      RowUnderShows(o, items, orders, now);
      ShowsOfShows(rows[i], o, items, orders, now);
    }
  }

  lemma ShowsOfShows(row: Row, o: Item, items: seq<Item>, orders: seq<Order>, now: int)
    requires RowShowsOf(row, o, items, orders, now) && o in items
    ensures RowShows(row, items, orders, now) && row.objective == Some(PostOf(o, now))
  {
  }

  // ---------- The lanes ----------

  lemma {:induction false} ActiveAre(fronts: seq<Front>)
    requires Once(fronts)
    ensures InOrderOf(ActiveFronts(fronts), fronts)
    ensures forall f :: f in ActiveFronts(fronts) <==> f in fronts && f.status == FrontActive
  {
    hide InOrderOf, Precedes, Once;
    if fronts == [] {
      NoneInOrder(fronts);
    } else {
      var n := |fronts| - 1;
      assert fronts == fronts[..n] + [fronts[n]];
      OnceUpTo(fronts, n);
      ActiveAre(fronts[..n]);
      OrderOneMore(ActiveFronts(fronts[..n]), fronts[..n], fronts[n], fronts[n].status == FrontActive);
    }
  }

  /** The items on the map that are filed under a front. */
  ghost predicate FiledUnder(lane: seq<Item>, items: seq<Item>, front: Id) {
    && InOrderOf(lane, items)
    && forall it :: it in lane <==> it in items && OnMap(it) && it.frontId == Some(front)
  }

  /** The items on the map that are filed under no active front. */
  ghost predicate FiledNowhere(lane: seq<Item>, items: seq<Item>, fronts: seq<Front>) {
    && InOrderOf(lane, items)
    && forall it :: it in lane <==>
         it in items && OnMap(it) && forall f :: f in fronts && f.status == FrontActive ==> it.frontId != Some(f.id)
  }

  lemma FrontIdsAre(fronts: seq<Front>, k: Id)
    requires Once(fronts)
    ensures k in Keys(FrontIds(ActiveFronts(fronts))) <==> exists f :: f in fronts && f.status == FrontActive && f.id == k
  {
    ActiveAre(fronts);
    hide ActiveFronts, InOrderOf, Once;
    var active := ActiveFronts(fronts);
    if k in Keys(FrontIds(active)) {
      var i :| 0 <= i < |active| && FrontIds(active)[i] == k;
      assert active[i] in active;
    }
    if exists f :: f in fronts && f.status == FrontActive && f.id == k {
      var f :| f in fronts && f.status == FrontActive && f.id == k;
      assert f in active;
      var i :| 0 <= i < |active| && active[i] == f;
      assert FrontIds(active)[i] == k;
    }
  }

  lemma LaneHolds(items: seq<Item>, front: Id)
    requires DistinctItems(items)
    ensures FiledUnder(WithKey(Placed(items), FrontOf, front), items, front)
  {
    hide InOrderOf, Once, WithKey, Placed, DistinctItems;
    DistinctIsOnce(items);
    PlacedAre(items);
    PickedOnce(Placed(items), items);
    WithKeyIs(Placed(items), FrontOf, front);
    OrderThrough(WithKey(Placed(items), FrontOf, front), Placed(items), items);
  }

  lemma UnassignedHolds(items: seq<Item>, fronts: seq<Front>)
    requires DistinctItems(items) && Once(fronts)
    ensures FiledNowhere(Unassigned(ActiveFronts(fronts), Placed(items)), items, fronts)
  {
    hide InOrderOf, Once, Outside, Placed, DistinctItems, ActiveFronts, FrontIds, Keys;
    var keys := Keys(FrontIds(ActiveFronts(fronts)));
    DistinctIsOnce(items);
    PlacedAre(items);
    PickedOnce(Placed(items), items);
    OutsideIs(Placed(items), FrontOf, keys);
    OrderThrough(Outside(Placed(items), FrontOf, keys), Placed(items), items);
    forall it: Item
      ensures (it.frontId.None? || it.frontId.value !in keys)
              <==> forall f :: f in fronts && f.status == FrontActive ==> it.frontId != Some(f.id)
    {
      if it.frontId.Some? {
        FrontIdsAre(fronts, it.frontId.value);
      }
    }
  }

  lemma {:induction false} LanesAt(active: seq<Front>, placed: seq<Item>, byTarget: Targets, now: int)
    ensures |LanesOf(active, placed, byTarget, now)| == |active|
    ensures forall j :: 0 <= j < |active| ==>
              LanesOf(active, placed, byTarget, now)[j]
              == LaneOf(Some(active[j].id), active[j].name, WithKey(placed, FrontOf, active[j].id), byTarget, now)
  {
    hide LaneOf, WithKey;
    if active != [] { LanesAt(active[..|active| - 1], placed, byTarget, now); }
  }

  /** Counts for the line: an objective not withdrawn, or something under no withdrawn objective of the lane. */
  ghost predicate Standing(it: Item, here: seq<Item>) {
    if it.type_ == Objective then it.status != Withdrawn
    else forall o :: o in here && o.type_ == Objective && o.status == Withdrawn ==> it.objectiveId != Some(o.id)
  }

  /** The share held of the ground that counts. */
  ghost predicate LineIs(line: real, here: seq<Item>, orders: seq<Order>) {
    exists counted :: InOrderOf(counted, here) && (forall it :: it in counted <==> it in here && Standing(it, here))
                      && line == Share(HeldGround(counted, orders), AllGround(counted, orders))
  }

  lemma {:induction false} CountingAre(items: seq<Item>, withdrawn: set<Id>)
    requires Once(items)
    ensures InOrderOf(F.Counting(items, withdrawn), items)
    ensures forall it :: it in F.Counting(items, withdrawn) <==> it in items && F.Counts(it, withdrawn)
  {
    hide InOrderOf, Precedes, Once, F.Counts;
    if items == [] {
      NoneInOrder(items);
    } else {
      var n := |items| - 1;
      assert items == items[..n] + [items[n]];
      OnceUpTo(items, n);
      CountingAre(items[..n], withdrawn);
      OrderOneMore(F.Counting(items[..n], withdrawn), items[..n], items[n], F.Counts(items[n], withdrawn));
    }
  }

  lemma {:induction false} WithdrawnAre(items: seq<Item>, id: Id)
    ensures id in F.WithdrawnIds(items)
            <==> exists o :: o in items && o.type_ == Objective && o.status == Withdrawn && o.id == id
  {
    if items != [] {
      var n := |items| - 1;
      assert items == items[..n] + [items[n]];
      WithdrawnAre(items[..n], id);
      if id in F.WithdrawnIds(items[..n]) {
        var o :| o in items[..n] && o.type_ == Objective && o.status == Withdrawn && o.id == id;
        assert o in items;
      }
    }
  }

  lemma CountsIsStanding(it: Item, here: seq<Item>)
    ensures F.Counts(it, F.WithdrawnIds(here)) <==> Standing(it, here)
  {
    hide F.WithdrawnIds;
    if it.objectiveId.Some? {
      WithdrawnAre(here, it.objectiveId.value);
    }
  }

  lemma LaneLineIs(id: Option<Id>, name: string, here: seq<Item>, orders: seq<Order>, now: int)
    requires DistinctItems(here)
    ensures LineIs(LaneOf(id, name, here, TargetsOf(orders), now).line, here, orders)
  {
    hide LaneOf, F.Counting, F.Counts, F.WithdrawnIds, InOrderOf, Once, Standing, TargetsOf, Sum, DistinctItems, HeldGround,
         AllGround;
    var counted := F.Counting(here, F.WithdrawnIds(here));
    F.LineIsWhatCounts(id, name, here, TargetsOf(orders), now);
    SumIsGround(counted, orders);
    DistinctIsOnce(here);
    CountingAre(here, F.WithdrawnIds(here));
    forall it ensures it in counted <==> it in here && Standing(it, here) {
      CountsIsStanding(it, here);
    }
  }

  /** What a lane is: named for its front, or for none; its line what counts of it; its rows in order, each showing what it
      should of the items filed there, and a row for every objective. */
  ghost predicate LaneIs(lane: Lane, id: Option<Id>, name: string, here: seq<Item>, orders: seq<Order>, now: int) {
    && lane.id == id && lane.name == name
    && LineIs(lane.line, here, orders)
    && RowsInOrder(lane.rows, here)
    && (forall i :: 0 <= i < |lane.rows| ==> RowShows(lane.rows[i], here, orders, now))
    && (forall o :: o in here && o.type_ == Objective ==>
          exists i :: 0 <= i < |lane.rows| && lane.rows[i].objective == Some(PostOf(o, now)))
    && forall it :: it in here && it.type_ != Objective && UnderNone(it, here) ==>
         lane.rows != [] && lane.rows[|lane.rows| - 1].objective.None?
  }

  lemma LaneIsIt(id: Option<Id>, name: string, here: seq<Item>, items: seq<Item>, orders: seq<Order>, now: int)
    requires DistinctItems(items) && InOrderOf(here, items) && AllOnMap(here)
    ensures LaneIs(LaneOf(id, name, here, TargetsOf(orders), now), id, name, here, orders, now)
  {
    PickedDistinct(here, items);
    hide RowsInOrder, RowShows, PostOf, RowsOf, Line, RowOf, StableByRank, Loose, InOrderOf, DistinctItems, LineIs, TargetsOf,
         UnderNone;
    LaneRowsInOrder(id, name, here, TargetsOf(orders), now);
    LaneRowsShow(id, name, here, orders, now);
    LaneLineIs(id, name, here, orders, now);
  }

  lemma PickedDistinct(part: seq<Item>, whole: seq<Item>)
    requires DistinctItems(whole) && InOrderOf(part, whole)
    ensures DistinctItems(part)
  {
    forall i, j | 0 <= i < j < |part| ensures part[i].id != part[j].id {
      assert part[i] in whole && part[j] in whole && Precedes(whole, part[i], part[j]);
      var p :| 0 <= p < |whole| && whole[p] == part[i];
      var q :| 0 <= q < |whole| && whole[q] == part[j];
    }
  }

  /** A front's lane, holding exactly what is filed under it. */
  ghost predicate LaneDrawn(lane: Lane, front: Front, items: seq<Item>, orders: seq<Order>, now: int) {
    exists here :: FiledUnder(here, items, front.id) && LaneIs(lane, Some(front.id), front.name, here, orders, now)
  }

  /** The map as drawn: one lane for each active front, in the order of the fronts, and one more for what is filed under
      none of them, if anything is.  Each holds exactly the items on the map that are filed there. */
  lemma MapIsDrawn(fronts: seq<Front>, items: seq<Item>, orders: seq<Order>, now: int)
    requires DistinctItems(items) && Once(fronts)
    ensures var lanes, active := Laid(fronts, items, orders, now), ActiveFronts(fronts);
            && InOrderOf(active, fronts) && (forall f :: f in active <==> f in fronts && f.status == FrontActive)
            && |active| <= |lanes| <= |active| + 1
            && (forall j :: 0 <= j < |active| ==> LaneDrawn(lanes[j], active[j], items, orders, now))
            && exists here :: FiledNowhere(here, items, fronts)
                              && (|lanes| == |active| <==> here == [])
                              && (here != [] ==> LaneIs(lanes[|active|], None, "No front", here, orders, now))
  {
    hide InOrderOf, Once, DistinctItems, LaneOf, LanesOf, WithKey, Outside, Placed, TargetsOf, LaneIs, ActiveFronts, Keys, FrontIds;
    var lanes, active := Laid(fronts, items, orders, now), ActiveFronts(fronts);
    var byTarget := TargetsOf(orders);
    ActiveAre(fronts);
    LanesAt(active, Placed(items), byTarget, now);
    forall j | 0 <= j < |active|
      ensures LaneDrawn(lanes[j], active[j], items, orders, now)
    {
      var here := WithKey(Placed(items), FrontOf, active[j].id);
      LaneHolds(items, active[j].id);
      LaneIsIt(Some(active[j].id), active[j].name, here, items, orders, now);
    }
    var rest := Unassigned(active, Placed(items));
    UnassignedHolds(items, fronts);
    LaneIsIt(None, "No front", rest, items, orders, now);
  }
}
