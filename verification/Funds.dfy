/** What a front will cost: its live objectives and deployments, currency by currency, never converted.  Amounts are exact;
    the two decimals they are shown with are not part of this model. */
module Funds {
  import opened Common
  import opened Sequences
  import opened Supply
  import R = Ranking
  import T = Theatre

  /** A stay; the days are missing where the plan has none. */
  datatype Deployment = Deployment(
    frontId: Id, arrive: Option<int>, depart: Option<int>, cost: real, currency: nat, estimatedShare: real)

  datatype Stay = Stay(deployment: Deployment, landsIn: Option<int>)

  /** One cost drawn on the front, and the part of it nobody confirmed. */
  datatype Charge = Charge(currency: nat, amount: real, estimated: real)

  datatype Money = Money(amount: real, currency: nat)

  datatype Purse = Purse(currency: nat, costs: real, estimated: real, unconverted: seq<Money>, overdrawn: bool)

  const NO_CURRENCY := 0

  // ---------- What is drawn on a front ----------

  predicate Priced(item: Item, front: Id) {
    && item.objective && item.status == T.Active && item.cost.Some? && item.frontId == Some(front)
    && item.currency != NO_CURRENCY
  }

  function ItemCharges(items: seq<Item>, front: Id): seq<Charge> {
    if items == [] then []
    else
      var it := items[|items| - 1];
      var before := ItemCharges(items[..|items| - 1], front);
      if Priced(it, front) then before + [Charge(it.currency, it.cost.value, 0.0)] else before
  }

  predicate Standing(d: Deployment, front: Id, today: int) {
    d.frontId == front && !(d.depart.Some? && d.depart.value < today)
  }

  function StayOf(d: Deployment, today: int): Stay {
    Stay(d, if d.arrive.Some? then Some(d.arrive.value - today) else None)
  }

  function Stays(deployments: seq<Deployment>, front: Id, today: int): seq<Stay> {
    if deployments == [] then []
    else
      var d := deployments[|deployments| - 1];
      var before := Stays(deployments[..|deployments| - 1], front, today);
      if Standing(d, front, today) then before + [StayOf(d, today)] else before
  }

  function Unconfirmed(d: Deployment): real {
    d.cost * d.estimatedShare
  }

  function StayCharges(deployments: seq<Deployment>, front: Id, today: int): seq<Charge> {
    if deployments == [] then []
    else
      var d := deployments[|deployments| - 1];
      var before := StayCharges(deployments[..|deployments| - 1], front, today);
      if Standing(d, front, today) && d.cost > 0.0 && d.currency != NO_CURRENCY
      then before + [Charge(d.currency, d.cost, Unconfirmed(d))]
      else before
  }

  function Charges(items: seq<Item>, deployments: seq<Deployment>, front: Id, today: int): seq<Charge> {
    ItemCharges(items, front) + StayCharges(deployments, front, today)
  }

  // ---------- Currency by currency ----------

  function Cost(charges: seq<Charge>, currency: nat): real {
    if charges == [] then 0.0
    else
      var c := charges[|charges| - 1];
      Cost(charges[..|charges| - 1], currency) + (if c.currency == currency then c.amount else 0.0)
  }

  function Estimated(charges: seq<Charge>, currency: nat): real {
    if charges == [] then 0.0
    else
      var c := charges[|charges| - 1];
      Estimated(charges[..|charges| - 1], currency) + (if c.currency == currency then c.estimated else 0.0)
  }

  function Currencies(charges: seq<Charge>): (s: set<nat>)
  {
    set c | c in charges :: c.currency
  }

  /** No other currency of the charges carries more, and none as much with a smaller name. */
  predicate Heaviest(charges: seq<Charge>, currency: nat) {
    && currency in Currencies(charges)
    && forall other :: other in Currencies(charges) ==>
         Cost(charges, other) < Cost(charges, currency)
         || (Cost(charges, other) == Cost(charges, currency) && currency <= other)
  }

  /** The funds decide the currency; without funds the heaviest of the costs does, and nothing does where nothing costs. */
  ghost predicate Main(front: Front, charges: seq<Charge>, currency: nat) {
    if front.funds.Some? && front.fundsCurrency != NO_CURRENCY then currency == front.fundsCurrency
    else if charges == [] then currency == NO_CURRENCY
    else Heaviest(charges, currency)
  }

  predicate Rising(list: seq<Money>) {
    forall j, k :: 0 <= j < k < |list| ==> list[j].currency < list[k].currency
  }

  /** The other currencies with anything in them, in order, each with what it carries. */
  ghost predicate Others(charges: seq<Charge>, main: nat, list: seq<Money>) {
    && Rising(list)
    && forall m :: m in list <==>
         m.currency in Currencies(charges) && m.currency != main && m.amount == Cost(charges, m.currency) > 0.0
  }

  ghost predicate PurseOf(front: Front, charges: seq<Charge>, p: Purse) {
    && Main(front, charges, p.currency)
    && p.costs == Cost(charges, p.currency) && p.estimated == Estimated(charges, p.currency)
    && Others(charges, p.currency, p.unconverted)
    && (p.overdrawn <==> front.funds.Some? && p.costs > front.funds.value)
  }

  // ---------- The procedure ----------

  function At(sums: map<nat, real>, currency: nat): real {
    if currency in sums then sums[currency] else 0.0
  }

  ghost predicate Sums(costs: map<nat, real>, estimated: map<nat, real>, charges: seq<Charge>) {
    && costs.Keys == Currencies(charges)
    && (forall c: nat :: At(costs, c) == Cost(charges, c))
    && (forall c: nat :: At(estimated, c) == Estimated(charges, c))
  }

  lemma SumsOneMore(costs: map<nat, real>, estimated: map<nat, real>, charges: seq<Charge>, c: Charge)
    requires Sums(costs, estimated, charges)
    ensures var next := costs[c.currency := At(costs, c.currency) + c.amount];
            && Sums(next, estimated[c.currency := At(estimated, c.currency) + c.estimated], charges + [c])
            && (c.estimated == 0.0 ==> Sums(next, estimated, charges + [c]))
  {
    var all := charges + [c];
    assert all[..|charges|] == charges;
    assert forall d :: d in all <==> d in charges || d == c;
    assert Currencies(all) == Currencies(charges) + {c.currency};
    forall k: nat
      ensures Cost(all, k) == Cost(charges, k) + (if k == c.currency then c.amount else 0.0)
      ensures Estimated(all, k) == Estimated(charges, k) + (if k == c.currency then c.estimated else 0.0)
    {
    }
  }

  method SumItems(items: seq<Item>, front: Id) returns (costs: map<nat, real>)
    ensures Sums(costs, map[], ItemCharges(items, front))
  {
    costs := map[];
    for i := 0 to |items|
      invariant Sums(costs, map[], ItemCharges(items[..i], front))
    {
      hide Sums;
      assert items[..i + 1][..i] == items[..i];
      var it := items[i];
      if !it.objective || it.status != T.Active || it.cost.None? || it.frontId.None? || it.frontId.value != front
         || it.currency == NO_CURRENCY {
        continue;
      }
      SumsOneMore(costs, map[], ItemCharges(items[..i], front), Charge(it.currency, it.cost.value, 0.0));
      costs := costs[it.currency := At(costs, it.currency) + it.cost.value];
    }
    assert items[..|items|] == items;
  }

  method SumStays(start: map<nat, real>, ghost drawn: seq<Charge>, deployments: seq<Deployment>, front: Id, today: int)
    returns (costs: map<nat, real>, estimated: map<nat, real>, stays: seq<Stay>)
    requires Sums(start, map[], drawn)
    ensures Sums(costs, estimated, drawn + StayCharges(deployments, front, today))
    ensures stays == Stays(deployments, front, today)
  {
    hide Sums, Unconfirmed;
    costs, estimated, stays := start, map[], [];
    assert drawn + [] == drawn;
    for i := 0 to |deployments|
      invariant Sums(costs, estimated, drawn + StayCharges(deployments[..i], front, today))
      invariant stays == Stays(deployments[..i], front, today)
    {
      assert deployments[..i + 1][..i] == deployments[..i];
      var d := deployments[i];
      if d.frontId != front {
        continue;
      }
      if d.depart.Some? && d.depart.value < today {
        continue;
      }
      stays := stays + [StayOf(d, today)];
      if d.cost > 0.0 && d.currency != NO_CURRENCY {
        ghost var before := StayCharges(deployments[..i], front, today);
        ghost var charge := Charge(d.currency, d.cost, Unconfirmed(d));
        SumsOneMore(costs, estimated, drawn + before, charge);
        assert StayCharges(deployments[..i + 1], front, today) == before + [charge];
        assert drawn + (before + [charge]) == drawn + before + [charge];
        costs := costs[d.currency := At(costs, d.currency) + d.cost];
        estimated := estimated[d.currency := At(estimated, d.currency) + Unconfirmed(d)];
      }
    }
    assert deployments[..|deployments|] == deployments;
  }

  /** The currency carrying most, whatever order the currencies are met in; none where there are none. */
  method PickCurrency(costs: map<nat, real>) returns (currency: nat)
    requires NO_CURRENCY !in costs
    ensures if costs == map[] then currency == NO_CURRENCY
            else
              && currency in costs
              && forall other :: other in costs ==>
                   costs[other] < costs[currency] || (costs[other] == costs[currency] && currency <= other)
  {
    currency := NO_CURRENCY;
    var left := costs.Keys;
    while left != {}
      invariant left <= costs.Keys
      invariant if left == costs.Keys then currency == NO_CURRENCY
                else
                  && currency in costs
                  && forall other :: other in costs.Keys - left ==>
                       costs[other] < costs[currency] || (costs[other] == costs[currency] && currency <= other)
    {
      var cur :| cur in left;
      left := left - {cur};
      if currency == NO_CURRENCY || costs[cur] > costs[currency] || (costs[cur] == costs[currency] && cur < currency) {
        currency := cur;
      }
    }
  }

  /** The other currencies, met in any order. */
  method GatherOthers(costs: map<nat, real>, main: nat) returns (found: seq<R.Ranked<Money>>)
    ensures Found(found, costs, main, costs.Keys)
  {
    found := [];
    var left := costs.Keys;
    while left != {}
      invariant left <= costs.Keys && Found(found, costs, main, costs.Keys - left)
    {
      hide Found;
      var cur :| cur in left;
      FoundOneMore(found, costs, main, costs.Keys - left, cur);
      assert costs.Keys - (left - {cur}) == (costs.Keys - left) + {cur};
      left := left - {cur};
      if cur != main && costs[cur] > 0.0 {
        found := found + [R.Ranked(Money(costs[cur], cur), 0.0, cur)];
      }
    }
    assert costs.Keys - left == costs.Keys;
  }

  /** The other currencies, sorted by name. */
  method CollectOthers(costs: map<nat, real>, main: nat) returns (list: seq<Money>)
    ensures Rising(list)
    ensures forall m :: m in list <==> m.currency in costs && m.currency != main && m.amount == costs[m.currency] > 0.0
  {
    hide R.Sort;
    var found := GatherOthers(costs, main);
    var sorted := R.Sort(found);
    R.DistinctIdsPermute(found, sorted);
    R.SortedDistinctIsStrict(sorted);
    R.SameElements(found, sorted);
    list := seq(|sorted|, i requires 0 <= i < |sorted| => sorted[i].item);
    ListOfSorted(costs, main, found, sorted, list);
  }

  /** What was found among the currencies met so far. */
  ghost predicate Found(found: seq<R.Ranked<Money>>, costs: map<nat, real>, main: nat, met: set<nat>)
    requires met <= costs.Keys
  {
    && R.DistinctIds(found)
    && (forall x :: x in found ==>
          && x.score == 0.0 && x.id == x.item.currency && x.item.currency in met && x.item.currency != main
          && x.item.amount == costs[x.item.currency] > 0.0)
    && (forall c :: c in met && c != main && costs[c] > 0.0 ==> R.Ranked(Money(costs[c], c), 0.0, c) in found)
  }

  lemma FoundOneMore(found: seq<R.Ranked<Money>>, costs: map<nat, real>, main: nat, met: set<nat>, c: nat)
    requires met <= costs.Keys && c in costs && c !in met && Found(found, costs, main, met)
    ensures Found(if c != main && costs[c] > 0.0 then found + [R.Ranked(Money(costs[c], c), 0.0, c)] else found,
                  costs, main, met + {c})
  {
    forall i | 0 <= i < |found|
      ensures found[i].id != c
    {
      assert found[i] in found;
    }
  }

  lemma ListOfSorted(
    costs: map<nat, real>, main: nat, found: seq<R.Ranked<Money>>, sorted: seq<R.Ranked<Money>>, list: seq<Money>)
    requires R.StrictlySorted(sorted) && forall x :: x in found <==> x in sorted
    requires Found(found, costs, main, costs.Keys)
    requires |list| == |sorted| && forall i :: 0 <= i < |list| ==> list[i] == sorted[i].item
    ensures Rising(list)
    ensures forall m :: m in list <==> m.currency in costs && m.currency != main && m.amount == costs[m.currency] > 0.0
  {
    forall j, k | 0 <= j < k < |list|
      ensures list[j].currency < list[k].currency
    {
      assert sorted[j] in found && sorted[k] in found && R.Before(sorted[j], sorted[k]);
    }
    forall m
      ensures m in list <==> m.currency in costs && m.currency != main && m.amount == costs[m.currency] > 0.0
    {
      if m in list {
        var i :| 0 <= i < |list| && list[i] == m;
        assert sorted[i] in found;
      }
      if m.currency in costs && m.currency != main && m.amount == costs[m.currency] > 0.0 {
        var x := R.Ranked(m, 0.0, m.currency);
        assert x in found;
        var i :| 0 <= i < |sorted| && sorted[i] == x;
        assert list[i] == m;
      }
    }
  }

  method FrontMoney(front: Front, items: seq<Item>, deployments: seq<Deployment>, today: int)
    returns (purse: Purse, stays: seq<Stay>)
    ensures PurseOf(front, Charges(items, deployments, front.id, today), purse)
    ensures stays == Stays(deployments, front.id, today)
  {
    ghost var charges := Charges(items, deployments, front.id, today);
    var costs := SumItems(items, front.id);
    var estimated: map<nat, real>;
    costs, estimated, stays := SumStays(costs, ItemCharges(items, front.id), deployments, front.id, today);
    ChargesNamed(items, deployments, front.id, today);
    var currency := NO_CURRENCY;
    if front.funds.Some? {
      currency := front.fundsCurrency;
    }
    if currency == NO_CURRENCY {
      currency := PickCurrency(costs);
      PickedIsHeaviest(costs, estimated, charges, currency);
    }
    var unconverted := CollectOthers(costs, currency);
    OthersAre(costs, estimated, charges, currency, unconverted);
    purse := Purse(currency, At(costs, currency), At(estimated, currency), unconverted,
                   front.funds.Some? && At(costs, currency) > front.funds.value);
  }

  lemma PickedIsHeaviest(costs: map<nat, real>, estimated: map<nat, real>, charges: seq<Charge>, currency: nat)
    requires Sums(costs, estimated, charges)
    requires if costs == map[] then currency == NO_CURRENCY
             else
               && currency in costs
               && forall other :: other in costs ==>
                    costs[other] < costs[currency] || (costs[other] == costs[currency] && currency <= other)
    ensures if charges == [] then currency == NO_CURRENCY else Heaviest(charges, currency)
  {
    if charges != [] {
      assert charges[0].currency in Currencies(charges);
      forall other | other in Currencies(charges)
        ensures Cost(charges, other) == costs[other]
      {
        assert At(costs, other) == Cost(charges, other);
      }
      assert currency in Currencies(charges);
    }
  }

  lemma OthersAre(costs: map<nat, real>, estimated: map<nat, real>, charges: seq<Charge>, main: nat, list: seq<Money>)
    requires Sums(costs, estimated, charges) && Rising(list)
    requires forall m :: m in list <==> m.currency in costs && m.currency != main && m.amount == costs[m.currency] > 0.0
    ensures Others(charges, main, list)
  {
    forall c: nat | c in costs
      ensures costs[c] == Cost(charges, c)
    {
      assert At(costs, c) == Cost(charges, c);
    }
  }

  lemma {:induction false} ItemsNamed(items: seq<Item>, front: Id)
    ensures forall c :: c in ItemCharges(items, front) ==> c.currency != NO_CURRENCY
  {
    if items != [] {
      ItemsNamed(items[..|items| - 1], front);
    }
  }

  lemma {:induction false} StaysNamed(deployments: seq<Deployment>, front: Id, today: int)
    ensures forall c :: c in StayCharges(deployments, front, today) ==> c.currency != NO_CURRENCY && c.amount > 0.0
  {
    if deployments != [] {
      StaysNamed(deployments[..|deployments| - 1], front, today);
    }
  }

  lemma ChargesNamed(items: seq<Item>, deployments: seq<Deployment>, front: Id, today: int)
    ensures NO_CURRENCY !in Currencies(Charges(items, deployments, front, today))
  {
    ItemsNamed(items, front);
    StaysNamed(deployments, front, today);
  }

  // ---------- Nothing is lost, and the order does not show ----------

  /** All that is drawn on the front, whatever the currency. */
  function Drawn(charges: seq<Charge>): real {
    if charges == [] then 0.0 else Drawn(charges[..|charges| - 1]) + charges[|charges| - 1].amount
  }

  function SumOf(list: seq<Money>): real {
    if list == [] then 0.0 else SumOf(list[..|list| - 1]) + list[|list| - 1].amount
  }

  /** What a list of currencies carries. */
  function Carried(charges: seq<Charge>, currencies: seq<nat>): real {
    if currencies == [] then 0.0
    else Carried(charges, currencies[..|currencies| - 1]) + Cost(charges, currencies[|currencies| - 1])
  }

  lemma {:induction false} CarriedOneMore(charges: seq<Charge>, c: Charge, currencies: seq<nat>)
    requires Distinct(currencies)
    ensures Carried(charges + [c], currencies)
            == Carried(charges, currencies) + if c.currency in currencies then c.amount else 0.0
    decreases |currencies|
  {
    if currencies != [] {
      var n := |currencies| - 1;
      assert currencies == currencies[..n] + [currencies[n]];
      CarriedOneMore(charges, c, currencies[..n]);
      assert (charges + [c])[..|charges|] == charges;
    }
  }

  /** Counted once each, the currencies of the charges carry all of them. */
  lemma {:induction false} CarriedIsDrawn(charges: seq<Charge>, currencies: seq<nat>)
    requires Distinct(currencies) && forall c :: c in charges && c.amount != 0.0 ==> c.currency in currencies
    ensures Carried(charges, currencies) == Drawn(charges)
    decreases |charges|
  {
    if charges == [] {
      NothingCarried(currencies);
    } else {
      var n := |charges| - 1;
      assert charges == charges[..n] + [charges[n]];
      CarriedIsDrawn(charges[..n], currencies);
      CarriedOneMore(charges[..n], charges[n], currencies);
    }
  }

  lemma {:induction false} NothingCarried(currencies: seq<nat>)
    ensures Carried([], currencies) == 0.0
  {
    if currencies != [] {
      NothingCarried(currencies[..|currencies| - 1]);
    }
  }

  function NamesOf(list: seq<Money>): (r: seq<nat>)
    ensures |r| == |list| && forall i :: 0 <= i < |r| ==> r[i] == list[i].currency
  {
    seq(|list|, i requires 0 <= i < |list| => list[i].currency)
  }

  lemma {:induction false} SumIsCarried(charges: seq<Charge>, list: seq<Money>)
    requires forall m :: m in list ==> m.amount == Cost(charges, m.currency)
    ensures SumOf(list) == Carried(charges, NamesOf(list))
  {
    if list != [] {
      var n := |list| - 1;
      SumIsCarried(charges, list[..n]);
      assert NamesOf(list)[..n] == NamesOf(list[..n]);
      assert list[n] in list;
    }
  }

  lemma {:induction false} CostIsPositive(charges: seq<Charge>, currency: nat)
    requires forall c :: c in charges ==> c.amount >= 0.0
    ensures Cost(charges, currency) >= 0.0
    ensures forall c :: c in charges && c.currency == currency ==> c.amount <= Cost(charges, currency)
  {
    if charges != [] {
      var n := |charges| - 1;
      assert charges == charges[..n] + [charges[n]];
      CostIsPositive(charges[..n], currency);
    }
  }

  /** Every currency that costs anything is the main one or is listed beside it. */
  lemma EveryCostIsShown(front: Front, charges: seq<Charge>, p: Purse, c: Charge)
    requires PurseOf(front, charges, p) && forall d :: d in charges ==> d.amount >= 0.0
    requires c in charges && c.amount != 0.0
    ensures c.currency in NamesOf(p.unconverted) + [p.currency]
  {
    var names := NamesOf(p.unconverted);
    CostIsPositive(charges, c.currency);
    if c.currency != p.currency {
      var m := Money(Cost(charges, c.currency), c.currency);
      assert c.currency in Currencies(charges) && m in p.unconverted;
      var i :| 0 <= i < |p.unconverted| && p.unconverted[i] == m;
      assert names[i] == c.currency;
    }
  }

  /** Money is conserved: what is shown in the main currency and what is listed beside it add up to everything drawn on
      the front, where no cost is negative; none ever is, since every amount taken in is checked. */
  lemma CostsAddUp(front: Front, charges: seq<Charge>, p: Purse)
    requires PurseOf(front, charges, p) && forall c :: c in charges ==> c.amount >= 0.0
    ensures p.costs + SumOf(p.unconverted) == Drawn(charges)
  {
    var names := NamesOf(p.unconverted);
    var all := names + [p.currency];
    forall i | 0 <= i < |names|
      ensures names[i] != p.currency
    {
      assert p.unconverted[i] in p.unconverted;
    }
    SumIsCarried(charges, p.unconverted);
    forall c | c in charges && c.amount != 0.0
      ensures c.currency in all
    {
      EveryCostIsShown(front, charges, p, c);
    }
    assert Distinct(all);
    CarriedIsDrawn(charges, all);
    assert all[..|names|] == names;
  }

  /** Two purses read from the same costs are the same, so the order the currencies were met in does not show. */
  lemma OrderDoesNotShow(front: Front, charges: seq<Charge>, p: Purse, q: Purse)
    requires PurseOf(front, charges, p) && PurseOf(front, charges, q)
    ensures p == q
  {
    assert p.currency == q.currency;
    RisingUnique(p.unconverted, q.unconverted);
  }

  function ByName(list: seq<Money>): (r: seq<R.Ranked<Money>>)
    ensures |r| == |list| && forall i :: 0 <= i < |r| ==> r[i] == R.Ranked(list[i], 0.0, list[i].currency)
  {
    seq(|list|, i requires 0 <= i < |list| => R.Ranked(list[i], 0.0, list[i].currency))
  }

  lemma NamedAlike(a: seq<Money>, b: seq<Money>, r: R.Ranked<Money>)
    requires forall m :: m in a ==> m in b
    ensures r in ByName(a) ==> r in ByName(b)
  {
    if r in ByName(a) {
      var i :| 0 <= i < |a| && ByName(a)[i] == r;
      assert a[i] in b;
      var j :| 0 <= j < |b| && b[j] == a[i];
      assert ByName(b)[j] == r;
    }
  }

  lemma {:induction false} RisingUnique(a: seq<Money>, b: seq<Money>)
    requires Rising(a) && Rising(b) && forall m :: m in a <==> m in b
    requires forall m, n :: m in a && n in a && m.currency == n.currency ==> m == n
    ensures a == b
  {
    var x, y := ByName(a), ByName(b);
    forall r
      ensures r in x <==> r in y
    {
      NamedAlike(a, b, r);
      NamedAlike(b, a, r);
    }
    R.StrictlySortedUnique(x, y);
    assert |a| == |x| == |y| == |b|;
    forall i | 0 <= i < |a|
      ensures a[i] == b[i]
    {
      assert x[i] == y[i];
    }
  }

  /** The unconfirmed part of the costs is never more than the costs. */
  lemma {:induction false} EstimatedIsPart(charges: seq<Charge>, currency: nat)
    requires forall c :: c in charges ==> 0.0 <= c.estimated <= c.amount
    ensures 0.0 <= Estimated(charges, currency) <= Cost(charges, currency)
  {
    if charges != [] {
      EstimatedIsPart(charges[..|charges| - 1], currency);
    }
  }
}
