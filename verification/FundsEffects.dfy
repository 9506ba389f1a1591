/** What each item and each stay adds to the costs of a front, and what the purse read from them says. */
module FundsEffects {
  import opened Common
  import opened Supply
  import opened Funds
  import T = Theatre

  lemma {:induction false} CostAppend(a: seq<Charge>, b: seq<Charge>, currency: nat)
    ensures Cost(a + b, currency) == Cost(a, currency) + Cost(b, currency)
    ensures Estimated(a + b, currency) == Estimated(a, currency) + Estimated(b, currency)
  {
    if b == [] {
      assert a + b == a;
    } else {
      var n := |b| - 1;
      CostAppend(a, b[..n], currency);
      assert (a + b)[..|a| + n] == a + b[..n] && (a + b)[|a| + n] == b[n];
    }
  }

  lemma CostOne(c: Charge, currency: nat)
    ensures Cost([c], currency) == if c.currency == currency then c.amount else 0.0
    ensures Estimated([c], currency) == if c.currency == currency then c.estimated else 0.0
    ensures Cost([], currency) == 0.0 == Estimated([], currency)
  {
    assert [c][..0] == [];
  }

  /** A live objective with a cost in a named currency adds it to the costs of its own front, all of it confirmed; any other
      item adds nothing. */
  lemma OneItemMore(items: seq<Item>, it: Item, deployments: seq<Deployment>, front: Id, today: int, currency: nat)
    ensures var a, b := Charges(items, deployments, front, today), Charges(items + [it], deployments, front, today);
            var here := it.objective && it.status == T.Active && it.frontId == Some(front)
                        && it.cost.Some? && it.currency == currency != 0;
            && Cost(b, currency) == Cost(a, currency) + (if here then it.cost.value else 0.0)
            && Estimated(b, currency) == Estimated(a, currency)
  {
    hide StayCharges, Cost, Estimated;
    assert (items + [it])[..|items|] == items;
    var before, stays := ItemCharges(items, front), StayCharges(deployments, front, today);
    CostAppend(before, stays, currency);
    if Priced(it, front) {
      var charge := Charge(it.currency, it.cost.value, 0.0);
      CostAppend(before + [charge], stays, currency);
      CostAppend(before, [charge], currency);
      CostOne(charge, currency);
    }
  }

  /** A stay on the front that is not over adds its cost, where it has one in a named currency, and of it the share nobody
      confirmed; it is listed in either case, with the days until it lands where it says when it does. */
  lemma OneStayMore(items: seq<Item>, deployments: seq<Deployment>, d: Deployment, front: Id, today: int, currency: nat)
    ensures var a, b := Charges(items, deployments, front, today), Charges(items, deployments + [d], front, today);
            var here := d.frontId == front && (d.depart.None? || today <= d.depart.value);
            var paid := here && d.cost > 0.0 && d.currency == currency != 0;
            && Cost(b, currency) == Cost(a, currency) + (if paid then d.cost else 0.0)
            && Estimated(b, currency) == Estimated(a, currency) + (if paid then d.cost * d.estimatedShare else 0.0)
            && Stays(deployments + [d], front, today)
               == Stays(deployments, front, today)
                  + (if here then [Stay(d, if d.arrive.Some? then Some(d.arrive.value - today) else None)] else [])
            && Stays([], front, today) == []
  {
    hide ItemCharges, Cost, Estimated;
    assert (deployments + [d])[..|deployments|] == deployments;
    var drawn, before := ItemCharges(items, front), StayCharges(deployments, front, today);
    if Standing(d, front, today) && d.cost > 0.0 && d.currency != 0 {
      var charge := Charge(d.currency, d.cost, Unconfirmed(d));
      assert drawn + (before + [charge]) == drawn + before + [charge];
      CostAppend(drawn + before, [charge], currency);
      CostOne(charge, currency);
    }
  }

  lemma NothingCharged(front: Id, today: int)
    ensures Charges([], [], front, today) == []
  {
  }

  /** Something is drawn in the currency. */
  predicate Carries(charges: seq<Charge>, currency: nat) {
    exists c :: c in charges && c.currency == currency
  }

  /** The purse is in the currency of the funds where they have one; else in the one that carries most, the smaller name of
      two that carry as much; else in none.  It says what is drawn in that currency and how much of it nobody confirmed, and
      that the front is overdrawn exactly when it has funds and more is drawn.  Beside it stands, in order of name, each
      other currency in which anything is drawn with what is drawn in it. */
  lemma PurseIs(front: Front, charges: seq<Charge>, p: Purse)
    requires PurseOf(front, charges, p)
    ensures front.funds.Some? && front.fundsCurrency != 0 ==> p.currency == front.fundsCurrency
    ensures front.funds.None? || front.fundsCurrency == 0 ==>
              if charges == [] then p.currency == 0
              else
                && Carries(charges, p.currency)
                && forall other :: Carries(charges, other) ==>
                     Cost(charges, other) <= Cost(charges, p.currency)
                     && (Cost(charges, other) == Cost(charges, p.currency) ==> p.currency <= other)
    ensures p.costs == Cost(charges, p.currency) && p.estimated == Estimated(charges, p.currency)
    ensures p.overdrawn <==> front.funds.Some? && Cost(charges, p.currency) > front.funds.value
    ensures forall i, j :: 0 <= i < j < |p.unconverted| ==> p.unconverted[i].currency < p.unconverted[j].currency
    ensures forall m :: m in p.unconverted <==>
              && Carries(charges, m.currency) && m.currency != p.currency
              && m.amount == Cost(charges, m.currency) && m.amount > 0.0
  {
    hide Cost, Estimated;
    forall c ensures Carries(charges, c) <==> c in Currencies(charges) {
    }
  }
}
