/** What the reranker guarantees about its selection. */
module RerankLaws {
  import opened Common
  import opened Ranking
  import opened Rerank
  import opened Sequences

  lemma {:induction false} RestIs(n: nat, chosen: seq<nat>)
    ensures forall i :: i in Rest(n, chosen) <==> 0 <= i < n && i !in chosen
    ensures forall j, k :: 0 <= j < k < |Rest(n, chosen)| ==> Rest(n, chosen)[j] < Rest(n, chosen)[k]
  {
    if n > 0 {
      RestIs(n - 1, chosen);
    }
  }

  lemma {:induction false} FirstBestIs(remaining: seq<Scored>, picked: seq<Scored>, alike: Similarity)
    requires remaining != []
    ensures var b := FirstBest(remaining, picked, alike);
            forall i :: 0 <= i < |remaining| ==>
              && Margin(remaining[i], picked, alike) <= Margin(remaining[b], picked, alike)
              && (i < b ==> Margin(remaining[i], picked, alike) < Margin(remaining[b], picked, alike))
  {
    hide Margin;
    if |remaining| > 1 {
      FirstBestIs(remaining[..|remaining| - 1], picked, alike);
    }
  }

  /** No place left scores more, counted against those picked before, and none before it as much. */
  predicate BestLeft(scored: seq<Scored>, alike: Similarity, before: seq<nat>, p: nat)
    requires p < |scored| && forall k :: 0 <= k < |before| ==> before[k] < |scored|
  {
    var picked := Taken(scored, before);
    forall i :: 0 <= i < |scored| && i !in before ==>
      && Margin(scored[i], picked, alike) <= Margin(scored[p], picked, alike)
      && (i < p ==> Margin(scored[i], picked, alike) < Margin(scored[p], picked, alike))
  }

  lemma NextIsBestLeft(scored: seq<Scored>, alike: Similarity, before: seq<nat>)
    requires Rest(|scored|, before) != [] && forall k :: 0 <= k < |before| ==> before[k] < |scored|
    ensures var p := NextPlace(scored, alike, before); p !in before && BestLeft(scored, alike, before, p)
  {
    hide Rest, Margin, FirstBest;
    var rest := Rest(|scored|, before);
    var picked := Taken(scored, before);
    var left := Taken(scored, rest);
    RestIs(|scored|, before);
    FirstBestIs(left, picked, alike);
    var b := FirstBest(left, picked, alike);
    assert rest[b] in rest;
    forall i | 0 <= i < |scored| && i !in before
      ensures Margin(scored[i], picked, alike) <= Margin(scored[rest[b]], picked, alike)
      ensures i < rest[b] ==> Margin(scored[i], picked, alike) < Margin(scored[rest[b]], picked, alike)
    {
      assert i in rest;
      var k :| 0 <= k < |rest| && rest[k] == i;
      assert left[k] == scored[i];
    }
  }

  /** Places picked one by one, each the best of those left. */
  predicate Stepwise(scored: seq<Scored>, alike: Similarity, places: seq<nat>)
    requires forall k :: 0 <= k < |places| ==> places[k] < |scored|
  {
    forall j :: 0 <= j < |places| ==> BestLeft(scored, alike, places[..j], places[j])
  }

  lemma OnePick(scored: seq<Scored>, alike: Similarity, before: seq<nat>)
    requires Rest(|scored|, before) != [] && forall k :: 0 <= k < |before| ==> before[k] < |scored|
    requires Distinct(before) && Stepwise(scored, alike, before)
    ensures var places := before + [NextPlace(scored, alike, before)];
            && Distinct(places) && Stepwise(scored, alike, places)
            && |Rest(|scored|, places)| == |Rest(|scored|, before)| - 1
  {
    hide Rest, BestLeft;
    NextIsBestLeft(scored, alike, before);
    var rest := Rest(|scored|, before);
    RestWithout(|scored|, before, FirstBest(Taken(scored, rest), Taken(scored, before), alike));
    hide NextPlace;
    var places := before + [NextPlace(scored, alike, before)];
    forall j | 0 <= j < |places|
      ensures BestLeft(scored, alike, places[..j], places[j])
    {
      if j < |before| {
        assert BestLeft(scored, alike, before[..j], before[j]);
        assert places[..j] == before[..j];
      } else {
        assert places[..j] == before;
      }
    }
  }

  lemma {:induction false} PicksAre(scored: seq<Scored>, alike: Similarity, k: nat)
    requires k <= |scored|
    ensures var places := Picks(scored, alike, k);
            && |places| == k && Distinct(places) && Stepwise(scored, alike, places)
            && |Rest(|scored|, places)| == |scored| - k
  {
    hide Picks, Rest, BestLeft, NextPlace;
    if k == 0 {
      NothingPicked(scored, alike);
      RestOfNone(|scored|);
    } else {
      hide *;
      PicksAre(scored, alike, k - 1);
      PickOneMore(scored, alike, k);
      OnePick(scored, alike, Picks(scored, alike, k - 1));
    }
  }

  lemma StillSorted(scored: seq<Scored>, i: nat)
    requires Sorted(scored) && i < |scored|
    ensures scored[i].score <= scored[0].score
  {
    if i > 0 {
      assert !Before(scored[i], scored[0]);
    }
  }

  /** The first of those with the highest score. */
  predicate FirstOfTop(scored: seq<Scored>, p: nat)
    requires p < |scored|
  {
    forall i :: 0 <= i < |scored| ==> scored[i].score <= scored[p].score && (i < p ==> scored[i].score < scored[p].score)
  }

  lemma AloneByScore(scored: seq<Scored>, alike: Similarity, p: nat)
    requires p < |scored| && BestLeft(scored, alike, [], p)
    ensures FirstOfTop(scored, p)
  {
    forall i | 0 <= i < |scored|
      ensures Margin(scored[i], [], alike) == LAMBDA * scored[i].score
    {
      assert MostAlike(scored[i].item, [], alike) == 0.0;
    }
  }

  /** The selection from a list in any order: as many places as asked for or as there are, all different.  A list that all
      fits keeps its order; in a longer one each step takes the best of what is left, the first of the top-scored first. */
  lemma SelectionIs(scored: seq<Scored>, alike: Similarity, topK: nat)
    requires topK > 0
    ensures var places := Selected(scored, alike, topK);
            && |places| == (if topK < |scored| then topK else |scored|)
            && Distinct(places)
            && (|scored| <= topK ==> forall k :: 0 <= k < |places| ==> places[k] == k)
            && (|scored| > topK ==> Stepwise(scored, alike, places) && FirstOfTop(scored, places[0]))
  {
    hide Picks, Rest, FirstOfTop;
    if |scored| <= topK {
      RestOfNone(|scored|);
    } else {
      PicksAre(scored, alike, topK);
      var places := Picks(scored, alike, topK);
      assert places[..0] == [] && BestLeft(scored, alike, places[..0], places[0]);
      AloneByScore(scored, alike, places[0]);
    }
  }

  /** In score order the first of the top-scored is the first there is. */
  lemma SortedStartsWithTheFirst(scored: seq<Scored>, alike: Similarity, topK: nat)
    requires Sorted(scored) && topK > 0 && scored != []
    ensures Selected(scored, alike, topK)[0] == 0
  {
    hide Selected, Stepwise;
    SelectionIs(scored, alike, topK);
    StillSorted(scored, Selected(scored, alike, topK)[0]);
  }

  // ---------- The order of a long list ----------

  /** At every step one candidate was strictly ahead of all others left. */
  predicate Untied(scored: seq<Scored>, alike: Similarity, places: seq<nat>)
    requires forall k :: 0 <= k < |places| ==> places[k] < |scored|
  {
    forall j, i :: 0 <= j < |places| && 0 <= i < |scored| && i !in places[..j] && i != places[j] ==>
      Margin(scored[i], Taken(scored, places[..j]), alike) < Margin(scored[places[j]], Taken(scored, places[..j]), alike)
  }

  lemma LeftAreLeft(a: seq<Scored>, before: seq<nat>, i: nat)
    requires DistinctIds(a) && i < |a| && forall k :: 0 <= k < |before| ==> before[k] < |a|
    ensures i in before <==> a[i] in Taken(a, before)
  {
    var taken := Taken(a, before);
    if i in before {
      var k :| 0 <= k < |before| && before[k] == i;
      assert taken[k] == a[i];
    }
    if a[i] in taken {
      var k :| 0 <= k < |taken| && taken[k] == a[i];
      assert before[k] == i;
    }
  }

  /** The same candidates taken so far from the same candidates: the next is the same. */
  lemma NextIsTheSame(a: seq<Scored>, b: seq<Scored>, alike: Similarity, x: seq<nat>, y: seq<nat>, p: nat, q: nat)
    requires DistinctIds(a) && DistinctIds(b) && forall c :: c in a <==> c in b
    requires (forall k :: 0 <= k < |x| ==> x[k] < |a|) && (forall k :: 0 <= k < |y| ==> y[k] < |b|)
    requires Taken(a, x) == Taken(b, y) && p < |a| && q < |b| && p !in x && q !in y
    requires BestLeft(b, alike, y, q)
    requires forall i :: 0 <= i < |a| && i !in x && i != p ==>
               Margin(a[i], Taken(a, x), alike) < Margin(a[p], Taken(a, x), alike)
    ensures a[p] == b[q]
  {
    hide Margin, Taken;
    var picked := Taken(a, x);
    assert a[p] in b && b[q] in a;
    var i :| 0 <= i < |a| && a[i] == b[q];
    var j :| 0 <= j < |b| && b[j] == a[p];
    LeftAreLeft(b, y, q);
    LeftAreLeft(a, x, i);
    LeftAreLeft(a, x, p);
    LeftAreLeft(b, y, j);
    assert Margin(b[j], picked, alike) <= Margin(b[q], picked, alike);
  }

  lemma {:induction false} SamePicks(a: seq<Scored>, b: seq<Scored>, alike: Similarity, k: nat)
    requires DistinctIds(a) && DistinctIds(b) && (forall c :: c in a <==> c in b) && k <= |a| && k <= |b|
    requires Untied(a, alike, Picks(a, alike, k))
    ensures Taken(a, Picks(a, alike, k)) == Taken(b, Picks(b, alike, k))
  {
    hide Picks, Rest, BestLeft, NextPlace, Margin, Untied;
    if k == 0 {
      NothingPicked(a, alike);
      NothingPicked(b, alike);
    } else {
      PicksAre(a, alike, k - 1);
      PicksAre(b, alike, k - 1);
      PickOneMore(a, alike, k);
      PickOneMore(b, alike, k);
      var x, y := Picks(a, alike, k - 1), Picks(b, alike, k - 1);
      var p, q := NextPlace(a, alike, x), NextPlace(b, alike, y);
      UntiedBefore(a, alike, x, p);
      SamePicks(a, b, alike, k - 1);
      NextIsBestLeft(a, alike, x);
      NextIsBestLeft(b, alike, y);
      NextIsTheSame(a, b, alike, x, y, p, q);
      TakenOneMore(a, x, p);
      TakenOneMore(b, y, q);
    }
  }

  lemma UntiedBefore(a: seq<Scored>, alike: Similarity, x: seq<nat>, p: nat)
    requires p < |a| && (forall k :: 0 <= k < |x| ==> x[k] < |a|) && Untied(a, alike, x + [p])
    ensures Untied(a, alike, x)
    ensures forall i :: 0 <= i < |a| && i !in x && i != p ==> Margin(a[i], Taken(a, x), alike) < Margin(a[p], Taken(a, x), alike)
  {
    hide Margin, Taken;
    var all := x + [p];
    assert all[..|x|] == x && all[|x|] == p;
    forall j, i | 0 <= j < |x| && 0 <= i < |a| && i !in x[..j] && i != x[j]
      ensures Margin(a[i], Taken(a, x[..j]), alike) < Margin(a[x[j]], Taken(a, x[..j]), alike)
    {
      assert all[..j] == x[..j] && all[j] == x[j];
    }
  }

  /** In a list longer than what is asked for the order decides nothing but ties: any arrangement of the same candidates
      gives the same selection, in the same order. */
  lemma OrderOnlyBreaksTies(a: seq<Scored>, b: seq<Scored>, alike: Similarity, topK: nat)
    requires DistinctIds(a) && multiset(a) == multiset(b) && |a| > topK
    requires Untied(a, alike, Selected(a, alike, topK))
    ensures Taken(a, Selected(a, alike, topK)) == Taken(b, Selected(b, alike, topK))
  {
    hide Picks, Untied, Taken;
    DistinctIdsPermute(a, b);
    assert |multiset(a)| == |multiset(b)|;
    forall c ensures c in a <==> c in b {
      assert c in multiset(a) <==> c in multiset(b);
    }
    SamePicks(a, b, alike, topK);
  }

  // ---------- When the list is no longer than what is asked for ----------

  function Twins(n: nat): (r: seq<Scored>)
    ensures |r| == n && forall i :: 0 <= i < n ==> r[i] == Ranked(Candidate(i, 1.0, ""), 1.0, i)
  {
    seq(n, i requires 0 <= i < n => Ranked(Candidate(i, 1.0, ""), 1.0, i))
  }

  function FirstTwoAlike(a: Candidate, b: Candidate): real {
    if a.id <= 1 && b.id <= 1 then 1.0 else 0.0
  }

  /** Three equal candidates, the first two alike: score order takes the second before the third. */
  lemma TwinsAreNotStepwise(n: nat, topK: nat)
    requires 3 <= n <= topK
    ensures Sorted(Twins(n))
    ensures !Stepwise(Twins(n), FirstTwoAlike, Selected(Twins(n), FirstTwoAlike, topK))
  {
    var scored := Twins(n);
    var places := Selected(scored, FirstTwoAlike, topK);
    RestOfNone(n);
    assert places == Rest(n, []) && places[..1] == [0];
    var picked := Taken(scored, [0]);
    assert picked == [scored[0]] && picked[..0] == [];
    assert MostAlike(scored[1].item, picked, FirstTwoAlike) == 1.0;
    assert MostAlike(scored[2].item, picked, FirstTwoAlike) == 0.0;
    assert Margin(scored[2], picked, FirstTwoAlike) > Margin(scored[1], picked, FirstTwoAlike);
    assert !BestLeft(scored, FirstTwoAlike, places[..1], places[1]);
  }

  lemma ShortListsAreStepwise(scored: seq<Scored>, alike: Similarity, topK: nat)
    requires Sorted(scored) && |scored| <= 2 && |scored| <= topK
    ensures Stepwise(scored, alike, Selected(scored, alike, topK))
  {
    var places := Selected(scored, alike, topK);
    RestOfNone(|scored|);
    forall j | 0 <= j < |places|
      ensures BestLeft(scored, alike, places[..j], places[j])
    {
      if j == 0 {
        assert places[..0] == [];
        forall i | 0 <= i < |scored|
          ensures Margin(scored[i], [], alike) <= Margin(scored[0], [], alike)
        {
          StillSorted(scored, i);
          assert MostAlike(scored[i].item, [], alike) == 0.0 && MostAlike(scored[0].item, [], alike) == 0.0;
        }
      } else {
        assert places[..j] == [0];
      }
    }
  }

  /** Whether lists of this length, in score order or in any, are always picked best-left-first. */
  ghost predicate AlwaysStepwise(n: nat, topK: nat, inOrder: bool) {
    forall scored: seq<Scored>, alike: Similarity ::
      |scored| == n && (inOrder ==> Sorted(scored)) ==> Stepwise(scored, alike, Selected(scored, alike, topK))
  }

  /** Two candidates the wrong way round. */
  function Swapped(n: nat): (r: seq<Scored>)
    ensures |r| == n && forall i :: 0 <= i < n ==> r[i] == Ranked(Candidate(i, 1.0, ""), i as real, i)
  {
    seq(n, i requires 0 <= i < n => Ranked(Candidate(i, 1.0, ""), i as real, i))
  }

  lemma SwappedAreNotStepwise(n: nat, topK: nat)
    requires 2 <= n <= topK
    ensures !Stepwise(Swapped(n), FirstTwoAlike, Selected(Swapped(n), FirstTwoAlike, topK))
  {
    var scored := Swapped(n);
    var places := Selected(scored, FirstTwoAlike, topK);
    RestOfNone(n);
    assert places[..0] == [] && places[0] == 0;
    assert MostAlike(scored[0].item, [], FirstTwoAlike) == 0.0 && MostAlike(scored[1].item, [], FirstTwoAlike) == 0.0;
    assert Margin(scored[1], [], FirstTwoAlike) > Margin(scored[0], [], FirstTwoAlike);
    assert !BestLeft(scored, FirstTwoAlike, places[..0], places[0]);
  }

  /** Lists of a length are always picked best-left-first exactly when they are longer than what is asked for, or too short
      for it to matter: at most two entries in score order, at most one in an order of the model's. */
  lemma StepwiseIff(n: nat, topK: nat, inOrder: bool)
    requires topK > 0
    ensures AlwaysStepwise(n, topK, inOrder) <==> n > topK || n <= if inOrder then 2 else 1
  {
    hide Picks, Rest, Selected, Stepwise, Sorted;
    if n > topK || n <= if inOrder then 2 else 1 {
      forall scored: seq<Scored>, alike: Similarity | |scored| == n && (inOrder ==> Sorted(scored))
        ensures Stepwise(scored, alike, Selected(scored, alike, topK))
      {
        if n > topK {
          SelectionIs(scored, alike, topK);
        } else {
          OneIsSorted(scored);
          ShortListsAreStepwise(scored, alike, topK);
        }
      }
    } else if inOrder {
      TwinsAreNotStepwise(n, topK);
    } else {
      SwappedAreNotStepwise(n, topK);
    }
  }

  lemma OneIsSorted(scored: seq<Scored>)
    ensures |scored| <= 1 ==> Sorted(scored)
  {
  }

  // ---------- Scores ----------

  /** Relevance is the share of the best, so it is at most one and the best has it whole. */
  lemma RelevanceIsShare(candidates: seq<Candidate>, c: Candidate)
    requires c in candidates && forall d :: d in candidates ==> d.rrf >= 0.0
    ensures var best := BestRrf(candidates);
            && 0.0 <= Normalised(c.rrf, best) <= 1.0
            && (c.rrf == best > 0.0 ==> Normalised(c.rrf, best) == 1.0)
            && Normalised(c.rrf, best) * best == c.rrf
  {
    hide Normalised, BestRrf;
    NormalisedWithin(c.rrf, BestRrf(candidates));
  }

  lemma NormalisedWithin(value: real, best: real)
    requires 0.0 <= value <= best
    ensures 0.0 <= Normalised(value, best) <= 1.0 && Normalised(value, best) * best == value
    ensures value == best > 0.0 ==> Normalised(value, best) == 1.0
  {
    if best > 0.0 {
      var share := value / best;
      assert share * best == value;
      assert (1.0 - share) * best >= 0.0;
    }
  }

  lemma {:induction false} BestIsOfTheSet(a: seq<Candidate>, b: seq<Candidate>)
    requires forall c :: c in a <==> c in b
    ensures BestRrf(a) == BestRrf(b)
  {
  }

  lemma AllScoredMembers(candidates: seq<Candidate>, best: real, recency: Recency, weights: Weights, bias: Bias)
    ensures var scored := AllScored(candidates, best, recency, weights, bias);
            forall s :: s in scored <==>
              s.item in candidates && s.id == s.item.id && s.score == FinalScore(s.item, best, recency, weights, bias)
  {
    hide FinalScore;
    var scored := AllScored(candidates, best, recency, weights, bias);
    forall s: Scored | s.item in candidates && s.id == s.item.id && s.score == FinalScore(s.item, best, recency, weights, bias)
      ensures s in scored
    {
      var i :| 0 <= i < |candidates| && candidates[i] == s.item;
      assert scored[i] == s;
    }
  }

  predicate DistinctCandidates(candidates: seq<Candidate>) {
    forall i, j :: 0 <= i < j < |candidates| ==> candidates[i].id != candidates[j].id
  }

  /** The order retrieval delivered its results in does not show. */
  lemma ScoringForgetsOrder(
    a: seq<Candidate>, b: seq<Candidate>, recency: Recency, weights: Weights, bias: Bias)
    requires DistinctCandidates(a) && DistinctCandidates(b) && forall c :: c in a <==> c in b
    ensures ScoreSorted(a, recency, weights, bias) == ScoreSorted(b, recency, weights, bias)
  {
    hide FinalScore, Sort;
    BestIsOfTheSet(a, b);
    var best := BestRrf(a);
    var x, y := AllScored(a, best, recency, weights, bias), AllScored(b, best, recency, weights, bias);
    AllScoredMembers(a, best, recency, weights, bias);
    AllScoredMembers(b, best, recency, weights, bias);
    DistinctIdsPermute(x, Sort(x));
    DistinctIdsPermute(y, Sort(y));
    SortedDistinctIsStrict(Sort(x));
    SortedDistinctIsStrict(Sort(y));
    forall s: Scored
      ensures s in Sort(x) <==> s in Sort(y)
    {
      assert s in Sort(x) <==> s in multiset(x);
      assert s in Sort(y) <==> s in multiset(y);
    }
    StrictlySortedUnique(Sort(x), Sort(y));
  }
}
