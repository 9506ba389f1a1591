/** Ordering what retrieval found: by score, by score against redundancy, and by a model's answer. */
module Rerank {
  import opened Common
  import opened Ranking

  const LAMBDA := 0.7
  const DEFAULT_TOP_K := 8
  const MAX_INT := 0x7fff_ffff_ffff_ffff

  datatype Candidate = Candidate(id: nat, rrf: real, kind: string)

  datatype Weights = Weights(relevance: real, recency: real, kind: real)

  datatype Bias = Bias(kinds: seq<string>, boost: real)

  /** How fresh a candidate is, and how alike two are; both lie between zero and one. */
  type Recency = Candidate -> real

  type Similarity = (Candidate, Candidate) -> real

  type Scored = Ranked<Candidate>

  // ---------- Scores ----------

  function BestRrf(candidates: seq<Candidate>): (best: real)
    ensures best >= 0.0
    ensures forall c :: c in candidates ==> c.rrf <= best
    ensures best == 0.0 || exists c :: c in candidates && c.rrf == best
  {
    if candidates == [] then 0.0
    else
      var n := |candidates| - 1;
      assert candidates == candidates[..n] + [candidates[n]];
      var best := BestRrf(candidates[..n]);
      if candidates[n].rrf > best then candidates[n].rrf else best
  }

  function Normalised(value: real, best: real): real {
    if best <= 0.0 then 0.0 else value / best
  }

  function KindScore(kind: string, bias: Bias): real {
    if bias.boost > 0.0 && kind in bias.kinds then bias.boost else 0.0
  }

  function FinalScore(c: Candidate, best: real, recency: Recency, weights: Weights, bias: Bias): real {
    weights.relevance * Normalised(c.rrf, best) + weights.recency * recency(c) + weights.kind * KindScore(c.kind, bias)
  }

  function AllScored(
    candidates: seq<Candidate>, best: real, recency: Recency, weights: Weights, bias: Bias): (r: seq<Scored>)
    ensures |r| == |candidates|
    ensures forall i :: 0 <= i < |r| ==>
              r[i] == Ranked(candidates[i], FinalScore(candidates[i], best, recency, weights, bias), candidates[i].id)
  {
    seq(|candidates|, i requires 0 <= i < |candidates| =>
      Ranked(candidates[i], FinalScore(candidates[i], best, recency, weights, bias), candidates[i].id))
  }

  /** Best first, ties by identifier. */
  function ScoreSorted(candidates: seq<Candidate>, recency: Recency, weights: Weights, bias: Bias): seq<Scored> {
    Sort(AllScored(candidates, BestRrf(candidates), recency, weights, bias))
  }

  method ScoreCandidates(candidates: seq<Candidate>, recency: Recency, weights: Weights, bias: Bias)
    returns (scored: seq<Scored>)
    ensures scored == ScoreSorted(candidates, recency, weights, bias)
  {
    if |candidates| == 0 {
      return [];
    }
    var best := 0.0;
    for i := 0 to |candidates|
      invariant best == BestRrf(candidates[..i])
    {
      assert candidates[..i + 1][..i] == candidates[..i];
      if candidates[i].rrf > best {
        best := candidates[i].rrf;
      }
    }
    assert candidates[..|candidates|] == candidates;
    scored := ScoreEach(candidates, best, recency, weights, bias);
    scored := Sort(scored);
  }

  method ScoreEach(candidates: seq<Candidate>, best: real, recency: Recency, weights: Weights, bias: Bias)
    returns (scored: seq<Scored>)
    ensures scored == AllScored(candidates, best, recency, weights, bias)
  {
    hide FinalScore;
    scored := [];
    for i := 0 to |candidates|
      invariant |scored| == i
      invariant forall j :: 0 <= j < i ==>
                  scored[j]
                  == Ranked(candidates[j], FinalScore(candidates[j], best, recency, weights, bias), candidates[j].id)
    {
      var final := ScoreOne(candidates[i], best, recency, weights, bias);
      scored := scored + [Ranked(candidates[i], final, candidates[i].id)];
    }
  }

  method ScoreOne(c: Candidate, best: real, recency: Recency, weights: Weights, bias: Bias) returns (final: real)
    ensures final == FinalScore(c, best, recency, weights, bias)
  {
    hide Normalised, KindScore;
    var relevance := Normalised(c.rrf, best);
    var kind := KindScoreOf(c.kind, bias);
    final := weights.relevance * relevance + weights.recency * recency(c) + weights.kind * kind;
  }

  method KindScoreOf(kind: string, bias: Bias) returns (score: real)
    ensures score == KindScore(kind, bias)
  {
    if bias.boost <= 0.0 || |bias.kinds| == 0 {
      return 0.0;
    }
    for i := 0 to |bias.kinds|
      invariant kind !in bias.kinds[..i]
    {
      if bias.kinds[i] == kind {
        return bias.boost;
      }
    }
    return 0.0;
  }

  // ---------- Relevance against redundancy ----------

  /** The places, in order, that are not among those chosen. */
  function Rest(n: nat, chosen: seq<nat>): (r: seq<nat>)
    ensures forall k :: 0 <= k < |r| ==> r[k] < n
  {
    if n == 0 then [] else Rest(n - 1, chosen) + (if n - 1 in chosen then [] else [n - 1])
  }

  /** The most alike a candidate is to any of those picked, zero at least. */
  function MostAlike(c: Candidate, picked: seq<Scored>, alike: Similarity): (m: real)
    ensures m >= 0.0
  {
    if picked == [] then 0.0
    else
      var n := |picked| - 1;
      var most := MostAlike(c, picked[..n], alike);
      if alike(c, picked[n].item) > most then alike(c, picked[n].item) else most
  }

  function Margin(c: Scored, picked: seq<Scored>, alike: Similarity): real {
    LAMBDA * c.score - (1.0 - LAMBDA) * MostAlike(c.item, picked, alike)
  }

  /** The first of the remaining candidates with the largest margin. */
  function FirstBest(remaining: seq<Scored>, picked: seq<Scored>, alike: Similarity): (b: nat)
    requires remaining != []
    ensures b < |remaining|
  {
    if |remaining| == 1 then 0
    else
      var n := |remaining| - 1;
      var b := FirstBest(remaining[..n], picked, alike);
      if Margin(remaining[n], picked, alike) > Margin(remaining[b], picked, alike) then n else b
  }

  function Taken(scored: seq<Scored>, places: seq<nat>): (r: seq<Scored>)
    requires forall k :: 0 <= k < |places| ==> places[k] < |scored|
    ensures |r| == |places| && forall k :: 0 <= k < |r| ==> r[k] == scored[places[k]]
  {
    seq(|places|, k requires 0 <= k < |places| => scored[places[k]])
  }

  /** The best place that is left. */
  function NextPlace(scored: seq<Scored>, alike: Similarity, before: seq<nat>): (p: nat)
    requires Rest(|scored|, before) != [] && forall i :: 0 <= i < |before| ==> before[i] < |scored|
    ensures p < |scored|
  {
    var rest := Rest(|scored|, before);
    rest[FirstBest(Taken(scored, rest), Taken(scored, before), alike)]
  }

  /** The places picked one after another, each the best of what remains. */
  function Picks(scored: seq<Scored>, alike: Similarity, k: nat): (r: seq<nat>)
    ensures forall i :: 0 <= i < |r| ==> r[i] < |scored|
    ensures |r| <= k
  {
    if k == 0 then []
    else
      var before := Picks(scored, alike, k - 1);
      if Rest(|scored|, before) == [] then before else before + [NextPlace(scored, alike, before)]
  }

  /** A list no longer than what is wanted comes back in score order, untouched. */
  function Selected(scored: seq<Scored>, alike: Similarity, topK: nat): (r: seq<nat>)
    ensures forall i :: 0 <= i < |r| ==> r[i] < |scored|
  {
    if |scored| <= topK then Rest(|scored|, []) else Picks(scored, alike, topK)
  }

  method FindBest(remaining: seq<Scored>, picked: seq<Scored>, alike: Similarity) returns (best: nat)
    requires remaining != []
    ensures best == FirstBest(remaining, picked, alike)
  {
    best := 0;
    var bestScore := Margin(remaining[0], picked, alike);
    for i := 1 to |remaining|
      invariant best == FirstBest(remaining[..i], picked, alike)
      invariant bestScore == Margin(remaining[best], picked, alike)
    {
      hide Margin;
      assert remaining[..i + 1][..i] == remaining[..i];
      var margin := MarginOf(remaining[i], picked, alike);
      if margin > bestScore {
        bestScore := margin;
        best := i;
      }
    }
    assert remaining[..|remaining|] == remaining;
  }

  method MarginOf(c: Scored, picked: seq<Scored>, alike: Similarity) returns (margin: real)
    ensures margin == Margin(c, picked, alike)
  {
    var most := MostAlikeOf(c.item, picked, alike);
    margin := LAMBDA * c.score - (1.0 - LAMBDA) * most;
  }

  method MostAlikeOf(c: Candidate, picked: seq<Scored>, alike: Similarity) returns (most: real)
    ensures most == MostAlike(c, picked, alike)
  {
    most := 0.0;
    for i := 0 to |picked|
      invariant most == MostAlike(c, picked[..i], alike)
    {
      assert picked[..i + 1][..i] == picked[..i];
      var a := alike(c, picked[i].item);
      if a > most {
        most := a;
      }
    }
    assert picked[..|picked|] == picked;
  }

  method MmrSelect(candidates: seq<Scored>, alike: Similarity, topK: nat) returns (selected: seq<Scored>)
    ensures selected == Taken(candidates, Selected(candidates, alike, topK))
  {
    hide Picks, Rest, FirstBest, Taken, NextPlace;
    NothingPicked(candidates, alike);
    if |candidates| <= topK {
      return candidates;
    }
    var remaining := candidates;
    selected := [];
    ghost var places: seq<nat> := [];
    ghost var rest := Rest(|candidates|, []);
    while |selected| < topK && |remaining| > 0
      invariant places == Picks(candidates, alike, |selected|)
      invariant |places| == |selected| <= topK && selected == Taken(candidates, places)
      invariant rest == Rest(|candidates|, places) && remaining == Taken(candidates, rest)
      decreases topK - |selected|
    {
      var best := FindBest(remaining, selected, alike);
      NextPlaceIs(candidates, alike, places);
      PickOneMore(candidates, alike, |selected| + 1);
      RestWithout(|candidates|, places, best);
      TakenSplit(candidates, rest, best);
      TakenOneMore(candidates, places, rest[best]);
      selected := selected + [remaining[best]];
      remaining := remaining[..best] + remaining[best + 1..];
      places := places + [rest[best]];
      rest := rest[..best] + rest[best + 1..];
    }
    if |selected| < topK {
      PicksExhausted(candidates, alike, |selected|, topK);
    }
  }

  lemma NextPlaceIs(scored: seq<Scored>, alike: Similarity, before: seq<nat>)
    requires Rest(|scored|, before) != [] && forall i :: 0 <= i < |before| ==> before[i] < |scored|
    ensures var rest := Rest(|scored|, before);
            NextPlace(scored, alike, before) == rest[FirstBest(Taken(scored, rest), Taken(scored, before), alike)]
  {
    hide Rest, FirstBest;
  }

  lemma TakenOneMore(scored: seq<Scored>, places: seq<nat>, p: nat)
    requires p < |scored| && forall k :: 0 <= k < |places| ==> places[k] < |scored|
    ensures Taken(scored, places + [p]) == Taken(scored, places) + [scored[p]]
  {
  }

  lemma TakenSplit(scored: seq<Scored>, places: seq<nat>, b: nat)
    requires b < |places| && forall k :: 0 <= k < |places| ==> places[k] < |scored|
    ensures Taken(scored, places[..b] + places[b + 1..]) == Taken(scored, places)[..b] + Taken(scored, places)[b + 1..]
  {
  }

  lemma NothingPicked(scored: seq<Scored>, alike: Similarity)
    ensures Picks(scored, alike, 0) == [] && Taken(scored, []) == []
    ensures Taken(scored, Rest(|scored|, [])) == scored
  {
    RestOfNone(|scored|);
  }

  lemma PickOneMore(scored: seq<Scored>, alike: Similarity, k: nat)
    requires k > 0
    ensures var before := Picks(scored, alike, k - 1);
            Picks(scored, alike, k)
            == if Rest(|scored|, before) == [] then before else before + [NextPlace(scored, alike, before)]
  {
  }

  lemma {:induction false} RestOfNone(n: nat)
    ensures |Rest(n, [])| == n && forall i :: 0 <= i < n ==> Rest(n, [])[i] == i
  {
    if n > 0 {
      RestOfNone(n - 1);
    }
  }

  lemma {:induction false} RestIgnores(n: nat, chosen: seq<nat>, p: nat)
    requires p >= n
    ensures Rest(n, chosen + [p]) == Rest(n, chosen)
  {
    if n > 0 {
      RestIgnores(n - 1, chosen, p);
    }
  }

  /** Choosing a place takes it out of the rest and leaves the others in order. */
  lemma {:induction false} RestWithout(n: nat, chosen: seq<nat>, b: nat)
    requires b < |Rest(n, chosen)|
    ensures var rest := Rest(n, chosen); Rest(n, chosen + [rest[b]]) == rest[..b] + rest[b + 1..]
    decreases n
  {
    var p := Rest(n, chosen)[b];
    var less := Rest(n - 1, chosen);
    if n - 1 in chosen {
      RestWithout(n - 1, chosen, b);
    } else if b == |less| {
      RestIgnores(n - 1, chosen, p);
    } else {
      RestWithout(n - 1, chosen, b);
      assert n - 1 !in chosen + [p];
      assert (less + [n - 1])[..b] == less[..b] && (less + [n - 1])[b + 1..] == less[b + 1..] + [n - 1];
    }
  }

  lemma {:induction false} PicksExhausted(scored: seq<Scored>, alike: Similarity, k: nat, more: nat)
    requires k <= more && Rest(|scored|, Picks(scored, alike, k)) == []
    ensures Picks(scored, alike, more) == Picks(scored, alike, k)
    decreases more
  {
    hide *;
    if k < more {
      PicksExhausted(scored, alike, k, more - 1);
      PickOneMore(scored, alike, more);
    }
  }

  function WithDefaultTopK(topK: int): nat {
    if topK <= 0 then DEFAULT_TOP_K else topK
  }

  method SelectCandidates(scored: seq<Scored>, alike: Similarity, topK: int) returns (selected: seq<Scored>)
    ensures selected == Taken(scored, Selected(scored, alike, WithDefaultTopK(topK)))
  {
    hide Selected;
    selected := MmrSelect(scored, alike, WithDefaultTopK(topK));
  }
}
