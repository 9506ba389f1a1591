/** The score of each candidate and the gain of each pick, written out. */
module RerankEffects {
  import opened Common
  import opened Ranking
  import opened Rerank
  import opened RerankLaws

  // ---------- Scores ----------

  /** The best share of all: no candidate has more, one has it, and it is zero where none has any. */
  predicate BestOf(candidates: seq<Candidate>, best: real) {
    && best >= 0.0 && (forall i :: 0 <= i < |candidates| ==> candidates[i].rrf <= best)
    && (best == 0.0 || exists i :: 0 <= i < |candidates| && candidates[i].rrf == best)
  }

  /** Relevance as a share of the best, recency, and the boost where the question cares for the kind, each by its weight. */
  predicate ScoredAs(c: Candidate, best: real, recency: Recency, w: Weights, bias: Bias, score: real) {
    var kind := if bias.boost > 0.0 && exists i :: 0 <= i < |bias.kinds| && bias.kinds[i] == c.kind then bias.boost else 0.0;
    var share := if best > 0.0 then c.rrf / best else 0.0;
    score == w.relevance * share + w.recency * recency(c) + w.kind * kind
  }

  lemma ScoreIs(c: Candidate, best: real, recency: Recency, w: Weights, bias: Bias)
    ensures ScoredAs(c, best, recency, w, bias, FinalScore(c, best, recency, w, bias))
  {
  }

  lemma BestIs(candidates: seq<Candidate>)
    ensures BestOf(candidates, BestRrf(candidates))
  {
    var best := BestRrf(candidates);
    forall i | 0 <= i < |candidates| ensures candidates[i].rrf <= best {
      assert candidates[i] in candidates;
    }
    if best != 0.0 {
      var c :| c in candidates && c.rrf == best;
      var i :| 0 <= i < |candidates| && candidates[i] == c;
    }
  }

  /** Every candidate stands in the list once, under its own name and with the score it has against the best of all, higher
      scores first and of equal scores the smaller name first. */
  lemma ScoresAre(candidates: seq<Candidate>, recency: Recency, w: Weights, bias: Bias) returns (best: real, each: seq<Scored>)
    ensures BestOf(candidates, best)
    ensures |each| == |candidates|
    ensures forall i :: 0 <= i < |each| ==>
              each[i].item == candidates[i] && each[i].id == candidates[i].id
              && ScoredAs(candidates[i], best, recency, w, bias, each[i].score)
    ensures var list := ScoreSorted(candidates, recency, w, bias);
            && multiset(list) == multiset(each)
            && forall i, j :: 0 <= i < j < |list| ==>
                 list[i].score > list[j].score || (list[i].score == list[j].score && list[i].id <= list[j].id)
  {
    hide FinalScore, ScoredAs, BestOf;
    best := BestRrf(candidates);
    BestIs(candidates);
    each := AllScored(candidates, best, recency, w, bias);
    forall i | 0 <= i < |each| ensures ScoredAs(candidates[i], best, recency, w, bias, each[i].score) {
      ScoreIs(candidates[i], best, recency, w, bias);
    }
    var list := ScoreSorted(candidates, recency, w, bias);
    forall i, j | 0 <= i < j < |list|
      ensures list[i].score > list[j].score || (list[i].score == list[j].score && list[i].id <= list[j].id)
    {
      assert !Before(list[j], list[i]);
    }
  }

  // ---------- Picks ----------

  /** The most alike to any picked: zero at least, as much as each, and more than zero only where one is so alike. */
  predicate MostOf(c: Candidate, picked: seq<Scored>, alike: Similarity, most: real) {
    && most >= 0.0 && (forall k :: 0 <= k < |picked| ==> alike(c, picked[k].item) <= most)
    && (most == 0.0 || exists k :: 0 <= k < |picked| && alike(c, picked[k].item) == most)
  }

  lemma {:induction false} MostIs(c: Candidate, picked: seq<Scored>, alike: Similarity)
    ensures MostOf(c, picked, alike, MostAlike(c, picked, alike))
  {
    if picked != [] {
      var n := |picked| - 1;
      MostIs(c, picked[..n], alike);
      var before := MostAlike(c, picked[..n], alike);
      if before >= alike(c, picked[n].item) && before != 0.0 {
        var k :| 0 <= k < n && alike(c, picked[..n][k].item) == before;
        assert picked[k] == picked[..n][k];
      }
      forall k | 0 <= k < n ensures alike(c, picked[k].item) <= before {
        assert picked[..n][k] == picked[k];
      }
    }
  }

  lemma MostIsOne(c: Candidate, picked: seq<Scored>, alike: Similarity, a: real, b: real)
    requires MostOf(c, picked, alike, a) && MostOf(c, picked, alike, b)
    ensures a == b
  {
  }

  /** What is gained by picking a candidate next: seven tenths of its score less three tenths of its likeness. */
  ghost predicate Gains(c: Scored, picked: seq<Scored>, alike: Similarity, gain: real) {
    exists most :: MostOf(c.item, picked, alike, most) && gain == 0.7 * c.score - 0.3 * most
  }

  lemma GainIs(c: Scored, picked: seq<Scored>, alike: Similarity, gain: real)
    ensures Gains(c, picked, alike, gain) <==> gain == Margin(c, picked, alike)
  {
    hide MostOf;
    MostIs(c.item, picked, alike);
    if Gains(c, picked, alike, gain) {
      var most :| MostOf(c.item, picked, alike, most) && gain == 0.7 * c.score - 0.3 * most;
      MostIsOne(c.item, picked, alike, most, MostAlike(c.item, picked, alike));
    }
  }

  /** Against those picked before it, the pick gains at least what anything not picked yet would, and more than any such thing
      that stands before it. */
  ghost predicate GainsMost(scored: seq<Scored>, alike: Similarity, before: seq<nat>, p: nat)
    requires p < |scored| && forall k :: 0 <= k < |before| ==> before[k] < |scored|
  {
    forall i, mine, its ::
      (0 <= i < |scored| && i !in before && BothGain(scored[p], scored[i], Taken(scored, before), alike, mine, its) ==>
         its <= mine && (i < p ==> its < mine))
  }

  ghost predicate BothGain(c: Scored, d: Scored, picked: seq<Scored>, alike: Similarity, mine: real, its: real) {
    Gains(c, picked, alike, mine) && Gains(d, picked, alike, its)
  }

  lemma BestGains(scored: seq<Scored>, alike: Similarity, before: seq<nat>, p: nat)
    requires p < |scored| && forall k :: 0 <= k < |before| ==> before[k] < |scored|
    requires BestLeft(scored, alike, before, p)
    ensures GainsMost(scored, alike, before, p)
  {
    hide Margin, Gains;
    var picked := Taken(scored, before);
    forall i, mine, its | 0 <= i < |scored| && i !in before && BothGain(scored[p], scored[i], picked, alike, mine, its)
      ensures its <= mine && (i < p ==> its < mine)
    {
      GainIs(scored[p], picked, alike, mine);
      GainIs(scored[i], picked, alike, its);
    }
  }

  /** What is picked of a list longer than asked for, eight where nothing is asked: as many different places as asked, each
      gaining most of all that were left. */
  lemma PicksGainMost(scored: seq<Scored>, alike: Similarity, topK: int)
    ensures var k := if topK > 0 then topK else 8;
            var places := Selected(scored, alike, WithDefaultTopK(topK));
            && |places| == (if k < |scored| then k else |scored|)
            && (forall i, j :: 0 <= i < j < |places| ==> places[i] != places[j])
            && (|scored| <= k ==> forall i :: 0 <= i < |places| ==> places[i] == i)
            && (|scored| > k ==> forall j :: 0 <= j < |places| ==> GainsMost(scored, alike, places[..j], places[j]))
  {
    hide Selected, BestLeft, GainsMost, FirstOfTop;
    var k := WithDefaultTopK(topK);
    SelectionIs(scored, alike, k);
    var places := Selected(scored, alike, k);
    if |scored| > k {
      forall j | 0 <= j < |places| ensures GainsMost(scored, alike, places[..j], places[j]) {
        BestGains(scored, alike, places[..j], places[j]);
      }
    }
  }
}
