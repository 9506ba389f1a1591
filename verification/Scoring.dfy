/** How well each general fits a question: seeds, keyword evidence, family affinity, and the adjustments a
    fresh pick makes on top. */
module Scoring {
  import opened Common
  import opened Lenses
  import opened Ranking

  const SEED_SCORE := 1.0
  const KEYWORD_HIT := 0.6
  const MAX_KEYWORD_GAIN := 1.2
  const FAMILY_AFFINITY := 0.3
  const RECENT_PENALTY := 0.25
  const RIVAL_BONUS := 0.5

  /** `matched` is the set of routing phrases that match the question. */
  datatype SelectInput = SelectInput(
    matched: set<string>,
    explicit: seq<Id>,
    defaults: seq<Id>,
    families: seq<Family>,
    recentlyUsed: seq<Id>,
    seated: seq<Id>,
    max: int)

  /** A score table; an absent key reads as zero but is not ranked. */
  type Scores = map<Id, real>

  function At(scores: Scores, id: Id): real {
    if id in scores then scores[id] else 0.0
  }

  function AddTo(scores: Scores, id: Id, amount: real): Scores {
    scores[id := At(scores, id) + amount]
  }

  /** Keyword evidence before the cap: one hit per routing phrase that matches. */
  function Evidence(keywords: seq<string>, matched: set<string>): (e: real)
    ensures e >= 0.0
  {
    if keywords == [] then 0.0
    else Evidence(keywords[..|keywords| - 1], matched)
         + (if keywords[|keywords| - 1] in matched then KEYWORD_HIT else 0.0)
  }

  function Gain(lens: Lens, input: SelectInput): (g: real)
    ensures 0.0 <= g <= MAX_KEYWORD_GAIN
  {
    var e := Evidence(lens.keywords, input.matched);
    if e > MAX_KEYWORD_GAIN then MAX_KEYWORD_GAIN else e
  }

  predicate Suits(lens: Lens, input: SelectInput) {
    |input.families| > 0 && lens.family in input.families
  }

  function Seeded(defaults: seq<Id>): Scores {
    map id | id in defaults :: SEED_SCORE
  }

  /** The table after one general has been rated. */
  function Rate(scores: Scores, lens: Lens, input: SelectInput): Scores {
    var gained := if Gain(lens, input) > 0.0 then AddTo(scores, lens.id, Gain(lens, input)) else scores;
    if Suits(lens, input) then AddTo(gained, lens.id, FAMILY_AFFINITY) else gained
  }

  function ScoreTable(generals: seq<Lens>, input: SelectInput): Scores {
    if generals == [] then Seeded(input.defaults)
    else Rate(ScoreTable(generals[..|generals| - 1], input), generals[|generals| - 1], input)
  }

  function GainTable(generals: seq<Lens>, input: SelectInput): Scores {
    if generals == [] then map[]
    else
      var last := generals[|generals| - 1];
      var front := GainTable(generals[..|generals| - 1], input);
      if Gain(last, input) > 0.0 then front[last.id := Gain(last, input)] else front
  }

  function Penalised(generals: seq<Lens>, recent: seq<Id>, scores: Scores): Scores {
    if generals == [] then scores
    else
      var last := generals[|generals| - 1];
      var front := Penalised(generals[..|generals| - 1], recent, scores);
      if last.id in recent then AddTo(front, last.id, -RECENT_PENALTY) else front
  }

  function WithRivals(registry: Registry, rivals: seq<Id>, scores: Scores): Scores {
    if rivals == [] then scores
    else
      var last := rivals[|rivals| - 1];
      var front := WithRivals(registry, rivals[..|rivals| - 1], scores);
      if last in registry.byId then AddTo(front, last, RIVAL_BONUS) else front
  }

  // ---------- The loops ----------

  method Score(registry: Registry, input: SelectInput) returns (scores: Scores, gains: Scores)
    ensures scores == ScoreTable(registry.generals, input)
    ensures gains == GainTable(registry.generals, input)
  {
    scores := map[];
    gains := map[];
    for i := 0 to |input.defaults|
      invariant scores == Seeded(input.defaults[..i])
    {
      scores := scores[input.defaults[i] := SEED_SCORE];
    }
    assert input.defaults[..|input.defaults|] == input.defaults;
    for i := 0 to |registry.generals|
      invariant scores == ScoreTable(registry.generals[..i], input)
      invariant gains == GainTable(registry.generals[..i], input)
    {
      var lens := registry.generals[i];
      assert registry.generals[..i + 1][..i] == registry.generals[..i];
      var gain := 0.0;
      for k := 0 to |lens.keywords|
        invariant gain == Evidence(lens.keywords[..k], input.matched)
      {
        assert lens.keywords[..k + 1][..k] == lens.keywords[..k];
        if lens.keywords[k] in input.matched {
          gain := gain + KEYWORD_HIT;
        }
      }
      assert lens.keywords[..|lens.keywords|] == lens.keywords;
      if gain > MAX_KEYWORD_GAIN {
        gain := MAX_KEYWORD_GAIN;
      }
      if gain > 0.0 {
        scores := AddTo(scores, lens.id, gain);
        gains := gains[lens.id := gain];
      }
      if |input.families| > 0 && lens.family in input.families {
        scores := AddTo(scores, lens.id, FAMILY_AFFINITY);
      }
    }
    assert registry.generals[..|registry.generals|] == registry.generals;
  }

  // ---------- What the tables hold, in closed form ----------

  function SeedOf(input: SelectInput, id: Id): real {
    if id in input.defaults then SEED_SCORE else 0.0
  }

  /** What a general scores on the question, as one expression. */
  function Fit(lens: Lens, input: SelectInput): real {
    SeedOf(input, lens.id) + Gain(lens, input) + (if Suits(lens, input) then FAMILY_AFFINITY else 0.0)
  }

  function Occurrences(ids: seq<Id>, id: Id): nat {
    if ids == [] then 0
    else Occurrences(ids[..|ids| - 1], id) + (if ids[|ids| - 1] == id then 1 else 0)
  }

  lemma {:induction false} ScoreTableElsewhere(generals: seq<Lens>, input: SelectInput, id: Id)
    requires id !in Ids(generals)
    ensures id in ScoreTable(generals, input) <==> id in input.defaults
    ensures At(ScoreTable(generals, input), id) == SeedOf(input, id)
  {
    if generals != [] {
      var n := |generals| - 1;
      assert generals[n].id in Ids(generals);
      assert forall i :: 0 <= i < n ==> generals[..n][i].id == generals[i].id;
      ScoreTableElsewhere(generals[..n], input, id);
    }
  }

  /** Each general's entry is the sum of its own evidence; nothing leaks between generals. */
  lemma {:induction false} ScoreTableAt(generals: seq<Lens>, input: SelectInput, k: nat)
    requires DistinctLenses(generals) && k < |generals|
    ensures At(ScoreTable(generals, input), generals[k].id) == Fit(generals[k], input)
    ensures generals[k].id in ScoreTable(generals, input) <==>
            generals[k].id in input.defaults || Gain(generals[k], input) > 0.0 || Suits(generals[k], input)
    ensures At(GainTable(generals, input), generals[k].id) == Gain(generals[k], input)
  {
    var n := |generals| - 1;
    if k == n {
      assert generals[n].id !in Ids(generals[..n]);
      ScoreTableElsewhere(generals[..n], input, generals[n].id);
      GainTableElsewhere(generals[..n], input, generals[n].id);
    } else {
      assert generals[..n][k] == generals[k];
      ScoreTableAt(generals[..n], input, k);
    }
  }

  lemma {:induction false} GainTableElsewhere(generals: seq<Lens>, input: SelectInput, id: Id)
    requires id !in Ids(generals)
    ensures id !in GainTable(generals, input)
  {
    if generals != [] {
      var n := |generals| - 1;
      assert generals[n].id in Ids(generals);
      assert forall i :: 0 <= i < n ==> generals[..n][i].id == generals[i].id;
      GainTableElsewhere(generals[..n], input, id);
    }
  }

  lemma {:induction false} PenalisedAt(generals: seq<Lens>, recent: seq<Id>, scores: Scores, id: Id)
    requires DistinctLenses(generals)
    ensures var hit := id in Ids(generals) && id in recent;
            && At(Penalised(generals, recent, scores), id) == At(scores, id) - (if hit then RECENT_PENALTY else 0.0)
            && (id in Penalised(generals, recent, scores) <==> id in scores || hit)
  {
    if generals != [] {
      var n := |generals| - 1;
      PenalisedAt(generals[..n], recent, scores, id);
      assert Ids(generals) == Ids(generals[..n]) + {generals[n].id} by {
        assert forall i :: 0 <= i < n ==> generals[..n][i].id == generals[i].id;
      }
      assert generals[n].id !in Ids(generals[..n]);
    }
  }

  lemma {:induction false} WithRivalsAt(registry: Registry, rivals: seq<Id>, scores: Scores, id: Id)
    ensures var times := if id in registry.byId then Occurrences(rivals, id) else 0;
            && At(WithRivals(registry, rivals, scores), id) == At(scores, id) + times as real * RIVAL_BONUS
            && (id in WithRivals(registry, rivals, scores) <==> id in scores || times > 0)
  {
    if rivals != [] {
      WithRivalsAt(registry, rivals[..|rivals| - 1], scores, id);
    }
  }

  // ---------- Ranking the table ----------

  /** The generals that have an entry in the table, with their scores. */
  function Candidates(generals: seq<Lens>, scores: Scores): seq<Ranked<Lens>> {
    if generals == [] then []
    else
      var last := generals[|generals| - 1];
      Candidates(generals[..|generals| - 1], scores)
      + (if last.id in scores then [Ranked(last, scores[last.id], last.id)] else [])
  }

  function RankedGenerals(registry: Registry, scores: Scores): seq<Ranked<Lens>> {
    Sort(Candidates(registry.generals, scores))
  }

  lemma {:induction false} CandidatesAre(generals: seq<Lens>, scores: Scores)
    requires DistinctLenses(generals)
    ensures DistinctIds(Candidates(generals, scores))
    ensures forall x :: x in Candidates(generals, scores) <==>
                        x.item in generals && x.id == x.item.id && x.id in scores && x.score == scores[x.id]
  {
    if generals != [] {
      var n := |generals| - 1;
      assert generals == generals[..n] + [generals[n]];
      CandidatesAre(generals[..n], scores);
    }
  }

  /** The ranking is strict and holds exactly the generals with an entry, whatever order they were met in. */
  lemma RankedGeneralsAre(registry: Registry, scores: Scores)
    requires registry.Valid()
    ensures StrictlySorted(RankedGenerals(registry, scores))
    ensures DistinctIds(RankedGenerals(registry, scores))
    ensures forall x :: x in RankedGenerals(registry, scores) <==>
                        x.item in registry.generals && x.id == x.item.id && x.id in scores && x.score == scores[x.id]
  {
    var found := Candidates(registry.generals, scores);
    CandidatesAre(registry.generals, scores);
    DistinctIdsPermute(found, RankedGenerals(registry, scores));
    SortedDistinctIsStrict(RankedGenerals(registry, scores));
    SameElements(found, RankedGenerals(registry, scores));
  }

  /** Ranks the table by walking its keys in whatever order the map gives them. */
  method RankAll(registry: Registry, scores: Scores) returns (ranked: seq<Ranked<Lens>>)
    requires registry.Valid()
    ensures ranked == RankedGenerals(registry, scores)
  {
    var found: seq<Ranked<Lens>> := [];
    var left := scores.Keys;
    while left != {}
      invariant left <= scores.Keys
      invariant DistinctIds(found)
      invariant forall x :: x in found <==>
                            && x.item in registry.generals && x.id == x.item.id
                            && x.id in scores && x.id !in left && x.score == scores[x.id]
    {
      var id :| id in left;
      var lens := registry.Get(id);
      if lens.Some? && lens.value.kind == General {
        found := found + [Ranked(lens.value, scores[id], id)];
      }
      left := left - {id};
    }
    ranked := Sort(found);
    RankedGeneralsAre(registry, scores);
    DistinctIdsPermute(found, ranked);
    SortedDistinctIsStrict(ranked);
    SameElements(found, ranked);
    StrictlySortedUnique(ranked, RankedGenerals(registry, scores));
  }

  /** The leader, found by walking the keys in whatever order the map gives them. */
  method TopScored(registry: Registry, scores: Scores) returns (leader: Option<Lens>)
    requires registry.Valid()
    ensures leader.None? <==> RankedGenerals(registry, scores) == []
    ensures leader.Some? ==> leader.value == RankedGenerals(registry, scores)[0].item
  {
    ghost var ranking := RankedGenerals(registry, scores);
    RankedGeneralsAre(registry, scores);
    var best: Option<Ranked<Lens>> := None;
    var left := scores.Keys;
    while left != {}
      invariant left <= scores.Keys
      invariant best.Some? ==> best.value in ranking && best.value.id !in left
      invariant forall x :: x in ranking && x.id !in left ==> best.Some? && !Before(x, best.value)
    {
      var id :| id in left;
      var lens := registry.Get(id);
      if lens.Some? && lens.value.kind == General {
        var rated := Ranked(lens.value, scores[id], id);
        assert rated in ranking;
        if best.None? || rated.score > best.value.score || (rated.score == best.value.score && id < best.value.id) {
          best := Some(rated);
        }
      }
      left := left - {id};
    }
    if best.None? {
      leader := None;
      EmptyOrInhabited(ranking);
    } else {
      leader := Some(best.value.item);
      ghost var i :| 0 <= i < |ranking| && ranking[i] == best.value;
      assert ranking[0] in ranking && !Before(ranking[0], best.value);
    }
  }
}
