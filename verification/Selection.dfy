/** Which lenses answer a question: the user's own pick, the conversation's roster with its challengers, or a
    fresh pick, filled up with complementary families. */
module Selection {
  import opened Common
  import opened Lenses
  import opened Ranking
  import opened Scoring

  const MIN_SCORE := 0.5
  const CHALLENGE_GAIN := MAX_KEYWORD_GAIN
  const CHALLENGE_MARGIN := KEYWORD_HIT

  datatype Method = Explicit | Auto | Sticky

  datatype Selection = Selection(lenses: seq<Lens>, how: Method)

  const ALL_FAMILIES: seq<Family> :=
    [Contact, Scouting, Endurance, Adaptation, Family.Systems, Concentration, Preservation]

  function Complements(family: Family): seq<Family> {
    match family
    case Scouting => [Contact, Preservation]
    case Contact => [Preservation, Scouting]
    case Endurance => [Preservation, Adaptation]
    case Adaptation => [Endurance, Concentration]
    case Systems => [Contact, Adaptation]
    case Concentration => [Scouting, Preservation]
    case Preservation => [Contact, Concentration]
    case Unlisted(_) => []
  }

  // ---------- Challenging a sitting roster ----------

  /** The last seat, among the first `n`, with the lowest score of those not in `arrived`; -1 if all are arrived. */
  function Weakest(roster: seq<Lens>, arrived: set<Id>, scores: Scores, n: nat): (w: int)
    requires n <= |roster|
    ensures -1 <= w < n
    ensures w < 0 ==> forall i :: 0 <= i < n ==> roster[i].id in arrived
    ensures w >= 0 ==>
              && roster[w].id !in arrived
              && forall i :: 0 <= i < n && roster[i].id !in arrived ==>
                   At(scores, roster[w].id) <= At(scores, roster[i].id)
  {
    if n == 0 then -1
    else
      var w := Weakest(roster, arrived, scores, n - 1);
      if roster[n - 1].id in arrived then w
      else if w < 0 || At(scores, roster[n - 1].id) <= At(scores, roster[w].id) then n - 1
      else w
  }

  predicate TakesSeat(roster: seq<Lens>, arrived: set<Id>, challenger: Ranked<Lens>, scores: Scores) {
    var w := Weakest(roster, arrived, scores, |roster|);
    w >= 0 && challenger.score >= At(scores, roster[w].id) + CHALLENGE_MARGIN
  }

  /** The roster after the challengers, in order, have each tried the weakest seat; the first failure ends it. */
  function Reseat(roster: seq<Lens>, arrived: set<Id>, challengers: seq<Ranked<Lens>>, scores: Scores): (r: seq<Lens>)
    ensures |r| == |roster|
    decreases |challengers|
  {
    if challengers == [] || !TakesSeat(roster, arrived, challengers[0], scores) then roster
    else
      var w := Weakest(roster, arrived, scores, |roster|);
      Reseat(roster[w := challengers[0].item], arrived + {challengers[0].item.id}, challengers[1..], scores)
  }

  /** The same contest in which a failing challenger is passed over and every later one still gets its try. */
  function ReseatTryingAll(roster: seq<Lens>, arrived: set<Id>, challengers: seq<Ranked<Lens>>, scores: Scores): seq<Lens>
    decreases |challengers|
  {
    if challengers == [] then roster
    else if !TakesSeat(roster, arrived, challengers[0], scores) then
      ReseatTryingAll(roster, arrived, challengers[1..], scores)
    else
      var w := Weakest(roster, arrived, scores, |roster|);
      ReseatTryingAll(roster[w := challengers[0].item], arrived + {challengers[0].item.id}, challengers[1..], scores)
  }

  /** The generals off the bench with enough evidence to challenge, in registry order. */
  function Bench(generals: seq<Lens>, taken: set<Id>, scores: Scores, gains: Scores): seq<Ranked<Lens>> {
    if generals == [] then []
    else
      var last := generals[|generals| - 1];
      Bench(generals[..|generals| - 1], taken, scores, gains)
      + (if last.id !in taken && At(gains, last.id) >= CHALLENGE_GAIN
         then [Ranked(last, At(scores, last.id), last.id)] else [])
  }

  function Challengers(generals: seq<Lens>, roster: seq<Lens>, scores: Scores, gains: Scores): seq<Ranked<Lens>> {
    Sort(Bench(generals, Ids(roster), scores, gains))
  }

  /** What holding a roster comes to. */
  function Held(registry: Registry, input: SelectInput, seated: seq<Lens>, max: nat): Selection {
    var scores := ScoreTable(registry.generals, input);
    var gains := GainTable(registry.generals, input);
    var seats := if |seated| > max then seated[..max] else seated;
    var roster := Reseat(seats, {}, Challengers(registry.generals, seats, scores, gains), scores);
    Selection(
      if |roster| < max then Backfilled(registry, roster, scores, max) else roster,
      if |roster| < max || roster != seats then Auto else Sticky)
  }

  // ---------- Filling the remaining slots ----------

  predicate Better(a: Lens, b: Lens, scores: Scores) {
    At(scores, a.id) > At(scores, b.id) || (At(scores, a.id) == At(scores, b.id) && a.id < b.id)
  }

  predicate Eligible(lens: Lens, family: Family, taken: set<Id>) {
    lens.family == family && lens.id !in taken
  }

  /** The best unused lens of a family. */
  function BestIn(generals: seq<Lens>, family: Family, taken: set<Id>, scores: Scores): (best: Option<Lens>)
    ensures best.None? <==> forall g :: g in generals ==> !Eligible(g, family, taken)
    ensures best.Some? ==>
              && best.value in generals && Eligible(best.value, family, taken)
              && forall g :: g in generals && Eligible(g, family, taken) ==> !Better(g, best.value, scores)
  {
    if generals == [] then None
    else
      var n := |generals| - 1;
      assert generals == generals[..n] + [generals[n]];
      var best := BestIn(generals[..n], family, taken, scores);
      if !Eligible(generals[n], family, taken) then best
      else if best.None? || Better(generals[n], best.value, scores) then Some(generals[n])
      else best
  }

  function Wanted(chosen: seq<Lens>): seq<Family> {
    Opposing(chosen) + ALL_FAMILIES
  }

  function Opposing(chosen: seq<Lens>): seq<Family> {
    if chosen == [] then []
    else Opposing(chosen[..|chosen| - 1]) + Complements(chosen[|chosen| - 1].family)
  }

  function Fill(registry: Registry, chosen: seq<Lens>, wanted: seq<Family>, scores: Scores, max: nat): seq<Lens>
    decreases |wanted|
  {
    if wanted == [] || |chosen| == max then chosen
    else
      var best := if wanted[0] in Families(chosen) then None
                  else BestIn(registry.generals, wanted[0], Ids(chosen), scores);
      Fill(registry, if best.Some? then chosen + [best.value] else chosen, wanted[1..], scores, max)
  }

  function Backfilled(registry: Registry, chosen: seq<Lens>, scores: Scores, max: nat): seq<Lens> {
    Fill(registry, chosen, Wanted(chosen), scores, max)
  }

  // ---------- A fresh pick ----------

  function FreshScores(registry: Registry, input: SelectInput, max: nat): Scores {
    var penalised := Penalised(registry.generals, input.recentlyUsed, ScoreTable(registry.generals, input));
    var ranked := RankedGenerals(registry, penalised);
    if max >= 2 && ranked != [] then WithRivals(registry, ranked[0].item.rivals, penalised) else penalised
  }

  /** How many of the ranking clear the floor, up to `max`. */
  function Clearing(ranked: seq<Ranked<Lens>>, max: nat): (n: nat)
    ensures n <= |ranked| && n <= max
    ensures forall i :: 0 <= i < n ==> ranked[i].score >= MIN_SCORE
    ensures n == max || n == |ranked| || ranked[n].score < MIN_SCORE
  {
    if ranked == [] || max == 0 || ranked[0].score < MIN_SCORE then 0
    else 1 + Clearing(ranked[1..], max - 1)
  }

  function Items(ranked: seq<Ranked<Lens>>): (r: seq<Lens>)
    ensures |r| == |ranked| && forall i :: 0 <= i < |r| ==> r[i] == ranked[i].item
  {
    seq(|ranked|, i requires 0 <= i < |ranked| => ranked[i].item)
  }

  /** The ranked pick, or the fallback when nothing cleared the floor. */
  function Picked(registry: Registry, scores: Scores, max: nat): seq<Lens> {
    var ranked := RankedGenerals(registry, scores);
    var top := Items(ranked[..Clearing(ranked, max)]);
    if top != [] then top
    else if registry.defaultLens in registry.byId then [registry.byId[registry.defaultLens]]
    else if registry.generals != [] then [registry.generals[0]]
    else []
  }

  function Fresh(registry: Registry, input: SelectInput, max: nat): seq<Lens> {
    var scores := FreshScores(registry, input, max);
    var picked := Picked(registry, scores, max);
    if |picked| < max then Backfilled(registry, picked, scores, max) else picked
  }

  function Selected(registry: Registry, input: SelectInput): Selection {
    var max: nat := if input.max <= 0 then 1 else input.max;
    var explicit := registry.Resolve(input.explicit);
    var seated := GeneralsOnly(registry.Resolve(input.seated));
    if explicit != [] then Selection(if |explicit| > max then explicit[..max] else explicit, Explicit)
    else if seated != [] then Held(registry, input, seated, max)
    else Selection(Fresh(registry, input, max), Auto)
  }

  // ---------- The procedures ----------

  lemma OneMoreGeneral(generals: seq<Lens>, lens: Lens, family: Family, taken: set<Id>, scores: Scores)
    ensures var best := BestIn(generals, family, taken, scores);
            BestIn(generals + [lens], family, taken, scores)
            == if !Eligible(lens, family, taken) then best
               else if best.None? || Better(lens, best.value, scores) then Some(lens)
               else best
  {
    assert (generals + [lens])[..|generals|] == generals;
  }

  method FindBest(registry: Registry, family: Family, taken: set<Id>, scores: Scores) returns (best: Option<Lens>)
    ensures best == BestIn(registry.generals, family, taken, scores)
  {
    best := None;
    for i := 0 to |registry.generals|
      invariant best == BestIn(registry.generals[..i], family, taken, scores)
    {
      hide BestIn;
      assert registry.generals[..i + 1] == registry.generals[..i] + [registry.generals[i]];
      var lens := registry.generals[i];
      OneMoreGeneral(registry.generals[..i], lens, family, taken, scores);
      if lens.family != family || lens.id in taken {
        continue;
      }
      if best.None? || At(scores, lens.id) > At(scores, best.value.id)
         || (At(scores, lens.id) == At(scores, best.value.id) && lens.id < best.value.id) {
        best := Some(lens);
      }
    }
    assert registry.generals[..|registry.generals|] == registry.generals;
  }

  lemma IdsAppend(lenses: seq<Lens>, lens: Lens)
    ensures Ids(lenses + [lens]) == Ids(lenses) + {lens.id}
    ensures Families(lenses + [lens]) == Families(lenses) + {lens.family}
  {
    var all := lenses + [lens];
    assert all[|lenses|] == lens;
    assert forall i :: 0 <= i < |lenses| ==> all[i] == lenses[i];
    assert Ids(all) == Ids(lenses) + {lens.id};
    assert Families(all) == Families(lenses) + {lens.family};
  }

  method Backfill(registry: Registry, start: seq<Lens>, scores: Scores, max: nat) returns (chosen: seq<Lens>)
    ensures chosen == Backfilled(registry, start, scores, max)
  {
    chosen := start;
    var taken: set<Id> := {};
    var families: set<Family> := {};
    var wanted: seq<Family> := [];
    for i := 0 to |start|
      invariant taken == Ids(start[..i]) && families == Families(start[..i]) && wanted == Opposing(start[..i])
    {
      assert start[..i + 1] == start[..i] + [start[i]];
      IdsAppend(start[..i], start[i]);
      taken := taken + {start[i].id};
      families := families + {start[i].family};
      wanted := wanted + Complements(start[i].family);
    }
    assert start[..|start|] == start;
    wanted := wanted + ALL_FAMILIES;
    for i := 0 to |wanted|
      invariant taken == Ids(chosen) && families == Families(chosen)
      invariant Fill(registry, chosen, wanted[i..], scores, max) == Backfilled(registry, start, scores, max)
    {
      assert wanted[i..][1..] == wanted[i + 1..];
      if |chosen| == max {
        break;
      }
      if wanted[i] in families {
        continue;
      }
      var lens := FindBest(registry, wanted[i], taken, scores);
      if lens.Some? {
        IdsAppend(chosen, lens.value);
        chosen := chosen + [lens.value];
        taken := taken + {lens.value.id};
        families := families + {lens.value.family};
      }
    }
  }

  /** Everyone on the bench is a general not seated, with full keyword evidence, rated by the table. */
  lemma {:induction false} BenchIs(generals: seq<Lens>, taken: set<Id>, scores: Scores, gains: Scores)
    ensures forall x :: x in Bench(generals, taken, scores, gains) <==>
                        && x.item in generals && x.id == x.item.id && x.score == At(scores, x.id)
                        && x.id !in taken && At(gains, x.id) >= CHALLENGE_GAIN
    ensures DistinctLenses(generals) ==> DistinctIds(Bench(generals, taken, scores, gains))
  {
    if generals != [] {
      var n := |generals| - 1;
      assert generals == generals[..n] + [generals[n]];
      BenchIs(generals[..n], taken, scores, gains);
    }
  }

  lemma ChallengersAre(generals: seq<Lens>, roster: seq<Lens>, scores: Scores, gains: Scores)
    ensures forall x :: x in Challengers(generals, roster, scores, gains) <==>
                        && x.item in generals && x.id == x.item.id && x.score == At(scores, x.id)
                        && x.id !in Ids(roster) && At(gains, x.id) >= CHALLENGE_GAIN
    ensures DistinctLenses(generals) ==> StrictlySorted(Challengers(generals, roster, scores, gains))
  {
    var bench := Bench(generals, Ids(roster), scores, gains);
    BenchIs(generals, Ids(roster), scores, gains);
    SameElements(bench, Sort(bench));
    if DistinctLenses(generals) {
      DistinctIdsPermute(bench, Sort(bench));
      SortedDistinctIsStrict(Sort(bench));
    }
  }

  /** The bench in registry order, then ranked. */
  method GatherChallengers(registry: Registry, seats: seq<Lens>, scores: Scores, gains: Scores)
    returns (challengers: seq<Ranked<Lens>>)
    ensures challengers == Challengers(registry.generals, seats, scores, gains)
  {
    var taken := set i | 0 <= i < |seats| :: seats[i].id;
    var bench: seq<Ranked<Lens>> := [];
    for i := 0 to |registry.generals|
      invariant bench == Bench(registry.generals[..i], Ids(seats), scores, gains)
    {
      assert registry.generals[..i + 1][..i] == registry.generals[..i];
      var lens := registry.generals[i];
      if lens.id !in taken && At(gains, lens.id) >= CHALLENGE_GAIN {
        bench := bench + [Ranked(lens, At(scores, lens.id), lens.id)];
      }
    }
    assert registry.generals[..|registry.generals|] == registry.generals;
    challengers := Sort(bench);
  }

  method FindWeakest(roster: seq<Lens>, arrived: set<Id>, scores: Scores) returns (weakest: int)
    ensures weakest == Weakest(roster, arrived, scores, |roster|)
  {
    weakest := -1;
    for i := 0 to |roster|
      invariant weakest == Weakest(roster, arrived, scores, i)
    {
      if roster[i].id in arrived {
        continue;
      }
      if weakest < 0 || At(scores, roster[i].id) <= At(scores, roster[weakest].id) {
        weakest := i;
      }
    }
  }

  method Hold(registry: Registry, input: SelectInput, seated: seq<Lens>, max: nat) returns (s: Selection)
    ensures s == Held(registry, input, seated, max)
  {
    hide ScoreTable, GainTable, Backfilled, Challengers, At;
    var scores, gains := Score(registry, input);
    var seats := seated;
    if |seats| > max {
      seats := seats[..max];
    }
    var roster := seats;
    var how := Sticky;
    var challengers := GatherChallengers(registry, seats, scores, gains);
    ChallengersAre(registry.generals, seats, scores, gains);

    // Seats won in this contest are not contested again.
    var arrived: set<Id> := {};
    for c := 0 to |challengers|
      invariant |roster| == |seats|
      invariant Reseat(roster, arrived, challengers[c..], scores) == Reseat(seats, {}, challengers, scores)
      invariant Reseated(seats, roster, arrived)
      invariant how == if roster != seats then Auto else Sticky
    {
      hide Reseated;
      var weakest := FindWeakest(roster, arrived, scores);
      if weakest < 0 || challengers[c].score < At(scores, roster[weakest].id) + CHALLENGE_MARGIN {
        break;
      }
      assert challengers[c..][1..] == challengers[c + 1..];
      ReseatedStep(seats, roster, arrived, weakest, challengers[c].item);
      roster := roster[weakest := challengers[c].item];
      arrived := arrived + {challengers[c].item.id};
      how := Auto;
    }

    if |roster| < max {
      roster := Backfill(registry, roster, scores, max);
      how := Auto;
    }
    s := Selection(roster, how);
  }

  /** Every seat holds either its original lens or one that arrived from off the bench. */
  ghost predicate Reseated(seats: seq<Lens>, roster: seq<Lens>, arrived: set<Id>) {
    && |roster| == |seats|
    && forall i :: 0 <= i < |seats| ==> roster[i] == seats[i] || (roster[i].id in arrived && roster[i].id !in Ids(seats))
  }

  lemma ReseatedStep(seats: seq<Lens>, roster: seq<Lens>, arrived: set<Id>, seat: nat, newcomer: Lens)
    requires Reseated(seats, roster, arrived) && seat < |seats| && newcomer.id !in Ids(seats)
    ensures Reseated(seats, roster[seat := newcomer], arrived + {newcomer.id})
    ensures roster[seat := newcomer] != seats
  {
    assert seats[seat].id in Ids(seats);
    assert roster[seat := newcomer][seat] != seats[seat];
  }

  /** The scores of a fresh pick: less for lenses just used, more for the leader's rivals when there is room. */
  method AdjustScores(registry: Registry, input: SelectInput, max: nat) returns (scores: Scores)
    requires registry.Valid()
    ensures scores == FreshScores(registry, input, max)
  {
    hide RankedGenerals, ScoreTable, AddTo;
    var table, _ := Score(registry, input);
    scores := table;
    for i := 0 to |registry.generals|
      invariant scores == Penalised(registry.generals[..i], input.recentlyUsed, table)
    {
      assert registry.generals[..i + 1][..i] == registry.generals[..i];
      if registry.generals[i].id in input.recentlyUsed {
        scores := AddTo(scores, registry.generals[i].id, -RECENT_PENALTY);
      }
    }
    assert registry.generals[..|registry.generals|] == registry.generals;
    if max >= 2 {
      var penalised := scores;
      var leader := TopScored(registry, scores);
      if leader.Some? {
        var rivals := leader.value.rivals;
        for i := 0 to |rivals|
          invariant scores == WithRivals(registry, rivals[..i], penalised)
        {
          assert rivals[..i + 1][..i] == rivals[..i];
          if rivals[i] in registry.byId {
            scores := AddTo(scores, rivals[i], RIVAL_BONUS);
          }
        }
        assert rivals[..|rivals|] == rivals;
      }
    }
  }

  method TakeClearing(ranked: seq<Ranked<Lens>>, max: nat) returns (out: seq<Lens>)
    ensures out == Items(ranked[..Clearing(ranked, max)])
  {
    out := [];
    while |out| < |ranked|
      invariant |out| <= |ranked| && |out| <= max
      invariant forall i :: 0 <= i < |out| ==> out[i] == ranked[i].item && ranked[i].score >= MIN_SCORE
    {
      var r := ranked[|out|];
      if |out| == max || r.score < MIN_SCORE {
        break;
      }
      out := out + [r.item];
    }
  }

  /** The top of the ranking, cut at the floor, or the fallback. */
  method PickTop(registry: Registry, scores: Scores, max: nat) returns (out: seq<Lens>)
    requires registry.Valid()
    ensures out == Picked(registry, scores, max)
  {
    hide RankedGenerals, Clearing;
    var ranked := RankAll(registry, scores);
    out := TakeClearing(ranked, max);
    if |out| == 0 {
      var fallback := registry.Get(registry.defaultLens);
      if fallback.Some? {
        out := out + [fallback.value];
      } else if |registry.generals| > 0 {
        out := out + [registry.generals[0]];
      }
    }
  }

  method Select(registry: Registry, input: SelectInput) returns (s: Selection)
    requires registry.Valid()
    ensures s == Selected(registry, input)
  {
    var max: nat := if input.max <= 0 then 1 else input.max;
    if |input.explicit| > 0 {
      var lenses := registry.Resolve(input.explicit);
      if |lenses| > max {
        lenses := lenses[..max];
      }
      if |lenses| > 0 {
        return Selection(lenses, Explicit);
      }
    }
    var seated := GeneralsOnly(registry.Resolve(input.seated));
    if |seated| > 0 {
      s := Hold(registry, input, seated, max);
      return;
    }
    var scores := AdjustScores(registry, input, max);
    var out := PickTop(registry, scores, max);
    if |out| < max {
      out := Backfill(registry, out, scores, max);
    }
    s := Selection(out, Auto);
  }
}
