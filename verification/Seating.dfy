/** What a selection answers with, said without the procedure: who keeps a seat, who takes one, who is picked fresh, and in
    which order empty seats are filled. */
module Seating {
  import opened Common
  import opened Lenses
  import opened Ranking
  import opened Scoring
  import opened Selection
  import opened RosterLaws

  function Asked(input: SelectInput): nat {
    if input.max <= 0 then 1 else input.max
  }

  /** The lenses of the conversation's roster that are generals still known, in order. */
  function SeatedLenses(registry: Registry, input: SelectInput): seq<Lens> {
    GeneralsOnly(registry.Resolve(input.seated))
  }

  /** A general from off the roster with all the keyword evidence there can be, ahead of a seated lens by one hit. */
  ghost predicate Unseats(registry: Registry, input: SelectInput, newcomer: Lens, seats: seq<Lens>, i: nat)
    requires i < |seats|
  {
    && newcomer in registry.generals && (forall s :: s in seats ==> s.id != newcomer.id)
    && Gain(newcomer, input) == 1.2
    && Fit(newcomer, input) >= Fit(seats[i], input) + 0.6
  }

  /** However few are seated: unless the person picks, every seat there is keeps its lens or goes to a general that unseats
      it.  Nothing is picked fresh in its place. */
  lemma SeatsAreHeld(registry: Registry, input: SelectInput)
    requires registry.Valid() && registry.Resolve(input.explicit) == [] && SeatedLenses(registry, input) != []
    ensures var seated, out := SeatedLenses(registry, input), Selected(registry, input);
            var n := if |seated| > Asked(input) then Asked(input) else |seated|;
            && n <= |out.lenses| && n > 0
            && (forall i :: 0 <= i < n ==>
                  out.lenses[i] == seated[i] || Unseats(registry, input, out.lenses[i], seated[..n], i))
            && out.how == if n == Asked(input) && out.lenses == seated[..n] then Sticky else Auto
  {
    hide Held, Gain;
    var seated, out := SeatedLenses(registry, input), Selected(registry, input).lenses;
    var max := Asked(input);
    var n := if |seated| > max then max else |seated|;
    ResolvedAreGenerals(registry, input.seated);
    HeldSeats(registry, input, seated, max);
    forall i | 0 <= i < n && out[i] != seated[i]
      ensures Unseats(registry, input, out[i], seated[..n], i)
    {
      assert seated[i] in seated && seated[i] in registry.generals;
      var k :| 0 <= k < |registry.generals| && registry.generals[k] == seated[i];
      ScoreTableAt(registry.generals, input, k);
      forall s | s in seated[..n] ensures s.id != out[i].id {
        var j :| 0 <= j < n && seated[..n][j] == s;
        assert seated[..n][j].id in Ids(seated[..n]);
      }
    }
  }

  /** And whoever stays on the bench with all the evidence there can be falls short, by the margin, of every seat. */
  lemma TheBenchFallsShort(registry: Registry, input: SelectInput, g: Lens, i: nat)
    requires registry.Valid() && registry.Resolve(input.explicit) == [] && SeatedLenses(registry, input) != []
    requires var seated := SeatedLenses(registry, input);
             && i < |seated| && i < Asked(input) && i < |Selected(registry, input).lenses|
    requires var n := if |SeatedLenses(registry, input)| > Asked(input) then Asked(input) else |SeatedLenses(registry, input)|;
             && g in registry.generals && Gain(g, input) == 1.2
             && forall j :: 0 <= j < n && j < |Selected(registry, input).lenses| ==> Selected(registry, input).lenses[j].id != g.id
    ensures Fit(g, input) < Fit(Selected(registry, input).lenses[i], input) + 0.6
  {
    hide Gain, Fit, Reseat, Fill, Challengers, ScoreTable, GainTable, Wanted;
    var seated, max := SeatedLenses(registry, input), Asked(input);
    var seats := if |seated| > max then seated[..max] else seated;
    var scores, gains := ScoreTable(registry.generals, input), GainTable(registry.generals, input);
    var r := Reseat(seats, {}, Challengers(registry.generals, seats, scores, gains), scores);
    var out := Selected(registry, input).lenses;
    if |r| < max {
      FillGrows(registry, r, Wanted(r), scores, max);
    }
    assert out[..|r|] == r;
    forall j | 0 <= j < |r| ensures r[j] == out[j] {
      assert out[..|r|][j] == out[j];
    }
    ResolvedAreGenerals(registry, input.seated);
    WonSeats(registry, input, seats);
    assert seats[i] in seated;
    assert r[i] in registry.generals;
    ScoresIn(registry, input, r[i]);
    ScoresIn(registry, input, g);
    IsBenched(registry, input, r, g);
    BenchedCannotBeat(registry, seats, scores, gains, Ranked(g, At(scores, g.id), g.id), r[i]);
  }

  lemma ScoresIn(registry: Registry, input: SelectInput, g: Lens)
    requires registry.Valid() && g in registry.generals
    ensures At(ScoreTable(registry.generals, input), g.id) == Fit(g, input)
    ensures At(GainTable(registry.generals, input), g.id) == Gain(g, input)
  {
    var k :| 0 <= k < |registry.generals| && registry.generals[k] == g;
    ScoreTableAt(registry.generals, input, k);
  }

  lemma IsBenched(registry: Registry, input: SelectInput, seats: seq<Lens>, g: Lens)
    requires registry.Valid() && g in registry.generals && Gain(g, input) == 1.2
    requires forall j :: 0 <= j < |seats| ==> seats[j].id != g.id
    ensures var scores, gains := ScoreTable(registry.generals, input), GainTable(registry.generals, input);
            Ranked(g, At(scores, g.id), g.id) in Challengers(registry.generals, seats, scores, gains)
  {
    hide Gain, Fit, Challengers, ScoreTable, GainTable;
    ScoresIn(registry, input, g);
    ChallengersAre(registry.generals, seats, ScoreTable(registry.generals, input), GainTable(registry.generals, input));
    assert g.id !in Ids(seats);
  }

  lemma OneGeneral(l: Lens)
    requires l.kind == General
    ensures GeneralsOnly([l]) == [l]
  {
    var rest := [l][1..];
    assert GeneralsOnly(rest) == [];
  }

  /** The case of a roster with room: generals 1 and 2 both fit the question better than 0, which was seated; 0 stays, and
      one of the others fills the other seat. */
  lemma ASittingLensIsNotDropped()
    ensures var contact := Lens(0, General, Contact, [], []);
            var scouting := Lens(1, General, Scouting, ["a"], []);
            var preservation := Lens(2, General, Preservation, ["b"], []);
            var registry := Registry([contact, scouting, preservation], map[0 := contact, 1 := scouting, 2 := preservation], 9);
            var input := SelectInput({"a", "b"}, [], [], [], [], [0], 2);
            registry.Valid() && |Selected(registry, input).lenses| >= 1 && Selected(registry, input).lenses[0] == contact
  {
    hide Held, Fresh, Fit;
    var contact := Lens(0, General, Contact, [], []);
    var scouting := Lens(1, General, Scouting, ["a"], []);
    var preservation := Lens(2, General, Preservation, ["b"], []);
    var registry := Registry([contact, scouting, preservation], map[0 := contact, 1 := scouting, 2 := preservation], 9);
    var input := SelectInput({"a", "b"}, [], [], [], [], [0], 2);
    assert [0][1..] == [] && registry.Resolve([]) == [];
    assert registry.Resolve([0]) == [contact];
    OneGeneral(contact);
    assert SeatedLenses(registry, input) == [contact];
    SeatsAreHeld(registry, input);
    forall l | l in registry.generals ensures Gain(l, input) < 1.2 {
      assert [""][..0] == [] && ["a"][..0] == [] && ["b"][..0] == [];
      assert l == contact || l == scouting || l == preservation;
      assert Evidence([], input.matched) == 0.0;
    }
  }

  /** With nobody seated the answer starts with the top of the ranking, as far as it clears the floor and there is room; if
      nobody clears it, with the fallback lens, or with the first general. */
  lemma FreshStartsWithTheTop(registry: Registry, input: SelectInput)
    requires registry.Valid() && registry.Resolve(input.explicit) == [] && SeatedLenses(registry, input) == []
    ensures var max, out := Asked(input), Selected(registry, input);
            var ranked := RankedGenerals(registry, FreshScores(registry, input, max));
            && out.how == Auto
            && (forall i :: 0 <= i < |ranked| && i < max && ranked[i].score >= 0.5 ==>
                  i < |out.lenses| && out.lenses[i] == ranked[i].item)
            && ((ranked == [] || ranked[0].score < 0.5) && registry.generals != [] ==>
                  && out.lenses != []
                  && out.lenses[0] == if registry.defaultLens in registry.byId then registry.byId[registry.defaultLens]
                                      else registry.generals[0])
  {
    hide FreshScores, RankedGenerals, Fill, Wanted;
    var max := Asked(input);
    var scores := FreshScores(registry, input, max);
    var ranked := RankedGenerals(registry, scores);
    var picked := Picked(registry, scores, max);
    PickedIsTheTop(registry, scores, max);
    PickedIsProper(registry, scores, max);
    if |picked| < max {
      FillGrows(registry, picked, Wanted(picked), scores, max);
    }
    var out := Selected(registry, input).lenses;
    assert out[..|picked|] == picked;
    forall i | 0 <= i < |ranked| && i < max && ranked[i].score >= 0.5
      ensures i < |out| && out[i] == ranked[i].item
    {
      TopScoreFirst(registry, scores, i);
      assert i < |picked|;
      assert out[..|picked|][i] == picked[i];
    }
    if (ranked == [] || ranked[0].score < 0.5) && registry.generals != [] {
      assert out[..|picked|][0] == picked[0];
    }
  }

  lemma TopScoreFirst(registry: Registry, scores: Scores, i: nat)
    requires registry.Valid() && i < |RankedGenerals(registry, scores)|
    ensures RankedGenerals(registry, scores)[0].score >= RankedGenerals(registry, scores)[i].score
  {
    var ranked := RankedGenerals(registry, scores);
    RankedGeneralsAre(registry, scores);
    if i > 0 {
      assert Before(ranked[0], ranked[i]);
    }
  }

  // ---------- The order empty seats are filled in ----------

  /** Which families argue against which, the first of each pair being answered by the second. */
  const OPPOSED: set<(Family, Family)> := {
    (Scouting, Contact), (Scouting, Preservation), (Contact, Preservation), (Contact, Scouting),
    (Endurance, Preservation), (Endurance, Adaptation), (Adaptation, Endurance), (Adaptation, Concentration),
    (Family.Systems, Contact), (Family.Systems, Adaptation), (Concentration, Scouting), (Concentration, Preservation),
    (Preservation, Contact), (Preservation, Concentration)}

  ghost predicate Answers(f: Family, lenses: seq<Lens>) {
    exists l :: l in lenses && (l.family, f) in OPPOSED
  }

  lemma ComplementsAre(a: Family, f: Family)
    ensures f in Complements(a) <==> (a, f) in OPPOSED
  {
  }

  lemma {:induction false} OpposingAre(chosen: seq<Lens>, f: Family)
    ensures f in Opposing(chosen) <==> Answers(f, chosen)
  {
    if chosen != [] {
      hide Complements;
      var n := |chosen| - 1;
      assert chosen == chosen[..n] + [chosen[n]];
      OpposingAre(chosen[..n], f);
      ComplementsAre(chosen[n].family, f);
      if Answers(f, chosen[..n]) {
        var l :| l in chosen[..n] && (l.family, f) in OPPOSED;
        assert l in chosen;
      }
      if (chosen[n].family, f) in OPPOSED {
        assert chosen[n] in chosen;
      }
    }
  }

  /** A family that needs no more lenses: represented, or with all its generals used. */
  ghost predicate Served(registry: Registry, f: Family, lenses: seq<Lens>) {
    f in Families(lenses) || forall g :: g in registry.generals && g.family == f ==> g.id in Ids(lenses)
  }

  lemma ServedStays(registry: Registry, f: Family, a: seq<Lens>, b: seq<Lens>)
    requires Served(registry, f, a) && |a| <= |b| && b[..|a|] == a
    ensures Served(registry, f, b)
  {
    PrefixSubsets(a, b);
  }

  /** Some place in the list of wanted families is this one, and everything before it is served. */
  ghost predicate InTurn(registry: Registry, f: Family, wanted: seq<Family>, before: seq<Lens>) {
    exists k :: 0 <= k < |wanted| && wanted[k] == f && forall j :: 0 <= j < k ==> Served(registry, wanted[j], before)
  }

  lemma TurnAfter(registry: Registry, f: Family, wanted: seq<Family>, before: seq<Lens>)
    requires wanted != [] && Served(registry, wanted[0], before) && InTurn(registry, f, wanted[1..], before)
    ensures InTurn(registry, f, wanted, before)
  {
    hide Served;
    var k :| 0 <= k < |wanted[1..]| && wanted[1..][k] == f && forall j :: 0 <= j < k ==> Served(registry, wanted[1..][j], before);
    forall j | 0 <= j < k + 1 ensures Served(registry, wanted[j], before) {
      if j > 0 {
        assert wanted[1..][j - 1] == wanted[j];
      }
    }
    assert wanted[k + 1] == f;
  }

  lemma {:induction false} FillTakesTurns(registry: Registry, chosen: seq<Lens>, wanted: seq<Family>, scores: Scores, max: nat)
    requires |chosen| <= max
    ensures var out := Fill(registry, chosen, wanted, scores, max);
            |chosen| <= |out| && forall i :: |chosen| <= i < |out| ==> InTurn(registry, out[i].family, wanted, out[..i])
    decreases |wanted|
  {
    FillGrows(registry, chosen, wanted, scores, max);
    if wanted != [] && |chosen| != max {
      var best := if wanted[0] in Families(chosen) then None
                  else BestIn(registry.generals, wanted[0], Ids(chosen), scores);
      var next := if best.Some? then chosen + [best.value] else chosen;
      var out := Fill(registry, chosen, wanted, scores, max);
      assert out == Fill(registry, next, wanted[1..], scores, max);
      FillTakesTurns(registry, next, wanted[1..], scores, max);
      FillGrows(registry, next, wanted[1..], scores, max);
      FirstIsServed(registry, chosen, next, wanted[0], scores);
      hide Fill, BestIn, Served, InTurn, Families, Ids;
      forall i | |chosen| <= i < |out|
        ensures InTurn(registry, out[i].family, wanted, out[..i])
      {
        if i < |next| {
          assert out[..|next|] == next && out[i] == next[i];
          FirstInTurn(registry, wanted, out[..i]);
        } else {
          assert out[..i][..|next|] == out[..|next|];
          ServedStays(registry, wanted[0], next, out[..i]);
          TurnAfter(registry, out[i].family, wanted, out[..i]);
        }
      }
    }
  }

  lemma FirstInTurn(registry: Registry, wanted: seq<Family>, before: seq<Lens>)
    requires wanted != []
    ensures InTurn(registry, wanted[0], wanted, before)
  {
  }

  lemma FirstIsServed(registry: Registry, chosen: seq<Lens>, next: seq<Lens>, f: Family, scores: Scores)
    requires var best := if f in Families(chosen) then None else BestIn(registry.generals, f, Ids(chosen), scores);
             next == if best.Some? then chosen + [best.value] else chosen
    ensures Served(registry, f, next)
    ensures |next| > |chosen| ==> next[|chosen|].family == f
  {
    if f !in Families(chosen) {
      var best := BestIn(registry.generals, f, Ids(chosen), scores);
      if best.Some? {
        IdsAppend(chosen, best.value);
      } else {
        forall g | g in registry.generals && g.family == f ensures g.id in Ids(chosen) {
          assert !Eligible(g, f, Ids(chosen));
        }
      }
    }
  }

  /** Families that argue against the lenses chosen come first: a seat goes to any other only when each of them is
      represented or has nobody left. */
  lemma OpponentsComeFirst(registry: Registry, chosen: seq<Lens>, scores: Scores, max: nat, i: nat, f: Family)
    requires |chosen| <= max && |chosen| <= i < |Backfilled(registry, chosen, scores, max)|
    requires !Answers(Backfilled(registry, chosen, scores, max)[i].family, chosen) && Answers(f, chosen)
    ensures Served(registry, f, Backfilled(registry, chosen, scores, max)[..i])
  {
    hide Fill, Served, Opposing, Answers;
    var out := Backfilled(registry, chosen, scores, max);
    var wanted := Wanted(chosen);
    FillTakesTurns(registry, chosen, wanted, scores, max);
    assert InTurn(registry, out[i].family, wanted, out[..i]);
    var k :| 0 <= k < |wanted| && wanted[k] == out[i].family && forall j :: 0 <= j < k ==> Served(registry, wanted[j], out[..i]);
    OpposingAre(chosen, out[i].family);
    OpposingAre(chosen, f);
    var j :| 0 <= j < |Opposing(chosen)| && Opposing(chosen)[j] == f;
    assert wanted[j] == f;
    assert forall x :: 0 <= x < |Opposing(chosen)| ==> wanted[x] in Opposing(chosen);
  }

  // ---------- Ties ----------

  /** The best of a family scores highest of those unused, and has the smallest identifier of those that score as much. */
  lemma BestInIs(generals: seq<Lens>, family: Family, taken: set<Id>, scores: Scores)
    ensures var best := BestIn(generals, family, taken, scores);
            && (best.Some? <==> exists g :: g in generals && g.family == family && g.id !in taken)
            && (best.Some? ==>
                  && best.value in generals && best.value.family == family && best.value.id !in taken
                  && forall g :: g in generals && g.family == family && g.id !in taken ==>
                       At(scores, g.id) < At(scores, best.value.id)
                       || (At(scores, g.id) == At(scores, best.value.id) && best.value.id <= g.id))
  {
    var best := BestIn(generals, family, taken, scores);
    hide BestIn;
    if best.Some? {
      forall g | g in generals && g.family == family && g.id !in taken
        ensures At(scores, g.id) < At(scores, best.value.id)
                || (At(scores, g.id) == At(scores, best.value.id) && best.value.id <= g.id)
      {
        assert Eligible(g, family, taken) && !Better(g, best.value, scores);
      }
    } else {
      forall g | g in generals ensures !(g.family == family && g.id !in taken) {
        assert !Eligible(g, family, taken);
      }
    }
  }

  /** Of seats that score equally low the last is the one contested. */
  lemma {:induction false} WeakestIsTheLast(roster: seq<Lens>, arrived: set<Id>, scores: Scores, n: nat)
    requires n <= |roster|
    ensures var w := Weakest(roster, arrived, scores, n);
            w >= 0 ==> forall i :: w < i < n && roster[i].id !in arrived ==> At(scores, roster[i].id) > At(scores, roster[w].id)
  {
    if n > 0 { WeakestIsTheLast(roster, arrived, scores, n - 1); }
  }

  // ---------- What a lens scores ----------

  /** How many of its routing phrases the question says. */
  function Hits(keywords: seq<string>, matched: set<string>): nat {
    if keywords == [] then 0
    else Hits(keywords[..|keywords| - 1], matched) + (if keywords[|keywords| - 1] in matched then 1 else 0)
  }

  lemma {:induction false} EvidenceIsHits(keywords: seq<string>, matched: set<string>)
    ensures Evidence(keywords, matched) == Hits(keywords, matched) as real * 0.6
  {
    if keywords != [] { EvidenceIsHits(keywords[..|keywords| - 1], matched); }
  }

  /** One for a lens the mode starts from, 0.6 for each phrase that is said up to two of them, and 0.3 for a family the mode
      leans to. */
  lemma FitIs(lens: Lens, input: SelectInput)
    ensures Gain(lens, input) == var h := Hits(lens.keywords, input.matched); if h >= 2 then 1.2 else h as real * 0.6
    ensures Fit(lens, input)
            == (if lens.id in input.defaults then 1.0 else 0.0) + Gain(lens, input)
               + (if lens.family in input.families then 0.3 else 0.0)
  {
    EvidenceIsHits(lens.keywords, input.matched);
    if lens.family in input.families {
      assert |input.families| > 0;
    }
  }

  /** A fresh pick ranks by fit, a quarter less for a lens just used and half more each time the leader names it a rival,
      the leader being the best general before rivals count; with room for one only, rivals do not count. */
  lemma FreshScoreIs(registry: Registry, input: SelectInput, max: nat, k: nat)
    requires registry.Valid() && k < |registry.generals|
    ensures var g := registry.generals[k];
            var ranked := RankedGenerals(registry, Penalised(registry.generals, input.recentlyUsed, ScoreTable(registry.generals, input)));
            var named := if max >= 2 && ranked != [] then Occurrences(ranked[0].item.rivals, g.id) else 0;
            At(FreshScores(registry, input, max), g.id)
            == Fit(g, input) - (if g.id in input.recentlyUsed then 0.25 else 0.0) + named as real * 0.5
  {
    hide Fit, FreshScores;
    FreshScoreAt(registry, input, max, k);
  }

  // ---------- Names ----------

  lemma {:induction false} ResolveAppend(registry: Registry, ids: seq<Id>, id: Id)
    ensures registry.Resolve(ids + [id])
            == registry.Resolve(ids) + if id in registry.byId then [registry.byId[id]] else []
  {
    var all := ids + [id];
    if ids == [] {
      assert all[1..] == [] && registry.Resolve([]) == [];
    } else {
      assert all[1..] == ids[1..] + [id];
      ResolveAppend(registry, ids[1..], id);
    }
  }

  lemma GeneralsFirst(lenses: seq<Lens>)
    requires lenses != []
    ensures GeneralsOnly(lenses) == (if lenses[0].kind == General then [lenses[0]] else []) + GeneralsOnly(lenses[1..])
  {
  }

  lemma {:induction false} GeneralsAppend(lenses: seq<Lens>, l: Lens)
    ensures GeneralsOnly(lenses + [l]) == GeneralsOnly(lenses) + if l.kind == General then [l] else []
  {
    var all := lenses + [l];
    GeneralsFirst(all);
    if lenses == [] {
      assert all[1..] == [] && GeneralsOnly(all[1..]) == [];
    } else {
      GeneralsFirst(lenses);
      hide GeneralsOnly;
      assert all[1..] == lenses[1..] + [l];
      GeneralsAppend(lenses[1..], l);
    }
  }

  /** Names are taken in order: one more name adds its lens at the end of the roster if it is known and a general, and
      nothing otherwise. */
  lemma NamesInOrder(registry: Registry, ids: seq<Id>, id: Id)
    ensures registry.Resolve([]) == [] && GeneralsOnly(registry.Resolve([])) == []
    ensures registry.Resolve(ids + [id]) == registry.Resolve(ids) + if id in registry.byId then [registry.byId[id]] else []
    ensures GeneralsOnly(registry.Resolve(ids + [id]))
            == GeneralsOnly(registry.Resolve(ids))
               + if id in registry.byId && registry.byId[id].kind == General then [registry.byId[id]] else []
  {
    ResolveAppend(registry, ids, id);
    if id in registry.byId {
      GeneralsAppend(registry.Resolve(ids), registry.byId[id]);
    } else {
      assert registry.Resolve(ids) + [] == registry.Resolve(ids);
    }
  }
}
