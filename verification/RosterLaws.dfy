/** What selection guarantees: a held roster is a fixpoint, stopping early loses nothing, and a fresh pick is
    the top of the ranking filled with unrepresented families. */
module RosterLaws {
  import opened Common
  import opened Lenses
  import opened Ranking
  import opened Scoring
  import opened Selection

  // ---------- The contest for seats ----------

  /** Challengers in contest order, none of them already on the roster, rated by the table. */
  ghost predicate Lined(roster: seq<Lens>, cs: seq<Ranked<Lens>>, scores: Scores) {
    && StrictlySorted(cs)
    && forall c :: c in cs ==> c.id == c.item.id && c.score == At(scores, c.id) && c.id !in Ids(roster)
  }

  /** Lenses that arrived earlier outrank everyone still waiting. */
  ghost predicate ArrivedOutrank(roster: seq<Lens>, arrived: set<Id>, cs: seq<Ranked<Lens>>, scores: Scores) {
    forall i, c :: 0 <= i < |roster| && roster[i].id in arrived && c in cs ==> At(scores, roster[i].id) >= c.score
  }

  lemma NextRound(roster: seq<Lens>, arrived: set<Id>, cs: seq<Ranked<Lens>>, scores: Scores)
    requires Lined(roster, cs, scores) && ArrivedOutrank(roster, arrived, cs, scores)
    requires cs != [] && TakesSeat(roster, arrived, cs[0], scores)
    ensures var w := Weakest(roster, arrived, scores, |roster|);
            var roster' := roster[w := cs[0].item];
            && Lined(roster', cs[1..], scores)
            && ArrivedOutrank(roster', arrived + {cs[0].id}, cs[1..], scores)
  {
    var w := Weakest(roster, arrived, scores, |roster|);
    var roster' := roster[w := cs[0].item];
    forall c | c in cs[1..] ensures c in cs && Before(cs[0], c) && c.id !in Ids(roster') {
      assert Before(cs[0], c);
      assert c.score == At(scores, c.id) && cs[0].score == At(scores, cs[0].id);
      forall i | 0 <= i < |roster'| ensures roster'[i].id != c.id {
        if i != w { assert roster[i].id in Ids(roster); }
      }
    }
  }

  /** Passing over a failing challenger instead of stopping changes nothing: no later one could take a seat. */
  lemma {:induction false} StoppingEarlyLosesNothing(
    roster: seq<Lens>, arrived: set<Id>, cs: seq<Ranked<Lens>>, scores: Scores)
    requires Sorted(cs)
    ensures ReseatTryingAll(roster, arrived, cs, scores) == Reseat(roster, arrived, cs, scores)
    decreases |cs|
  {
    if cs != [] {
      if TakesSeat(roster, arrived, cs[0], scores) {
        var w := Weakest(roster, arrived, scores, |roster|);
        StoppingEarlyLosesNothing(roster[w := cs[0].item], arrived + {cs[0].item.id}, cs[1..], scores);
      } else {
        StoppingEarlyLosesNothing(roster, arrived, cs[1..], scores);
        if |cs| > 1 {
          assert !Before(cs[1], cs[0]);
          assert cs[1..][0] == cs[1];
        }
      }
    }
  }

  /** Every seat keeps its lens or goes to a challenger that beats that lens by the margin. */
  lemma {:induction false} SeatsKeptOrWon(roster: seq<Lens>, arrived: set<Id>, cs: seq<Ranked<Lens>>, scores: Scores)
    requires Lined(roster, cs, scores) && ArrivedOutrank(roster, arrived, cs, scores)
    ensures var r := Reseat(roster, arrived, cs, scores);
            forall i :: 0 <= i < |r| ==>
              || r[i] == roster[i]
              || exists c :: && c in cs && r[i] == c.item && roster[i].id !in arrived
                             && c.score >= At(scores, roster[i].id) + CHALLENGE_MARGIN
    decreases |cs|
  {
    if cs != [] && TakesSeat(roster, arrived, cs[0], scores) {
      var w := Weakest(roster, arrived, scores, |roster|);
      var roster' := roster[w := cs[0].item];
      NextRound(roster, arrived, cs, scores);
      SeatsKeptOrWon(roster', arrived + {cs[0].id}, cs[1..], scores);
      assert cs[0] in cs;
      assert forall c :: c in cs[1..] ==> c in cs;
    }
  }

  lemma {:induction false} SeatsStayDistinct(roster: seq<Lens>, arrived: set<Id>, cs: seq<Ranked<Lens>>, scores: Scores)
    requires Lined(roster, cs, scores) && ArrivedOutrank(roster, arrived, cs, scores) && DistinctLenses(roster)
    ensures DistinctLenses(Reseat(roster, arrived, cs, scores))
    decreases |cs|
  {
    if cs != [] && TakesSeat(roster, arrived, cs[0], scores) {
      var w := Weakest(roster, arrived, scores, |roster|);
      assert cs[0] in cs;
      assert forall i :: 0 <= i < |roster| ==> roster[i].id in Ids(roster);
      NextRound(roster, arrived, cs, scores);
      SeatsStayDistinct(roster[w := cs[0].item], arrived + {cs[0].id}, cs[1..], scores);
    }
  }

  /** A bound on every seat survives the contest. */
  lemma {:induction false} FloorHolds(
    roster: seq<Lens>, arrived: set<Id>, cs: seq<Ranked<Lens>>, scores: Scores, floor: real)
    requires Lined(roster, cs, scores) && ArrivedOutrank(roster, arrived, cs, scores)
    requires forall i :: 0 <= i < |roster| ==> At(scores, roster[i].id) >= floor
    ensures forall l :: l in Reseat(roster, arrived, cs, scores) ==> At(scores, l.id) >= floor
    decreases |cs|
  {
    if cs != [] && TakesSeat(roster, arrived, cs[0], scores) {
      var w := Weakest(roster, arrived, scores, |roster|);
      assert cs[0] in cs;
      NextRound(roster, arrived, cs, scores);
      FloorHolds(roster[w := cs[0].item], arrived + {cs[0].id}, cs[1..], scores, floor);
    }
  }

  /** No challenger left out could take any seat of the outcome. */
  lemma {:induction false} LeftOutCannotChallenge(
    roster: seq<Lens>, arrived: set<Id>, cs: seq<Ranked<Lens>>, scores: Scores)
    requires Lined(roster, cs, scores) && ArrivedOutrank(roster, arrived, cs, scores)
    ensures var r := Reseat(roster, arrived, cs, scores);
            forall c, l :: c in cs && c.id !in Ids(r) && l in r ==> c.score < At(scores, l.id) + CHALLENGE_MARGIN
    decreases |cs|
  {
    var r := Reseat(roster, arrived, cs, scores);
    if cs == [] {
    } else if TakesSeat(roster, arrived, cs[0], scores) {
      var w := Weakest(roster, arrived, scores, |roster|);
      var roster' := roster[w := cs[0].item];
      NextRound(roster, arrived, cs, scores);
      LeftOutCannotChallenge(roster', arrived + {cs[0].id}, cs[1..], scores);
      ArrivedStay(roster', arrived + {cs[0].id}, cs[1..], scores, w);
      assert r[w].id in Ids(r);
      assert forall c :: c in cs ==> c == cs[0] || c in cs[1..];
    } else {
      forall c, l | c in cs && l in r ensures c.score < At(scores, l.id) + CHALLENGE_MARGIN {
        assert !Before(c, cs[0]);
        var i :| 0 <= i < |roster| && roster[i] == l;
      }
    }
  }

  lemma {:induction false} ArrivedStay(
    roster: seq<Lens>, arrived: set<Id>, cs: seq<Ranked<Lens>>, scores: Scores, seat: nat)
    requires seat < |roster| && roster[seat].id in arrived
    ensures Reseat(roster, arrived, cs, scores)[seat] == roster[seat]
    decreases |cs|
  {
    if cs != [] && TakesSeat(roster, arrived, cs[0], scores) {
      var w := Weakest(roster, arrived, scores, |roster|);
      ArrivedStay(roster[w := cs[0].item], arrived + {cs[0].item.id}, cs[1..], scores, seat);
    }
  }

  /** No lens that lost its seat outscores anyone in the outcome. */
  lemma {:induction false} UnseatedAreWeakest(
    roster: seq<Lens>, arrived: set<Id>, cs: seq<Ranked<Lens>>, scores: Scores)
    requires Lined(roster, cs, scores) && ArrivedOutrank(roster, arrived, cs, scores)
    ensures var r := Reseat(roster, arrived, cs, scores);
            forall u, l :: u in roster && u.id !in Ids(r) && l in r ==> At(scores, u.id) <= At(scores, l.id)
    decreases |cs|
  {
    if cs != [] && TakesSeat(roster, arrived, cs[0], scores) {
      var w := Weakest(roster, arrived, scores, |roster|);
      var roster' := roster[w := cs[0].item];
      var low := At(scores, roster[w].id);
      assert cs[0] in cs;
      NextRound(roster, arrived, cs, scores);
      UnseatedAreWeakest(roster', arrived + {cs[0].id}, cs[1..], scores);
      FloorHolds(roster', arrived + {cs[0].id}, cs[1..], scores, low);
      forall u | u in roster && u != roster[w] ensures u in roster' {
        var i :| 0 <= i < |roster| && roster[i] == u;
        assert roster'[i] == u;
      }
    } else {
      forall u | u in roster ensures u.id in Ids(roster) {
        var i :| 0 <= i < |roster| && roster[i] == u;
      }
    }
  }

  // ---------- Holding a roster ----------

  lemma ChallengersLined(registry: Registry, roster: seq<Lens>, scores: Scores, gains: Scores)
    requires registry.Valid()
    ensures Lined(roster, Challengers(registry.generals, roster, scores, gains), scores)
    ensures ArrivedOutrank(roster, {}, Challengers(registry.generals, roster, scores, gains), scores)
  {
    ChallengersAre(registry.generals, roster, scores, gains);
  }

  /** Whoever still sits on the bench after a contest cannot challenge its outcome. */
  lemma NobodyChallengesTheOutcome(registry: Registry, seats: seq<Lens>, scores: Scores, gains: Scores)
    requires registry.Valid()
    ensures var r := Reseat(seats, {}, Challengers(registry.generals, seats, scores, gains), scores);
            Reseat(r, {}, Challengers(registry.generals, r, scores, gains), scores) == r
  {
    hide Challengers;
    var r := Reseat(seats, {}, Challengers(registry.generals, seats, scores, gains), scores);
    var again := Challengers(registry.generals, r, scores, gains);
    if again != [] {
      var w := Weakest(r, {}, scores, |r|);
      assert again[0] in again;
      if w >= 0 {
        assert r[w] in r;
        BenchedCannotBeat(registry, seats, scores, gains, again[0], r[w]);
      }
    }
  }

  lemma BenchedCannotBeat(
    registry: Registry, seats: seq<Lens>, scores: Scores, gains: Scores, benched: Ranked<Lens>, sitting: Lens)
    requires registry.Valid()
    requires var r := Reseat(seats, {}, Challengers(registry.generals, seats, scores, gains), scores);
             benched in Challengers(registry.generals, r, scores, gains) && sitting in r
    ensures benched.score < At(scores, sitting.id) + CHALLENGE_MARGIN
  {
    var cs := Challengers(registry.generals, seats, scores, gains);
    var r := Reseat(seats, {}, cs, scores);
    ChallengersLined(registry, seats, scores, gains);
    ChallengersAre(registry.generals, seats, scores, gains);
    ChallengersAre(registry.generals, r, scores, gains);
    hide Challengers, Reseat, Lined, ArrivedOutrank;
    if benched.id in Ids(seats) {
      var i :| 0 <= i < |seats| && seats[i].id == benched.id;
      assert seats[i] in seats;
      UnseatedAreWeakest(seats, {}, cs, scores);
    } else {
      assert benched in cs;
      LeftOutCannotChallenge(seats, {}, cs, scores);
    }
  }

  /** Holding a full roster twice on the same question is holding it once: same lenses, and now "sticky".
      `seated` may repeat a lens; what matters is that the seats reach `max`. */
  lemma HeldIsAFixpoint(registry: Registry, input: SelectInput, seated: seq<Lens>, max: nat)
    requires registry.Valid()
    requires |seated| >= max
    ensures var first := Held(registry, input, seated, max);
            Held(registry, input, first.lenses, max) == Selection(first.lenses, Sticky)
  {
    var scores := ScoreTable(registry.generals, input);
    var gains := GainTable(registry.generals, input);
    var seats := if |seated| > max then seated[..max] else seated;
    NobodyChallengesTheOutcome(registry, seats, scores, gains);
  }

  /** Nobody off the roster has full keyword evidence and beats one of its lenses by the margin. */
  ghost predicate Unchallenged(registry: Registry, input: SelectInput, roster: seq<Lens>) {
    forall g, l :: g in registry.generals && g.id !in Ids(roster) && Gain(g, input) == MAX_KEYWORD_GAIN && l in roster ==>
      Fit(g, input) < At(ScoreTable(registry.generals, input), l.id) + CHALLENGE_MARGIN
  }

  /** Seats short of `max` are filled after the contest, and a filled seat was never contested.  Then holding again
      keeps the lenses exactly when nobody on the bench can challenge the filled roster. */
  lemma HeldAgainIff(registry: Registry, input: SelectInput, seated: seq<Lens>, max: nat)
    requires registry.Valid()
    ensures var first := Held(registry, input, seated, max).lenses;
            Held(registry, input, first, max).lenses == first <==> Unchallenged(registry, input, first)
  {
    HeldSeats(registry, input, seated, max);
    var first := Held(registry, input, seated, max).lenses;
    if |first| < max {
      FillingAgainAddsNothing(registry, input, seated, max);
    }
    HeldUnchangedIff(registry, input, first, max);
  }

  ghost predicate Contested(registry: Registry, input: SelectInput, roster: seq<Lens>) {
    var scores := ScoreTable(registry.generals, input);
    var cs := Challengers(registry.generals, roster, scores, GainTable(registry.generals, input));
    cs != [] && TakesSeat(roster, {}, cs[0], scores)
  }

  lemma HeldUnchangedIff(registry: Registry, input: SelectInput, roster: seq<Lens>, max: nat)
    requires registry.Valid() && |roster| <= max
    requires |roster| < max ==> Backfilled(registry, roster, ScoreTable(registry.generals, input), max) == roster
    ensures Held(registry, input, roster, max).lenses == roster <==> Unchallenged(registry, input, roster)
  {
    if !Unchallenged(registry, input, roster) {
      ChallengedIsContested(registry, input, roster);
    }
    if Contested(registry, input, roster) {
      ContestedIsChallenged(registry, input, roster);
      ContestedChanges(registry, input, roster, max);
    }
  }

  lemma ContestedChanges(registry: Registry, input: SelectInput, roster: seq<Lens>, max: nat)
    requires registry.Valid() && |roster| <= max && Contested(registry, input, roster)
    ensures Held(registry, input, roster, max).lenses != roster
  {
    var scores := ScoreTable(registry.generals, input);
    var gains := GainTable(registry.generals, input);
    var cs := Challengers(registry.generals, roster, scores, gains);
    ChallengersAre(registry.generals, roster, scores, gains);
    var again := Reseat(roster, {}, cs, scores);
    var w := Weakest(roster, {}, scores, |roster|);
    ArrivedStay(roster[w := cs[0].item], {} + {cs[0].item.id}, cs[1..], scores, w);
    assert cs[0] in cs && roster[w].id in Ids(roster);
    assert again[w] != roster[w];
    if |again| < max {
      FillGrows(registry, again, Wanted(again), scores, max);
    }
  }

  lemma TablesHold(registry: Registry, input: SelectInput)
    requires registry.Valid()
    ensures forall g :: g in registry.generals ==>
              && At(ScoreTable(registry.generals, input), g.id) == Fit(g, input)
              && At(GainTable(registry.generals, input), g.id) == Gain(g, input)
  {
    forall k | 0 <= k < |registry.generals|
      ensures At(ScoreTable(registry.generals, input), registry.generals[k].id) == Fit(registry.generals[k], input)
      ensures At(GainTable(registry.generals, input), registry.generals[k].id) == Gain(registry.generals[k], input)
    {
      ScoreTableAt(registry.generals, input, k);
    }
  }

  lemma ContestedIsChallenged(registry: Registry, input: SelectInput, roster: seq<Lens>)
    requires registry.Valid() && Contested(registry, input, roster)
    ensures !Unchallenged(registry, input, roster)
  {
    var scores := ScoreTable(registry.generals, input);
    var gains := GainTable(registry.generals, input);
    var cs := Challengers(registry.generals, roster, scores, gains);
    TablesHold(registry, input);
    ChallengersAre(registry.generals, roster, scores, gains);
    var w := Weakest(roster, {}, scores, |roster|);
    assert cs[0] in cs && roster[w] in roster;
  }

  lemma ChallengedIsContested(registry: Registry, input: SelectInput, roster: seq<Lens>)
    requires registry.Valid() && !Unchallenged(registry, input, roster)
    ensures Contested(registry, input, roster)
  {
    var scores := ScoreTable(registry.generals, input);
    var gains := GainTable(registry.generals, input);
    var cs := Challengers(registry.generals, roster, scores, gains);
    TablesHold(registry, input);
    ChallengersAre(registry.generals, roster, scores, gains);
    var g, l :| && g in registry.generals && g.id !in Ids(roster) && Gain(g, input) == MAX_KEYWORD_GAIN && l in roster
                && Fit(g, input) >= At(scores, l.id) + CHALLENGE_MARGIN;
    var challenger := Ranked(g, At(scores, g.id), g.id);
    assert challenger in cs;
    var i :| 0 <= i < |cs| && cs[i] == challenger;
    assert !Before(cs[i], cs[0]);
    var j :| 0 <= j < |roster| && roster[j] == l;
  }

  /** A roster that came back short has nothing left to add, whichever order its families are tried in. */
  lemma FillingAgainAddsNothing(registry: Registry, input: SelectInput, seated: seq<Lens>, max: nat)
    requires registry.Valid()
    requires |Held(registry, input, seated, max).lenses| < max
    ensures var scores := ScoreTable(registry.generals, input);
            var out := Held(registry, input, seated, max).lenses;
            Backfilled(registry, out, scores, max) == out
  {
    var scores := ScoreTable(registry.generals, input);
    var seats := if |seated| > max then seated[..max] else seated;
    var roster := Reseat(seats, {}, Challengers(registry.generals, seats, scores, GainTable(registry.generals, input)), scores);
    var out := Held(registry, input, seated, max).lenses;
    if |roster| < max {
      ShortOnlyWhenExhausted(registry, roster, Wanted(roster), scores, max);
      forall f | f in ALL_FAMILIES ensures f in Wanted(roster) {}
    }
    forall f | f in Wanted(out) ensures f in ALL_FAMILIES { OpposingIsListed(out); }
    NothingToFill(registry, out, Wanted(out), scores, max);
  }

  lemma {:induction false} OpposingIsListed(chosen: seq<Lens>)
    ensures forall f :: f in Opposing(chosen) ==> f in ALL_FAMILIES
  {
    if chosen != [] { OpposingIsListed(chosen[..|chosen| - 1]); }
  }

  lemma {:induction false} NothingToFill(
    registry: Registry, chosen: seq<Lens>, wanted: seq<Family>, scores: Scores, max: nat)
    requires forall f :: f in wanted ==>
               f in Families(chosen) || forall g :: g in registry.generals && g.family == f ==> g.id in Ids(chosen)
    ensures Fill(registry, chosen, wanted, scores, max) == chosen
    decreases |wanted|
  {
    if wanted != [] && |chosen| != max {
      assert wanted[0] in wanted;
      NothingToFill(registry, chosen, wanted[1..], scores, max);
    }
  }

  // A roster of three in which a filled seat is lost on the second hold.
  const SEEDED := Lens(0, General, Contact, [], [])
  const STRONG := Lens(1, General, Contact, ["a", "b"], [])
  const QUIET := Lens(2, General, Preservation, [], [])
  const SMALL := Registry([SEEDED, STRONG, QUIET], map[0 := SEEDED, 1 := STRONG, 2 := QUIET], 0)
  const FOLLOW_UP := SelectInput({"a", "b"}, [], [0], [], [], [0], 2)

  lemma SmallScores()
    ensures SMALL.Valid()
    ensures Gain(STRONG, FOLLOW_UP) == MAX_KEYWORD_GAIN && Fit(STRONG, FOLLOW_UP) == 1.2
    ensures At(ScoreTable(SMALL.generals, FOLLOW_UP), 0) == 1.0
    ensures At(ScoreTable(SMALL.generals, FOLLOW_UP), 2) == 0.0
    ensures Gain(SEEDED, FOLLOW_UP) == 0.0 && Gain(QUIET, FOLLOW_UP) == 0.0
  {
    assert STRONG.keywords[..1] == ["a"] && ["a"][..0] == [];
    ScoreTableAt(SMALL.generals, FOLLOW_UP, 0);
    ScoreTableAt(SMALL.generals, FOLLOW_UP, 2);
  }

  lemma SmallFilled(scores: Scores)
    ensures Backfilled(SMALL, [SEEDED], scores, 2) == [SEEDED, QUIET]
  {
    assert Opposing([SEEDED]) == [Preservation, Scouting] by { assert [SEEDED][..0] == []; }
    assert Families([SEEDED]) == {Contact} && Ids([SEEDED]) == {0};
    var best := BestIn(SMALL.generals, Preservation, Ids([SEEDED]), scores);
    assert QUIET in SMALL.generals && Eligible(QUIET, Preservation, Ids([SEEDED]));
    assert forall g :: g in SMALL.generals && g.family == Preservation ==> g == QUIET;
    assert best == Some(QUIET);
    var wanted := Wanted([SEEDED]);
    assert wanted[0] == Preservation;
    assert Fill(SMALL, [SEEDED], wanted, scores, 2) == Fill(SMALL, [SEEDED, QUIET], wanted[1..], scores, 2);
  }

  lemma SmallHeld()
    ensures Held(SMALL, FOLLOW_UP, [SEEDED], 2).lenses == [SEEDED, QUIET]
  {
    SmallScores();
    if Contested(SMALL, FOLLOW_UP, [SEEDED]) {
      ContestedIsChallenged(SMALL, FOLLOW_UP, [SEEDED]);
    }
    SmallFilled(ScoreTable(SMALL.generals, FOLLOW_UP));
  }

  /** So without enough seats a second hold can change the roster: the contest passes over a strong bench lens that
      cannot beat the seeded one, the filler then seats an unscored lens, and next time the strong one unseats it. */
  lemma FilledSeatCanBeLost()
    ensures SMALL.Valid()
    ensures var first := Held(SMALL, FOLLOW_UP, [SEEDED], 2).lenses;
            first == [SEEDED, QUIET] && Held(SMALL, FOLLOW_UP, first, 2).lenses != first
  {
    SmallScores();
    SmallHeld();
    HeldAgainIff(SMALL, FOLLOW_UP, [SEEDED], 2);
    assert STRONG in SMALL.generals && QUIET in [SEEDED, QUIET];
  }

  lemma FirstAreDistinct(lenses: seq<Lens>, n: nat)
    requires n <= |lenses| && DistinctLenses(lenses)
    ensures DistinctLenses(lenses[..n])
  {
  }

  lemma WonSeats(registry: Registry, input: SelectInput, seats: seq<Lens>)
    requires registry.Valid()
    ensures var scores, gains := ScoreTable(registry.generals, input), GainTable(registry.generals, input);
            var r := Reseat(seats, {}, Challengers(registry.generals, seats, scores, gains), scores);
            && (forall i :: 0 <= i < |seats| && r[i] != seats[i] ==>
                  && r[i] in registry.generals && r[i].id !in Ids(seats) && Gain(r[i], input) == MAX_KEYWORD_GAIN
                  && Fit(r[i], input) >= At(scores, seats[i].id) + CHALLENGE_MARGIN)
            && (DistinctLenses(seats) ==> DistinctLenses(r))
  {
    var scores, gains := ScoreTable(registry.generals, input), GainTable(registry.generals, input);
    var cs := Challengers(registry.generals, seats, scores, gains);
    var r := Reseat(seats, {}, cs, scores);
    ChallengersLined(registry, seats, scores, gains);
    ChallengersAre(registry.generals, seats, scores, gains);
    SeatsKeptOrWon(seats, {}, cs, scores);
    if DistinctLenses(seats) {
      SeatsStayDistinct(seats, {}, cs, scores);
    }
    hide Challengers, Reseat, DistinctLenses;
    forall i | 0 <= i < |seats| && r[i] != seats[i]
      ensures && r[i] in registry.generals && r[i].id !in Ids(seats) && Gain(r[i], input) == MAX_KEYWORD_GAIN
              && Fit(r[i], input) >= At(scores, seats[i].id) + CHALLENGE_MARGIN
    {
      var k :| 0 <= k < |registry.generals| && registry.generals[k] == r[i];
      ScoreTableAt(registry.generals, input, k);
    }
  }

  /** What one hold does to each seat: a replaced lens lost by the margin to a general from off the bench with
      the most keyword evidence there is; every other seat keeps its lens in place. */
  lemma HeldSeats(registry: Registry, input: SelectInput, seated: seq<Lens>, max: nat)
    requires registry.Valid()
    ensures var s := Held(registry, input, seated, max);
            var n := if |seated| > max then max else |seated|;
            && n <= |s.lenses| <= max
            && (forall i :: 0 <= i < n && s.lenses[i] != seated[i] ==>
                  && s.lenses[i] in registry.generals
                  && s.lenses[i].id !in Ids(seated[..n])
                  && Gain(s.lenses[i], input) == MAX_KEYWORD_GAIN
                  && Fit(s.lenses[i], input) >= At(ScoreTable(registry.generals, input), seated[i].id) + CHALLENGE_MARGIN)
            && (s.how == Sticky <==> s.lenses == seated[..n] && n == max)
            && (s.how == Sticky || s.how == Auto)
            && (DistinctLenses(seated) ==> DistinctLenses(s.lenses))
  {
    hide Fill, Challengers, Reseat, ScoreTable, GainTable, Fit, Gain, Ids, DistinctLenses, Wanted, At;
    var scores := ScoreTable(registry.generals, input);
    var gains := GainTable(registry.generals, input);
    var n := if |seated| > max then max else |seated|;
    var seats := seated[..n];
    assert seats == if |seated| > max then seated[..max] else seated;
    var r := Reseat(seats, {}, Challengers(registry.generals, seats, scores, gains), scores);
    WonSeats(registry, input, seats);
    if DistinctLenses(seated) {
      FirstAreDistinct(seated, n);
    }
    if |r| < max {
      FillGrows(registry, r, Wanted(r), scores, max);
      if DistinctLenses(seated) { FillStaysDistinct(registry, r, Wanted(r), scores, max); }
    }
  }

  // ---------- Backfill ----------

  /** Filling keeps what was chosen in front and stays within `max`. */
  lemma {:induction false} FillGrows(registry: Registry, chosen: seq<Lens>, wanted: seq<Family>, scores: Scores, max: nat)
    requires |chosen| <= max
    ensures var out := Fill(registry, chosen, wanted, scores, max);
            |chosen| <= |out| <= max && out[..|chosen|] == chosen
    decreases |wanted|
  {
    if wanted != [] && |chosen| != max {
      var best := if wanted[0] in Families(chosen) then None
                  else BestIn(registry.generals, wanted[0], Ids(chosen), scores);
      var next := if best.Some? then chosen + [best.value] else chosen;
      FillGrows(registry, next, wanted[1..], scores, max);
      assert next[..|chosen|] == chosen;
      var out := Fill(registry, chosen, wanted, scores, max);
      assert out[..|chosen|] == out[..|next|][..|chosen|];
    }
  }

  lemma {:induction false} FillStaysDistinct(
    registry: Registry, chosen: seq<Lens>, wanted: seq<Family>, scores: Scores, max: nat)
    requires DistinctLenses(chosen)
    ensures DistinctLenses(Fill(registry, chosen, wanted, scores, max))
    decreases |wanted|
  {
    if wanted != [] && |chosen| != max {
      var best := if wanted[0] in Families(chosen) then None
                  else BestIn(registry.generals, wanted[0], Ids(chosen), scores);
      var next := if best.Some? then chosen + [best.value] else chosen;
      assert DistinctLenses(next) by {
        assert forall i :: 0 <= i < |chosen| ==> chosen[i].id in Ids(chosen);
      }
      FillStaysDistinct(registry, next, wanted[1..], scores, max);
    }
  }

  predicate BringsNewFamily(registry: Registry, out: seq<Lens>, i: nat, scores: Scores)
    requires i < |out|
  {
    && out[i] in registry.generals
    && out[i].family !in Families(out[..i])
    && BestIn(registry.generals, out[i].family, Ids(out[..i]), scores) == Some(out[i])
  }

  /** Each lens added is a general from a family nobody before it represents, the best of those unused. */
  lemma {:induction false} FillBringsNewFamilies(
    registry: Registry, chosen: seq<Lens>, wanted: seq<Family>, scores: Scores, max: nat)
    requires |chosen| <= max
    ensures var out := Fill(registry, chosen, wanted, scores, max);
            forall i :: |chosen| <= i < |out| ==> BringsNewFamily(registry, out, i, scores)
    decreases |wanted|
  {
    if wanted != [] && |chosen| != max {
      var best := if wanted[0] in Families(chosen) then None
                  else BestIn(registry.generals, wanted[0], Ids(chosen), scores);
      var next := if best.Some? then chosen + [best.value] else chosen;
      FillBringsNewFamilies(registry, next, wanted[1..], scores, max);
      FillGrows(registry, next, wanted[1..], scores, max);
      hide BestIn, Ids, Families;
      var out := Fill(registry, chosen, wanted, scores, max);
      assert out == Fill(registry, next, wanted[1..], scores, max);
      hide Fill;
      if best.Some? {
        assert out[..|next|] == next;
        assert out[..|chosen|] == chosen by { assert out[..|next|][..|chosen|] == out[..|chosen|]; }
        assert out[|chosen|] == best.value;
        assert BringsNewFamily(registry, out, |chosen|, scores);
      }
    }
  }

  /** Short of `max`, every wanted family is represented or has no unused general. */
  lemma {:induction false} ShortOnlyWhenExhausted(
    registry: Registry, chosen: seq<Lens>, wanted: seq<Family>, scores: Scores, max: nat)
    requires |chosen| <= max
    ensures var out := Fill(registry, chosen, wanted, scores, max);
            |out| < max ==>
              forall f :: f in wanted ==>
                f in Families(out) || forall g :: g in registry.generals && g.family == f ==> g.id in Ids(out)
    decreases |wanted|
  {
    if wanted != [] && |chosen| != max {
      var best := if wanted[0] in Families(chosen) then None
                  else BestIn(registry.generals, wanted[0], Ids(chosen), scores);
      var next := if best.Some? then chosen + [best.value] else chosen;
      ShortOnlyWhenExhausted(registry, next, wanted[1..], scores, max);
      FillGrows(registry, next, wanted[1..], scores, max);
      var out := Fill(registry, chosen, wanted, scores, max);
      PrefixSubsets(next, out);
      if best.Some? {
        IdsAppend(chosen, best.value);
      } else if wanted[0] !in Families(chosen) {
        forall g | g in registry.generals && g.family == wanted[0] ensures g.id in Ids(out) {
          assert !Eligible(g, wanted[0], Ids(chosen));
        }
      }
      forall f | f in wanted ensures f == wanted[0] || f in wanted[1..] {}
    }
  }

  lemma PrefixSubsets(a: seq<Lens>, b: seq<Lens>)
    requires |a| <= |b| && b[..|a|] == a
    ensures Ids(a) <= Ids(b) && Families(a) <= Families(b)
  {
    forall i | 0 <= i < |a| ensures a[i] == b[i] { assert b[..|a|][i] == b[i]; }
  }

  // ---------- A fresh pick ----------

  /** Before filling, the pick is the top of the ranking: everyone in it clears the floor, and a ranked general
      left out is under the floor or came after a full pick. */
  lemma PickedIsTheTop(registry: Registry, scores: Scores, max: nat)
    requires registry.Valid() && max > 0
    ensures var ranked := RankedGenerals(registry, scores);
            var picked := Picked(registry, scores, max);
            ranked != [] && ranked[0].score >= MIN_SCORE ==>
              && 0 < |picked| <= max && |picked| <= |ranked|
              && forall i :: 0 <= i < |ranked| ==>
                   if i < |picked| then picked[i] == ranked[i].item && ranked[i].score >= MIN_SCORE
                   else |picked| == max || ranked[i].score < MIN_SCORE
  {
    var ranked := RankedGenerals(registry, scores);
    var n := Clearing(ranked, max);
    forall i | n < i < |ranked| ensures ranked[i].score <= ranked[n].score {
      assert !Before(ranked[i], ranked[n]);
    }
  }

  /** The fallback is reached only when no ranked general clears the floor. */
  lemma FallbackOnlyUnderTheFloor(registry: Registry, scores: Scores, max: nat)
    requires registry.Valid() && max > 0
    requires Clearing(RankedGenerals(registry, scores), max) == 0
    ensures forall g :: g in registry.generals && g.id in scores ==> scores[g.id] < MIN_SCORE
    ensures |Picked(registry, scores, max)| <= 1
    ensures registry.generals != [] ==> |Picked(registry, scores, max)| == 1
  {
    var ranked := RankedGenerals(registry, scores);
    RankedGeneralsAre(registry, scores);
    forall g | g in registry.generals && g.id in scores ensures scores[g.id] < MIN_SCORE {
      assert Ranked(g, scores[g.id], g.id) in ranked;
      var i :| 0 <= i < |ranked| && ranked[i] == Ranked(g, scores[g.id], g.id);
      assert !Before(ranked[i], ranked[0]);
    }
  }

  ghost predicate Registered(registry: Registry, lenses: seq<Lens>) {
    forall l :: l in lenses ==> l.id in registry.byId && registry.byId[l.id] == l
  }

  lemma TopIsProper(registry: Registry, scores: Scores, n: nat)
    requires registry.Valid() && n <= |RankedGenerals(registry, scores)|
    ensures var top := Items(RankedGenerals(registry, scores)[..n]);
            DistinctLenses(top) && Registered(registry, top)
  {
    var ranked := RankedGenerals(registry, scores);
    var top := Items(ranked[..n]);
    RankedGeneralsAre(registry, scores);
    forall i | 0 <= i < n
      ensures top[i] == ranked[i].item && top[i].id == ranked[i].id && top[i] in registry.generals
    {
      assert ranked[..n][i] == ranked[i] && ranked[i] in ranked;
    }
  }

  lemma PickedIsProper(registry: Registry, scores: Scores, max: nat)
    requires registry.Valid() && max > 0
    ensures var picked := Picked(registry, scores, max);
            |picked| <= max && DistinctLenses(picked) && Registered(registry, picked)
    ensures registry.generals != [] ==> Picked(registry, scores, max) != []
  {
    hide RankedGenerals, Clearing;
    TopIsProper(registry, scores, Clearing(RankedGenerals(registry, scores), max));
  }

  /** The whole fresh pick: no repeats, at most `max`, something whenever a general exists, every filled slot a
      family nobody before it represents, and short of `max` only when every listed family that has a general is
      represented. */
  lemma FreshPick(registry: Registry, input: SelectInput, max: nat)
    requires registry.Valid() && max > 0
    ensures var out := Fresh(registry, input, max);
            var picked := Picked(registry, FreshScores(registry, input, max), max);
            && |picked| <= |out| <= max && out[..|picked|] == picked
            && DistinctLenses(out)
            && (registry.generals != [] ==> out != [])
            && (forall i :: |picked| <= i < |out| ==>
                  out[i] in registry.generals && out[i].family !in Families(out[..i]))
            && (|out| < max ==>
                  forall g :: g in registry.generals && g.family in ALL_FAMILIES ==> g.family in Families(out))
  {
    var scores := FreshScores(registry, input, max);
    var picked := Picked(registry, scores, max);
    var out := Fresh(registry, input, max);
    PickedIsProper(registry, scores, max);
    if |picked| < max {
      hide FreshScores, Picked, Fill, Families, Wanted;
      FillGrows(registry, picked, Wanted(picked), scores, max);
      FillStaysDistinct(registry, picked, Wanted(picked), scores, max);
      FillBringsNewFamilies(registry, picked, Wanted(picked), scores, max);
      forall i | |picked| <= i < |out|
        ensures out[i] in registry.generals && out[i].family !in Families(out[..i])
      {
        assert BringsNewFamily(registry, out, i, scores);
      }
      if |out| < max {
        ShortMeansAllRepresented(registry, picked, scores, max);
      }
    }
  }

  lemma ShortMeansAllRepresented(registry: Registry, picked: seq<Lens>, scores: Scores, max: nat)
    requires registry.Valid() && Registered(registry, picked) && |picked| <= max
    requires |Backfilled(registry, picked, scores, max)| < max
    ensures var out := Backfilled(registry, picked, scores, max);
            forall g :: g in registry.generals && g.family in ALL_FAMILIES ==> g.family in Families(out)
  {
    hide BestIn, Fill;
    var out := Backfilled(registry, picked, scores, max);
    FillGrows(registry, picked, Wanted(picked), scores, max);
    FillBringsNewFamilies(registry, picked, Wanted(picked), scores, max);
    ShortOnlyWhenExhausted(registry, picked, Wanted(picked), scores, max);
    forall g | g in registry.generals && g.family in ALL_FAMILIES
      ensures g.family in Families(out)
    {
      assert g.family in Wanted(picked);
      if g.id in Ids(out) {
        var i :| 0 <= i < |out| && out[i].id == g.id;
        if i < |picked| {
          assert out[..|picked|][i] == picked[i] && picked[i] in picked;
        } else {
          assert BringsNewFamily(registry, out, i, scores);
        }
        assert out[i] == g;
      }
    }
  }

  /** The score a fresh pick ranks a general by, as one expression. */
  lemma FreshScoreAt(registry: Registry, input: SelectInput, max: nat, k: nat)
    requires registry.Valid() && k < |registry.generals|
    ensures var g := registry.generals[k];
            var penalised := Penalised(registry.generals, input.recentlyUsed, ScoreTable(registry.generals, input));
            var ranked := RankedGenerals(registry, penalised);
            var bonuses := if max >= 2 && ranked != [] then Occurrences(ranked[0].item.rivals, g.id) else 0;
            At(FreshScores(registry, input, max), g.id)
            == Fit(g, input) - (if g.id in input.recentlyUsed then RECENT_PENALTY else 0.0)
               + bonuses as real * RIVAL_BONUS
  {
    var g := registry.generals[k];
    var table := ScoreTable(registry.generals, input);
    var penalised := Penalised(registry.generals, input.recentlyUsed, table);
    var ranked := RankedGenerals(registry, penalised);
    ScoreTableAt(registry.generals, input, k);
    PenalisedAt(registry.generals, input.recentlyUsed, table, g.id);
    assert g.id in Ids(registry.generals) && g in registry.generals;
    if max >= 2 && ranked != [] {
      WithRivalsAt(registry, ranked[0].item.rivals, penalised, g.id);
    }
  }

  // ---------- The whole selection ----------

  ghost predicate AllGenerals(registry: Registry, lenses: seq<Lens>) {
    forall l :: l in lenses ==> l in registry.generals
  }

  function IdList(lenses: seq<Lens>): (r: seq<Id>)
    ensures |r| == |lenses| && forall i :: 0 <= i < |r| ==> r[i] == lenses[i].id
  {
    seq(|lenses|, i requires 0 <= i < |lenses| => lenses[i].id)
  }

  lemma ResolvedFirst(registry: Registry, ids: seq<Id>)
    requires ids != []
    ensures var lens := registry.Get(ids[0]);
            GeneralsOnly(registry.Resolve(ids))
            == (if lens.Some? && lens.value.kind == General then [lens.value] else [])
               + GeneralsOnly(registry.Resolve(ids[1..]))
  {
    var rest := registry.Resolve(ids[1..]);
    if ids[0] in registry.byId {
      var lens := registry.byId[ids[0]];
      assert ([lens] + rest)[1..] == rest;
    } else {
      assert registry.Resolve(ids) == rest;
    }
  }

  lemma {:induction false} ResolvedAreGenerals(registry: Registry, ids: seq<Id>)
    requires registry.Valid()
    ensures AllGenerals(registry, GeneralsOnly(registry.Resolve(ids)))
  {
    if ids != [] {
      ResolvedAreGenerals(registry, ids[1..]);
      ResolvedFirst(registry, ids);
    }
  }

  /** Generals named by their identifiers come back as they were. */
  lemma {:induction false} ResolvingBack(registry: Registry, lenses: seq<Lens>)
    requires registry.Valid() && AllGenerals(registry, lenses)
    ensures GeneralsOnly(registry.Resolve(IdList(lenses))) == lenses
  {
    if lenses != [] {
      assert lenses[0] in lenses && lenses[0] in registry.generals;
      assert IdList(lenses)[1..] == IdList(lenses[1..]);
      assert forall l :: l in lenses[1..] ==> l in lenses;
      ResolvingBack(registry, lenses[1..]);
      ResolvedFirst(registry, IdList(lenses));
      hide GeneralsOnly;
      assert lenses == [lenses[0]] + lenses[1..];
    }
  }

  lemma HeldAreGenerals(registry: Registry, input: SelectInput, seated: seq<Lens>, max: nat)
    requires registry.Valid() && AllGenerals(registry, seated) && |seated| >= max
    ensures AllGenerals(registry, Held(registry, input, seated, max).lenses)
    ensures |Held(registry, input, seated, max).lenses| == max
  {
    HeldSeats(registry, input, seated, max);
    hide Held;
    var lenses := Held(registry, input, seated, max).lenses;
    forall l | l in lenses
      ensures l in registry.generals
    {
      var i :| 0 <= i < |lenses| && lenses[i] == l;
      assert seated[i] in seated;
    }
  }

  /** A conversation settles: asked the same again with the roster it answered by, a full roster is kept whole. */
  lemma SelectingAgain(registry: Registry, input: SelectInput)
    requires registry.Valid() && registry.Resolve(input.explicit) == [] && input.max > 0
    requires |GeneralsOnly(registry.Resolve(input.seated))| >= input.max
    ensures var first := Selected(registry, input).lenses;
            |first| == input.max
            && Selected(registry, input.(seated := IdList(first))) == Selection(first, Sticky)
  {
    var seated := GeneralsOnly(registry.Resolve(input.seated));
    var first := Selected(registry, input).lenses;
    ResolvedAreGenerals(registry, input.seated);
    HeldAreGenerals(registry, input, seated, input.max);
    ResolvingBack(registry, first);
    HeldIsAFixpoint(registry, input, seated, input.max);
    SameQuestion(registry, input, input.(seated := IdList(first)), first, input.max);
  }

  /** Holding does not look at the seats the input names, only at those it is given. */
  lemma SameQuestion(registry: Registry, a: SelectInput, b: SelectInput, seated: seq<Lens>, max: nat)
    requires a == b.(seated := a.seated)
    ensures Held(registry, a, seated, max) == Held(registry, b, seated, max)
  {
    SameTables(registry.generals, a, b);
  }

  lemma {:induction false} SameTables(generals: seq<Lens>, a: SelectInput, b: SelectInput)
    requires a == b.(seated := a.seated)
    ensures ScoreTable(generals, a) == ScoreTable(generals, b) && GainTable(generals, a) == GainTable(generals, b)
  {
    if generals != [] {
      SameTables(generals[..|generals| - 1], a, b);
    }
  }

  /** Whatever the request: at most as many lenses as asked for, and some whenever there is a general; the person's own
      pick, so far as it is known, comes first and untouched. */
  lemma SelectionIs(registry: Registry, input: SelectInput)
    requires registry.Valid()
    ensures var s := Selected(registry, input);
            var max := if input.max <= 0 then 1 else input.max;
            && |s.lenses| <= max
            && (registry.generals != [] ==> s.lenses != [])
            && (s.how == Explicit <==> registry.Resolve(input.explicit) != [])
            && (s.how == Explicit ==> s.lenses <= registry.Resolve(input.explicit)
                                      && (|s.lenses| < max ==> s.lenses == registry.Resolve(input.explicit)))
  {
    hide Held, Fresh, RankedGenerals;
    var max: nat := if input.max <= 0 then 1 else input.max;
    if registry.Resolve(input.explicit) == [] {
      var seated := GeneralsOnly(registry.Resolve(input.seated));
      if seated != [] {
        HeldSeats(registry, input, seated, max);
      } else {
        FreshPick(registry, input, max);
      }
    }
  }
}
