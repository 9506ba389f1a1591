/** Predictions, and how well the stated chances of the scored ones came true.  Chances and scores are exact reals. */
module Calibrating {
  import opened Common

  type Id = nat

  datatype Chance = ChanceNone | Long | Even | Likely
  {
    function Probability(): Option<real> {
      match this
      case ChanceNone => None
      case Long => Some(0.2)
      case Even => Some(0.5)
      case Likely => Some(0.8)
    }
  }

  datatype Outcome = OutcomeNone | Called | Missed

  datatype PredictionStatus = Proposed | Kept | Dropped

  datatype Prediction = Prediction(
    id: Id, campaignId: Option<Id>, objectiveId: Option<Id>, text: string, warning: string, status: PredictionStatus,
    chance: Chance, outcome: Outcome, scoredAt: Option<int>, fingerprint: string)
  {
    /** Kept or still proposed. */
    predicate Live() {
      status == Proposed || status == Kept
    }

    /** Kept, given a chance, and scored. */
    predicate Counts() {
      status == Kept && chance != ChanceNone && outcome != OutcomeNone
    }
  }

  datatype Bucket = Bucket(chance: Chance, called: nat, scored: nat)

  datatype Calibration = Calibration(score: Option<real>, n: nat, buckets: seq<Bucket>)

  const CALIBRATION_MIN := 5
  const CHANCE_ORDER := [Long, Even, Likely]

  function Squared(x: real): real {
    x * x
  }

  /** The square of how far the stated chance was from what happened. */
  function Miss(chance: Chance, called: bool): real
    requires chance != ChanceNone
  {
    Squared(chance.Probability().value - (if called then 1.0 else 0.0))
  }

  function CountOf(preds: seq<Prediction>): (n: nat)
    ensures n <= |preds|
  {
    if preds == [] then 0 else CountOf(preds[..|preds| - 1]) + (if preds[|preds| - 1].Counts() then 1 else 0)
  }

  function Misses(preds: seq<Prediction>): real {
    if preds == [] then 0.0
    else
      var p := preds[|preds| - 1];
      Misses(preds[..|preds| - 1]) + (if p.Counts() then Miss(p.chance, p.outcome == Called) else 0.0)
  }

  function BucketOf(preds: seq<Prediction>, chance: Chance): (b: Bucket)
    ensures b.called <= b.scored
  {
    if preds == [] then Bucket(chance, 0, 0)
    else
      var p := preds[|preds| - 1];
      Tallied(BucketOf(preds[..|preds| - 1], chance), p.Counts() && p.chance == chance, p.outcome == Called)
  }

  function Tallied(b: Bucket, counts: bool, called: bool): Bucket {
    if counts then b.(scored := b.scored + 1, called := b.called + (if called then 1 else 0)) else b
  }

  /** The buckets with anything in them, in the order they are reported. */
  function Filled(preds: seq<Prediction>, chances: seq<Chance>): seq<Bucket> {
    if chances == [] then []
    else
      var b := BucketOf(preds, chances[|chances| - 1]);
      Filled(preds, chances[..|chances| - 1]) + (if b.scored > 0 then [b] else [])
  }

  /** The mean squared miss, withheld until enough predictions count, and the buckets. */
  function CalibrationOf(preds: seq<Prediction>): Calibration {
    var n := CountOf(preds);
    Calibration(if n >= CALIBRATION_MIN then Some(Misses(preds) / n as real) else None, n, Filled(preds, CHANCE_ORDER))
  }

  lemma CalibrationSteps(preds: seq<Prediction>, p: Prediction)
    ensures CountOf(preds + [p]) == CountOf(preds) + if p.Counts() then 1 else 0
    ensures Misses(preds + [p]) == Misses(preds) + if p.Counts() then Miss(p.chance, p.outcome == Called) else 0.0
    ensures forall chance :: BucketOf(preds + [p], chance)
                             == Tallied(BucketOf(preds, chance), p.Counts() && p.chance == chance, p.outcome == Called)
  {
    assert (preds + [p])[..|preds|] == preds;
  }

  /** The counters hold the buckets of the predictions so far. */
  predicate Counters(counts: map<Chance, Bucket>, preds: seq<Prediction>) {
    counts.Keys == {Long, Even, Likely} && forall c :: c in counts ==> counts[c] == BucketOf(preds, c)
  }

  lemma CountersStep(counts: map<Chance, Bucket>, preds: seq<Prediction>, p: Prediction)
    requires Counters(counts, preds)
    ensures p.Counts() ==>
              && p.chance in counts
              && Counters(counts[p.chance := Tallied(counts[p.chance], true, p.outcome == Called)], preds + [p])
    ensures !p.Counts() ==> Counters(counts, preds + [p])
  {
    CalibrationSteps(preds, p);
  }

  method Tally(preds: seq<Prediction>) returns (counts: map<Chance, Bucket>, sum: real, n: nat)
    ensures Counters(counts, preds)
    ensures sum == Misses(preds) && n == CountOf(preds)
  {
    counts := map c | c in {Long, Even, Likely} :: Bucket(c, 0, 0);
    sum, n := 0.0, 0;
    for i := 0 to |preds|
      invariant Counters(counts, preds[..i])
      invariant sum == Misses(preds[..i]) && n == CountOf(preds[..i])
    {
      hide Misses, CountOf, BucketOf, Squared, Counters, Tallied;
      var p := preds[i];
      assert preds[..i + 1] == preds[..i] + [p];
      CalibrationSteps(preds[..i], p);
      CountersStep(counts, preds[..i], p);
      if p.status != Kept {
        continue;
      }
      var probability := p.chance.Probability();
      if probability.None? || p.outcome == OutcomeNone {
        continue;
      }
      var outcome := if p.outcome == Called then 1.0 else 0.0;
      sum := sum + Squared(probability.value - outcome);
      n := n + 1;
      counts := counts[p.chance := Tallied(counts[p.chance], true, p.outcome == Called)];
    }
    assert preds[..|preds|] == preds;
  }

  method Calibrate(preds: seq<Prediction>) returns (cal: Calibration)
    ensures cal == CalibrationOf(preds)
  {
    var counts, sum, n := Tally(preds);
    var buckets := [];
    for i := 0 to |CHANCE_ORDER|
      invariant buckets == Filled(preds, CHANCE_ORDER[..i])
    {
      var b := counts[CHANCE_ORDER[i]];
      assert CHANCE_ORDER[..i + 1][..i] == CHANCE_ORDER[..i];
      if b.scored > 0 {
        buckets := buckets + [b];
      }
    }
    assert CHANCE_ORDER[..|CHANCE_ORDER|] == CHANCE_ORDER;
    cal := Calibration(if n >= CALIBRATION_MIN then Some(sum / n as real) else None, n, buckets);
  }

  // ---------- What the buckets say ----------

  /** What the predictions in one bucket miss by, taken together. */
  function MissesIn(b: Bucket): real
    requires b.chance != ChanceNone && b.called <= b.scored
  {
    b.called as real * Miss(b.chance, true) + (b.scored - b.called) as real * Miss(b.chance, false)
  }

  lemma {:induction false} CountsFromBuckets(preds: seq<Prediction>)
    ensures CountOf(preds)
            == BucketOf(preds, Long).scored + BucketOf(preds, Even).scored + BucketOf(preds, Likely).scored
    ensures BucketOf(preds, Long).chance == Long && BucketOf(preds, Even).chance == Even
    ensures BucketOf(preds, Likely).chance == Likely
  {
    if preds != [] {
      CountsFromBuckets(preds[..|preds| - 1]);
    }
  }

  /** One prediction more adds its miss to its own bucket. */
  lemma MissesTally(b: Bucket, counts: bool, called: bool)
    requires b.chance != ChanceNone && b.called <= b.scored
    ensures MissesIn(Tallied(b, counts, called)) == MissesIn(b) + if counts then Miss(b.chance, called) else 0.0
  {
    hide Miss;
  }

  lemma {:induction false} MissesFromBuckets(preds: seq<Prediction>)
    ensures BucketOf(preds, Long).chance == Long && BucketOf(preds, Even).chance == Even
    ensures BucketOf(preds, Likely).chance == Likely
    ensures Misses(preds) == MissesIn(BucketOf(preds, Long)) + MissesIn(BucketOf(preds, Even))
                             + MissesIn(BucketOf(preds, Likely))
  {
    hide Miss;
    CountsFromBuckets(preds);
    if preds != [] {
      hide MissesIn, Tallied;
      var rest, p := preds[..|preds| - 1], preds[|preds| - 1];
      MissesFromBuckets(rest);
      MissesTally(BucketOf(rest, Long), p.Counts() && p.chance == Long, p.outcome == Called);
      MissesTally(BucketOf(rest, Even), p.Counts() && p.chance == Even, p.outcome == Called);
      MissesTally(BucketOf(rest, Likely), p.Counts() && p.chance == Likely, p.outcome == Called);
    }
  }

  function InAll(buckets: seq<Bucket>): nat {
    if buckets == [] then 0 else InAll(buckets[..|buckets| - 1]) + buckets[|buckets| - 1].scored
  }

  lemma FilledAre(preds: seq<Prediction>)
    ensures CalibrationOf(preds).buckets
            == (if BucketOf(preds, Long).scored > 0 then [BucketOf(preds, Long)] else [])
               + (if BucketOf(preds, Even).scored > 0 then [BucketOf(preds, Even)] else [])
               + (if BucketOf(preds, Likely).scored > 0 then [BucketOf(preds, Likely)] else [])
  {
    assert CHANCE_ORDER[..2] == [Long, Even] && [Long, Even][..1] == [Long] && [Long][..0] == [];
    assert Filled(preds, [Long]) == if BucketOf(preds, Long).scored > 0 then [BucketOf(preds, Long)] else [];
    assert Filled(preds, [Long, Even])
        == Filled(preds, [Long]) + if BucketOf(preds, Even).scored > 0 then [BucketOf(preds, Even)] else [];
  }

  lemma InAllOf(a: seq<Bucket>, b: seq<Bucket>, c: seq<Bucket>)
    requires |a| <= 1 && |b| <= 1 && |c| <= 1
    ensures InAll(a + b + c)
            == (if a == [] then 0 else a[0].scored) + (if b == [] then 0 else b[0].scored) + (if c == [] then 0 else c[0].scored)
  {
    InAllAppend(a + b, c);
    InAllAppend(a, b);
  }

  lemma InAllAppend(a: seq<Bucket>, b: seq<Bucket>)
    requires |b| <= 1
    ensures InAll(a + b) == InAll(a) + if b == [] then 0 else b[0].scored
  {
    if b == [] {
      assert a + b == a;
    } else {
      assert (a + b)[..|a|] == a;
    }
  }

  /** The buckets reported always add up to the number reported. */
  lemma BucketsAddUp(preds: seq<Prediction>)
    ensures InAll(CalibrationOf(preds).buckets) == CalibrationOf(preds).n
  {
    hide BucketOf, CountOf, Misses, Filled, InAll;
    FilledAre(preds);
    CountsFromBuckets(preds);
    var a := if BucketOf(preds, Long).scored > 0 then [BucketOf(preds, Long)] else [];
    var b := if BucketOf(preds, Even).scored > 0 then [BucketOf(preds, Even)] else [];
    var c := if BucketOf(preds, Likely).scored > 0 then [BucketOf(preds, Likely)] else [];
    InAllOf(a, b, c);
  }

  /** The bucket reported for a chance, or the empty one. */
  function Reported(buckets: seq<Bucket>, chance: Chance): Bucket {
    if buckets == [] then Bucket(chance, 0, 0)
    else if buckets[|buckets| - 1].chance == chance then buckets[|buckets| - 1]
    else Reported(buckets[..|buckets| - 1], chance)
  }

  lemma {:induction false} EmptyBucket(preds: seq<Prediction>, chance: Chance)
    ensures BucketOf(preds, chance).chance == chance
  {
    if preds != [] {
      EmptyBucket(preds[..|preds| - 1], chance);
    }
  }

  lemma ReportedAre(preds: seq<Prediction>, chance: Chance)
    requires chance != ChanceNone
    ensures Reported(CalibrationOf(preds).buckets, chance) == BucketOf(preds, chance)
  {
    hide CalibrationOf, BucketOf, Reported;
    FilledAre(preds);
    EmptyBucket(preds, Long);
    EmptyBucket(preds, Even);
    EmptyBucket(preds, Likely);
    var a := if BucketOf(preds, Long).scored > 0 then [BucketOf(preds, Long)] else [];
    var b := if BucketOf(preds, Even).scored > 0 then [BucketOf(preds, Even)] else [];
    var c := if BucketOf(preds, Likely).scored > 0 then [BucketOf(preds, Likely)] else [];
    ReportedLast(a + b, c, chance);
    ReportedLast(a, b, chance);
    ReportedFirst(a, chance);
  }

  lemma ReportedFirst(a: seq<Bucket>, chance: Chance)
    requires |a| <= 1
    ensures Reported(a, chance) == if a != [] && a[0].chance == chance then a[0] else Bucket(chance, 0, 0)
  {
    assert a != [] ==> a[..|a| - 1] == [];
  }

  lemma ReportedLast(a: seq<Bucket>, b: seq<Bucket>, chance: Chance)
    requires |b| <= 1
    ensures Reported(a + b, chance) == if b != [] && b[0].chance == chance then b[0] else Reported(a, chance)
  {
    if b == [] {
      assert a + b == a;
    } else {
      assert (a + b)[..|a|] == a;
    }
  }

  /** The buckets reported decide everything else: the number, whether there is a score, and the score. */
  lemma BucketsDecide(a: seq<Prediction>, b: seq<Prediction>)
    requires CalibrationOf(a).buckets == CalibrationOf(b).buckets
    ensures CalibrationOf(a) == CalibrationOf(b)
  {
    forall chance | chance != ChanceNone
      ensures BucketOf(a, chance) == BucketOf(b, chance)
    {
      ReportedAre(a, chance);
      ReportedAre(b, chance);
    }
    assert BucketOf(a, Long) == BucketOf(b, Long) && BucketOf(a, Even) == BucketOf(b, Even);
    assert BucketOf(a, Likely) == BucketOf(b, Likely);
    CountsFromBuckets(a);
    CountsFromBuckets(b);
    MissesFromBuckets(a);
    MissesFromBuckets(b);
  }

  lemma MissBounds(b: Bucket)
    requires b.chance != ChanceNone && b.called <= b.scored
    ensures 0.04 * b.scored as real <= MissesIn(b) <= 0.64 * b.scored as real
  {
    assert Miss(b.chance, true) == if b.chance == Long then 0.64 else if b.chance == Even then 0.25 else 0.04;
    assert Miss(b.chance, false) == if b.chance == Long then 0.04 else if b.chance == Even then 0.25 else 0.64;
    var called, missed := b.called as real, (b.scored - b.called) as real;
    assert b.scored as real == called + missed;
  }

  /** There is a score exactly when five predictions count; it lies between the least and the most one can miss by. */
  lemma ScoreIsWithin(preds: seq<Prediction>)
    ensures var cal := CalibrationOf(preds);
            && (cal.score.Some? <==> cal.n >= 5)
            && (cal.score.Some? ==> 0.04 <= cal.score.value <= 0.64)
  {
    CountsFromBuckets(preds);
    MissesFromBuckets(preds);
    MissBounds(BucketOf(preds, Long));
    MissBounds(BucketOf(preds, Even));
    MissBounds(BucketOf(preds, Likely));
    var n := CountOf(preds) as real;
    assert 0.04 * n <= Misses(preds) <= 0.64 * n;
    if CountOf(preds) >= CALIBRATION_MIN {
      DivisionWithin(Misses(preds), n);
    }
  }

  lemma DivisionWithin(sum: real, n: real)
    requires n > 0.0 && 0.04 * n <= sum <= 0.64 * n
    ensures 0.04 <= sum / n <= 0.64
  {
    var score := sum / n;
    assert score * n == sum;
    assert (score - 0.04) * n >= 0.0 && (0.64 - score) * n >= 0.0;
  }

  // ---------- The whole reading, said from the predictions ----------

  /** How many kept predictions were given the chance and scored, or scored one way if an outcome is named. */
  function HowMany(preds: seq<Prediction>, chance: Chance, outcome: Option<Outcome>): nat {
    if preds == [] then 0
    else
      var p := preds[|preds| - 1];
      HowMany(preds[..|preds| - 1], chance, outcome)
      + (if p.status == Kept && p.chance == chance && p.outcome != OutcomeNone
            && (outcome.None? || outcome.value == p.outcome) then 1 else 0)
  }

  lemma {:induction false} BucketCounts(preds: seq<Prediction>, chance: Chance)
    requires chance != ChanceNone
    ensures BucketOf(preds, chance)
            == Bucket(chance, HowMany(preds, chance, Some(Called)), HowMany(preds, chance, None))
    ensures HowMany(preds, chance, None) == HowMany(preds, chance, Some(Called)) + HowMany(preds, chance, Some(Missed))
  {
    if preds != [] {
      BucketCounts(preds[..|preds| - 1], chance);
    }
  }

  lemma MissIs(chance: Chance, called: bool)
    requires chance != ChanceNone
    ensures Miss(chance, called)
            == match chance
               case Long => if called then 0.64 else 0.04
               case Even => 0.25
               case _ => if called then 0.04 else 0.64
  {
  }

  function InBucket(preds: seq<Prediction>, chance: Chance): seq<Bucket> {
    if HowMany(preds, chance, None) > 0 then [Bucket(chance, HowMany(preds, chance, Some(Called)), HowMany(preds, chance, None))]
    else []
  }

  /** The predictions that count are those kept, given a chance and scored.  There is a score when five do: the mean square of
      how far the chance stated, a fifth, a half or four fifths, was from what happened.  The buckets follow the chances from
      long to likely, without the empty ones. */
  lemma CalibrationIs(preds: seq<Prediction>)
    ensures var cal := CalibrationOf(preds);
            && cal.n == HowMany(preds, Long, None) + HowMany(preds, Even, None) + HowMany(preds, Likely, None)
            && (cal.score.Some? <==> cal.n >= 5)
            && (cal.score.Some? ==>
                  cal.score.value * cal.n as real
                  == HowMany(preds, Long, Some(Called)) as real * 0.64 + HowMany(preds, Long, Some(Missed)) as real * 0.04
                     + HowMany(preds, Even, None) as real * 0.25
                     + HowMany(preds, Likely, Some(Called)) as real * 0.04 + HowMany(preds, Likely, Some(Missed)) as real * 0.64)
            && cal.buckets == InBucket(preds, Long) + InBucket(preds, Even) + InBucket(preds, Likely)
  {
    hide BucketOf, Misses, CountOf, Filled, Squared, HowMany;
    CountsFromBuckets(preds);
    MissesFromBuckets(preds);
    FilledAre(preds);
    BucketCounts(preds, Long);
    BucketCounts(preds, Even);
    BucketCounts(preds, Likely);
    BucketMisses(BucketOf(preds, Long));
    BucketMisses(BucketOf(preds, Even));
    BucketMisses(BucketOf(preds, Likely));
    if CountOf(preds) >= 5 {
      Mean(Misses(preds), CountOf(preds));
    }
  }

  lemma Mean(total: real, n: nat)
    requires n > 0
    ensures total / n as real * n as real == total
  {
  }

  lemma BucketMisses(b: Bucket)
    requires b.chance != ChanceNone && b.called <= b.scored
    ensures MissesIn(b)
            == match b.chance
               case Long => b.called as real * 0.64 + (b.scored - b.called) as real * 0.04
               case Even => b.scored as real * 0.25
               case _ => b.called as real * 0.04 + (b.scored - b.called) as real * 0.64
  {
    hide Miss;
    MissIs(b.chance, true);
    MissIs(b.chance, false);
  }
}
