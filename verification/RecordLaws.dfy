/** What every run of the campaign record keeps. */
module RecordLaws {
  import opened Common
  import opened Calibrating
  import opened Record
  import Sequences
  import Text

  // ---------- What is on a quarter, and what leaves it alone ----------

  lemma FilingOneMore(preds: seq<Prediction>, p: Prediction, id: Id)
    ensures PredictionsFor([p] + preds, id) == OnQuarter(id)(p) + PredictionsFor(preds, id)
  {
    Sequences.FlatMapAppend(OnQuarter(id), [p], preds);
    Sequences.FlatMapOne(OnQuarter(id), [], p);
    assert [] + [p] == [p];
  }

  lemma FilingReplaced(preds: seq<Prediction>, i: nat, p: Prediction, id: Id)
    requires i < |preds| && preds[i].campaignId != Some(id) && p.campaignId != Some(id)
    ensures PredictionsFor(preds[i := p], id) == PredictionsFor(preds, id)
  {
    var before, after := preds[..i], preds[i + 1..];
    FilingSplit(before, preds[i], after, id);
    FilingSplit(before, p, after, id);
    assert preds == before + [preds[i]] + after && preds[i := p] == before + [p] + after;
  }

  lemma FilingSplit(before: seq<Prediction>, p: Prediction, after: seq<Prediction>, id: Id)
    requires p.campaignId != Some(id)
    ensures PredictionsFor(before + [p] + after, id) == PredictionsFor(before, id) + PredictionsFor(after, id)
  {
    Sequences.FlatMapAppend(OnQuarter(id), before + [p], after);
    Sequences.FlatMapOne(OnQuarter(id), before, p);
  }

  lemma {:induction false} FilingAfterUnfiling(preds: seq<Prediction>, gone: Id, id: Id)
    requires gone != id
    ensures PredictionsFor(AllUnfiledFrom(preds, gone), id) == PredictionsFor(preds, id)
  {
    if preds != [] {
      var n := |preds| - 1;
      FilingAfterUnfiling(preds[..n], gone, id);
      assert AllUnfiledFrom(preds, gone)[..n] == AllUnfiledFrom(preds[..n], gone);
    }
  }

  lemma {:induction false} FilingAfterProposals(
      preds: seq<Prediction>, failures: seq<Failure>, campaign: Option<Id>, id: Id)
    requires campaign != Some(id)
    ensures PredictionsFor(ProposedAll(preds, failures, campaign), id) == PredictionsFor(preds, id)
  {
    if failures != [] {
      var n := |failures| - 1;
      FilingAfterProposals(preds, failures[..n], campaign, id);
      FilingOneMore(ProposedAll(preds, failures[..n], campaign), Proposal(failures[n], campaign), id);
    }
  }

  // ---------- A closed quarter stays as it was sealed ----------

  predicate ClosedIn(b: Book, id: Id) {
    id in b.campaigns && b.campaigns[id].phase == Closed
  }

  /** The quarter, what is filed on it, its objectives and its commendations. */
  predicate SameQuarter(b: Book, c: Book, id: Id) {
    && id in b.campaigns && id in c.campaigns && b.campaigns[id] == c.campaigns[id]
    && PredictionsFor(b.predictions, id) == PredictionsFor(c.predictions, id)
    && ObjectivesOf(b.objectives, id) == ObjectivesOf(c.objectives, id)
    && (id in b.lines <==> id in c.lines) && (id in b.lines ==> b.lines[id] == c.lines[id])
  }

  lemma PatchLeavesClosedAlone(b: Book, id: Id, patch: Patch, items: MapItems, now: int, closed: Id)
    requires ClosedIn(b, closed)
    ensures PredictionsFor(Repatched(b, id, patch, items, now).0.predictions, closed)
            == PredictionsFor(b.predictions, closed)
  {
    hide Patched, PredictionsFor, AimRefused;
    var i := Find(b.predictions, id);
    if i < |b.predictions| && Patched(b.predictions[i], patch, now).Ok? {
      var p := Patched(b.predictions[i], patch, now).value;
      if b.predictions[i].campaignId != Some(closed) && p.campaignId != Some(closed) {
        FilingReplaced(b.predictions, i, p, closed);
      }
    }
  }

  lemma FiledInTheOpen(campaigns: map<Id, Campaign>, today: string)
    ensures FilingCampaign(campaigns, today).Some? ==> Filing(campaigns, FilingCampaign(campaigns, today).value, today)
  {
  }

  /** No step changes anything about a closed quarter. */
  lemma StepLeavesClosedAlone(b: Book, call: Call, closed: Id)
    requires ClosedIn(b, closed)
    ensures SameQuarter(b, Step(b, call).0, closed)
  {
    hide PredictionsFor;
    match call
    case PatchPrediction(id, patch, items, now) =>
      PatchLeavesClosedAlone(b, id, patch, items, now, closed);
    case FromPreMortem(failures, today) =>
      FiledInTheOpen(b.campaigns, today);
      FilingAfterProposals(b.predictions, failures, FilingCampaign(b.campaigns, today), closed);
    case Delete(id) =>
      if id != closed {
        FilingAfterUnfiling(b.predictions, id, closed);
      }
    case _ =>
  }

  /** Closed is for ever: over any calls the quarter, its predictions, objectives and commendations stay as sealed. */
  lemma {:induction false} ClosedIsForEver(b: Book, calls: seq<Call>, closed: Id)
    requires ClosedIn(b, closed)
    ensures ClosedIn(Run(b, calls), closed) && SameQuarter(b, Run(b, calls), closed)
  {
    hide PredictionsFor, Step;
    if calls != [] {
      var n := |calls| - 1;
      ClosedIsForEver(b, calls[..n], closed);
      StepLeavesClosedAlone(Run(b, calls[..n]), calls[n], closed);
    }
  }

  /** A quarter closes in one way only: from review, by being advanced to closed. */
  lemma OnlyReviewCloses(b: Book, call: Call, id: Id)
    requires !ClosedIn(b, id) && ClosedIn(Step(b, call).0, id)
    ensures call.Advance? && call.id == id && call.to == Closed
    ensures id in b.campaigns && b.campaigns[id].phase == Review
  {
    hide PredictionsFor, CalibrationOf;
  }

  // ---------- The tables ----------

  predicate QuarterKept(b: Book, id: Id)
    requires id in b.campaigns
  {
    var c := b.campaigns[id];
    && c.id == id && ValidQuarter(c.quarter) && 1 <= |c.name| <= MAX_CAMPAIGN_NAME
    && (c.phase == Closed <==> c.closedAt.Some?)
    && (c.phase == Closed <==> id in b.lines)
    && (c.phase != Closed ==> c.calibration == None && c.calibrationN == 0)
    && (c.phase == Closed ==>
          var preds := PredictionsFor(b.predictions, id);
          && c.calibration == CalibrationOf(preds).score && c.calibrationN == CalibrationOf(preds).n
          && NamedLines(b.lines[id]) == CalledLines(id, preds, 0))
  }

  function NamedLines(lines: set<Commendation>): set<Commendation> {
    set line | line in lines && line.kind == CalledKind
  }

  /** A chance or an outcome only on a kept prediction; an outcome has its moment; it is filed on a quarter there is. */
  predicate PredictionKept(p: Prediction) {
    && (p.status != Kept ==> p.chance == ChanceNone && p.outcome == OutcomeNone)
    && (p.outcome == OutcomeNone <==> p.scoredAt.None?)
  }

  predicate FiledSomewhere(b: Book, p: Prediction) {
    p.campaignId.Some? ==> p.campaignId.value in b.campaigns
  }

  predicate AllKept(preds: seq<Prediction>) {
    forall i :: 0 <= i < |preds| ==> PredictionKept(preds[i])
  }

  predicate Apart(p: Prediction, q: Prediction) {
    p.id != q.id && !SameLiveText(p, q)
  }

  /** Identifiers are unique, and no failure is on the record twice. */
  predicate AllApart(preds: seq<Prediction>) {
    forall i, j :: 0 <= i < j < |preds| ==> Apart(preds[i], preds[j])
  }

  predicate AllFiled(b: Book) {
    forall i :: 0 <= i < |b.predictions| ==> FiledSomewhere(b, b.predictions[i])
  }

  predicate QuartersKept(b: Book) {
    && (forall id :: id in b.campaigns ==> QuarterKept(b, id))
    && (forall id :: id in b.lines ==> id in b.campaigns)
  }

  predicate Sound(b: Book) {
    QuartersKept(b) && OneQuarterEach(b.campaigns) && AllKept(b.predictions) && AllApart(b.predictions) && AllFiled(b)
  }

  // ---------- Each part is kept ----------

  lemma LinesNamed(id: Id, ids: set<Id>, items: MapItems, preds: seq<Prediction>, now: int)
    requires AllKept(preds)
    ensures NamedLines(TakenLines(id, ids, items, now) + CalledLines(id, preds, now)) == CalledLines(id, preds, 0)
  {
    forall p | p in preds && NamedIt(p)
      ensures CalledLine(id, p, now) == CalledLine(id, p, 0)
    {
      assert PredictionKept(p);
    }
    var all := TakenLines(id, ids, items, now) + CalledLines(id, preds, now);
    forall line
      ensures line in NamedLines(all) <==> line in CalledLines(id, preds, 0)
    {
      if line in CalledLines(id, preds, 0) {
        var p :| p in preds && NamedIt(p) && line == CalledLine(id, p, 0);
        assert line == CalledLine(id, p, now);
      }
    }
  }

  lemma {:induction false} FiledAreKept(preds: seq<Prediction>, id: Id)
    requires AllKept(preds)
    ensures AllKept(PredictionsFor(preds, id))
  {
    if preds != [] {
      FiledAreKept(preds[..|preds| - 1], id);
    }
  }

  lemma SealingKeeps(b: Book, id: Id, items: MapItems, now: int)
    requires Sound(b) && id in b.campaigns && b.campaigns[id].phase == Review
    ensures QuarterKept(Sealed(b, id, items, now), id)
  {
    var preds := PredictionsFor(b.predictions, id);
    FiledAreKept(b.predictions, id);
    LinesNamed(id, ObjectivesOf(b.objectives, id), items, preds, now);
  }

  lemma LabelsAreShort()
    ensures forall key :: ValidQuarter(key) ==> |QuarterLabel(key)| == 7
  {
  }

  lemma OpenedIsNamed(b: Book, id: Id, name: string, quarter: string, today: string, now: int)
    requires Sound(b)
    ensures QuartersKept(Opened(b, id, name, quarter, today, now).0)
  {
    hide Text.Trim, ValidQuarter, PredictionsFor, CalibrationOf, CalledLines, NamedLines;
    LabelsAreShort();
    var c := Opened(b, id, name, quarter, today, now).0;
    forall other | other in c.campaigns
      ensures QuarterKept(c, other)
    {
      assert other in b.campaigns ==> QuarterKept(b, other);
    }
  }

  lemma QuarterAfter(b: Book, call: Call, id: Id)
    requires Sound(b) && !call.Open? && id in Step(b, call).0.campaigns
    ensures QuarterKept(Step(b, call).0, id)
  {
    hide PredictionsFor, CalibrationOf, CalledLines, TakenLines, NamedLines, Text.Trim, ValidQuarter, ProposedAll, Patched,
         ObjectivesOf, FilingCampaign, AllUnfiledFrom, AimRefused, OneQuarterEach, AllKept, AllApart, AllFiled;
    assert id in b.campaigns && QuarterKept(b, id);
    if ClosedIn(b, id) {
      StepLeavesClosedAlone(b, call, id);
    } else if ClosedIn(Step(b, call).0, id) {
      OnlyReviewCloses(b, call, id);
      SealingKeeps(b, id, call.items, call.now);
    }
  }

  lemma QuartersAfter(b: Book, call: Call)
    requires Sound(b)
    ensures QuartersKept(Step(b, call).0)
  {
    hide PredictionsFor, CalibrationOf, CalledLines, TakenLines, NamedLines, QuarterKept, Text.Trim, ValidQuarter,
         ProposedAll, Patched, ObjectivesOf, FilingCampaign, AllUnfiledFrom, AimRefused;
    if call.Open? {
      OpenedIsNamed(b, call.id, call.name, call.quarter, call.today, call.now);
    } else {
      var c := Step(b, call).0;
      forall id | id in c.campaigns
        ensures QuarterKept(c, id)
      {
        QuarterAfter(b, call, id);
      }
      LinesAfter(b, call);
    }
  }

  lemma LinesAfter(b: Book, call: Call)
    requires Sound(b)
    ensures var c := Step(b, call).0; forall id :: id in c.lines ==> id in c.campaigns
  {
    hide PredictionsFor, CalibrationOf, CalledLines, TakenLines, NamedLines, Text.Trim, ValidQuarter, QuarterLabel,
         ProposedAll, Patched, FilingRefused, ObjectivesOf, FilingCampaign, AllUnfiledFrom, AimRefused, OneQuarterEach, AllKept,
         AllApart, AllFiled, QuarterTaken;
    forall id | id in b.lines
      ensures id in Step(b, call).0.campaigns
    {
      assert QuarterKept(b, id);
    }
  }

  lemma PredictionsAfterPatch(b: Book, id: Id, patch: Patch, items: MapItems, now: int)
    requires Sound(b)
    ensures var c := Repatched(b, id, patch, items, now).0;
            AllKept(c.predictions) && AllApart(c.predictions) && AllFiled(c)
  {
    var i := Find(b.predictions, id);
    if i < |b.predictions| && Patched(b.predictions[i], patch, now).Ok? {
      PatchKeeps(b.predictions[i], patch, now);
    }
  }

  lemma PatchKeeps(p: Prediction, patch: Patch, now: int)
    requires PredictionKept(p) && Patched(p, patch, now).Ok?
    ensures var q := Patched(p, patch, now).value;
            PredictionKept(q) && q.id == p.id && q.fingerprint == p.fingerprint && (q.Live() ==> p.Live())
  {
  }

  lemma ProposalKeeps(preds: seq<Prediction>, failure: Failure, campaign: Option<Id>)
    requires AllKept(preds) && AllApart(preds)
    ensures AllKept(ProposedOne(preds, failure, campaign)) && AllApart(ProposedOne(preds, failure, campaign))
  {
  }

  predicate OnOrOff(preds: seq<Prediction>, campaigns: map<Id, Campaign>) {
    forall i :: 0 <= i < |preds| ==> preds[i].campaignId.Some? ==> preds[i].campaignId.value in campaigns
  }

  lemma {:induction false} ProposalsKeep(
      preds: seq<Prediction>, failures: seq<Failure>, campaign: Option<Id>, campaigns: map<Id, Campaign>)
    requires AllKept(preds) && AllApart(preds) && OnOrOff(preds, campaigns)
    requires campaign.Some? ==> campaign.value in campaigns
    ensures var r := ProposedAll(preds, failures, campaign); AllKept(r) && AllApart(r) && OnOrOff(r, campaigns)
  {
    if failures != [] {
      var n := |failures| - 1;
      ProposalsKeep(preds, failures[..n], campaign, campaigns);
      ProposalKeeps(ProposedAll(preds, failures[..n], campaign), failures[n], campaign);
    }
  }

  lemma PredictionsAfter(b: Book, call: Call)
    requires Sound(b)
    ensures var c := Step(b, call).0; AllKept(c.predictions) && AllApart(c.predictions) && AllFiled(c)
  {
    hide PredictionsFor, CalibrationOf, CalledLines, TakenLines, Text.Trim, QuarterKept;
    match call
    case PatchPrediction(id, patch, items, now) =>
      PredictionsAfterPatch(b, id, patch, items, now);
    case FromPreMortem(failures, today) =>
      FiledInTheOpen(b.campaigns, today);
      ProposalsKeep(b.predictions, failures, FilingCampaign(b.campaigns, today), b.campaigns);
    case Delete(id) =>
    case _ =>
  }

  lemma OneQuarterAfter(b: Book, call: Call)
    requires Sound(b)
    ensures OneQuarterEach(Step(b, call).0.campaigns)
  {
    hide PredictionsFor, CalibrationOf, CalledLines, TakenLines, Text.Trim, ValidQuarter, QuarterLabel, ProposedAll,
         Patched, FilingRefused, ObjectivesOf, FilingCampaign, AllUnfiledFrom, AimRefused, QuarterKept, AllKept, AllApart, AllFiled;
  }

  lemma StepKeeps(b: Book, call: Call)
    requires Sound(b)
    ensures Sound(Step(b, call).0)
  {
    hide Step, QuartersKept, OneQuarterEach, AllKept, AllApart, AllFiled;
    QuartersAfter(b, call);
    PredictionsAfter(b, call);
    OneQuarterAfter(b, call);
  }

  /** Every state a run reaches is sound. */
  lemma {:induction false} RunKeeps(calls: seq<Call>)
    ensures Sound(Run(EMPTY, calls))
  {
    if calls != [] {
      hide Step, Sound;
      RunKeeps(calls[..|calls| - 1]);
      StepKeeps(Run(EMPTY, calls[..|calls| - 1]), calls[|calls| - 1]);
    }
  }

  // ---------- What is shown ----------

  /** The calibration as the page shows it: the sealed score and number beside buckets counted afresh. */
  function Shown(b: Book, id: Id): Calibration
    requires id in b.campaigns
  {
    var cal := CalibrationOf(PredictionsFor(b.predictions, id));
    var c := b.campaigns[id];
    if c.phase == Closed then cal.(score := c.calibration, n := c.calibrationN) else cal
  }

  /** In every reachable state each quarter shows what counting its predictions afresh gives, so its buckets add up to
      its number, and the score is there exactly when five count and lies between 0.04 and 0.64. */
  lemma SealedNumberHolds(calls: seq<Call>, id: Id)
    requires id in Run(EMPTY, calls).campaigns
    ensures var b := Run(EMPTY, calls);
            && Shown(b, id) == CalibrationOf(PredictionsFor(b.predictions, id))
            && InAll(Shown(b, id).buckets) == Shown(b, id).n
            && (Shown(b, id).score.Some? <==> Shown(b, id).n >= 5)
            && (Shown(b, id).score.Some? ==> 0.04 <= Shown(b, id).score.value <= 0.64)
  {
    hide CalibrationOf, PredictionsFor, InAll, Run;
    var b := Run(EMPTY, calls);
    RunKeeps(calls);
    assert QuarterKept(b, id);
    BucketsAddUp(PredictionsFor(b.predictions, id));
    ScoreIsWithin(PredictionsFor(b.predictions, id));
  }

  /** The commendations for failures that were called stay what the predictions, read today, would earn. */
  lemma CalledLinesHold(calls: seq<Call>, id: Id, now: int)
    requires ClosedIn(Run(EMPTY, calls), id)
    ensures var b := Run(EMPTY, calls);
            && id in b.lines
            && NamedLines(b.lines[id]) == CalledLines(id, PredictionsFor(b.predictions, id), now)
  {
    hide PredictionsFor, Run, NamedLines;
    var b := Run(EMPTY, calls);
    RunKeeps(calls);
    assert QuarterKept(b, id);
    var preds := PredictionsFor(b.predictions, id);
    FiledAreKept(b.predictions, id);
    forall p | p in preds && NamedIt(p)
      ensures CalledLine(id, p, now) == CalledLine(id, p, 0)
    {
      assert PredictionKept(p);
    }
    assert CalledLines(id, preds, now) == CalledLines(id, preds, 0);
  }

  /** The checks the tables make on every row hold without being enforced. */
  lemma TableChecksHold(calls: seq<Call>)
    ensures var b := Run(EMPTY, calls);
            && (forall id :: id in b.campaigns ==>
                  var c := b.campaigns[id];
                  && ValidQuarter(c.quarter) && 1 <= |c.name| <= 80
                  && (if c.phase == Closed then c.closedAt.Some?
                      else c.closedAt.None? && c.calibration.None? && c.calibrationN == 0))
            && (forall i :: 0 <= i < |b.predictions| ==>
                  var p := b.predictions[i];
                  && (p.outcome == OutcomeNone <==> p.scoredAt.None?)
                  && (p.outcome == OutcomeNone || p.status == Kept)
                  && (p.chance == ChanceNone || p.status == Kept)
                  && (p.campaignId.Some? ==> p.campaignId.value in b.campaigns))
            && (forall i, j :: 0 <= i < j < |b.predictions| ==>
                  var p, q := b.predictions[i], b.predictions[j];
                  (p.status != Dropped && q.status != Dropped && p.fingerprint == q.fingerprint ==> p.fingerprint == ""))
  {
    hide PredictionsFor, Run, NamedLines, ValidQuarter;
    var b := Run(EMPTY, calls);
    RunKeeps(calls);
    forall id | id in b.campaigns
      ensures QuarterKept(b, id)
    {
    }
    forall i | 0 <= i < |b.predictions|
      ensures PredictionKept(b.predictions[i]) && FiledSomewhere(b, b.predictions[i])
    {
    }
    forall i, j | 0 <= i < j < |b.predictions|
      ensures Apart(b.predictions[i], b.predictions[j])
    {
    }
  }
}
