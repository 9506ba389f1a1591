/** What each operation on the record answers and writes. */
module RecordEffects {
  import opened Common
  import opened Calibrating
  import opened Record
  import opened RecordLaws
  import Sequences
  import Text

  // ---------- Predictions ----------

  /** Where a patch leaves a prediction's quarter and objective. */
  predicate PlacedAs(was: Prediction, patch: Patch, became: Prediction) {
    && became.campaignId == (if patch.campaignId.Some? then patch.campaignId
                             else if patch.clearCampaign then None else was.campaignId)
    && became.objectiveId == (if patch.objectiveId.Some? then patch.objectiveId
                              else if patch.clearObjective then None else was.objectiveId)
  }

  /** What it leaves of its status, and of a kept one's chance and outcome. */
  predicate JudgedAs(was: Prediction, patch: Patch, became: Prediction, now: int) {
    && became.status == (if patch.status.Some? then patch.status.value else was.status)
    && (became.status == Dropped ==>
          became.chance == ChanceNone && became.outcome == OutcomeNone && became.scoredAt.None?)
    && (became.status != Dropped ==>
          && became.chance == (if patch.clearChance then ChanceNone
                               else if patch.chance.Some? then patch.chance.value else was.chance)
          && became.outcome == (if patch.clearOutcome then OutcomeNone
                                else if patch.outcome.Some? then patch.outcome.value else was.outcome)
          && became.scoredAt == (if patch.clearOutcome then None
                                 else if patch.outcome.Some? then Some(now) else was.scoredAt))
  }

  /** What says which prediction it is and what it foresaw. */
  predicate SameWords(was: Prediction, became: Prediction) {
    became.id == was.id && became.text == was.text && became.warning == was.warning && became.fingerprint == was.fingerprint
  }

  /** Exactly this prediction was changed, and nothing else in the tables. */
  predicate OnlyAt(b: Book, c: Book, i: nat) {
    && i < |b.predictions| == |c.predictions|
    && c == b.(predictions := c.predictions)
    && forall j :: 0 <= j < |b.predictions| && j != i ==> c.predictions[j] == b.predictions[j]
  }

  /** A patch that a prediction may be given: a proposal is kept or dropped once and for all; only a kept one takes a
      chance or an outcome; and nothing is the way to clear neither. */
  predicate Legal(p: Prediction, patch: Patch) {
    var status := if patch.status.Some? then patch.status.value else p.status;
    && (status == p.status || (p.status == Proposed && (status == Kept || status == Dropped)))
    && (patch.clearChance || patch.chance.Some? || patch.clearOutcome || patch.outcome.Some? ==> status == Kept)
    && (patch.clearChance || patch.chance != Some(ChanceNone))
    && (patch.clearOutcome || patch.outcome != Some(OutcomeNone))
  }

  /** A quarter that may still be changed. */
  predicate StillOpen(b: Book, id: Id) {
    id in b.campaigns && b.campaigns[id].phase != Closed
  }

  predicate OnMap(items: MapItems, id: Id) {
    && id in items && items[id].objective
    && (items[id].status == ItemActive || items[id].status == ItemResolved || items[id].status == ItemWithdrawn)
  }

  /** Everything a patch is checked for, known before the call. */
  predicate MayPatch(b: Book, i: nat, patch: Patch, items: MapItems)
    requires i < |b.predictions|
  {
    var was := b.predictions[i];
    var quarter := if patch.campaignId.Some? then patch.campaignId
                   else if patch.clearCampaign then None else was.campaignId;
    var objective := if patch.objectiveId.Some? then patch.objectiveId
                     else if patch.clearObjective then None else was.objectiveId;
    && (was.campaignId.Some? ==> StillOpen(b, was.campaignId.value))
    && Legal(was, patch)
    && (quarter.Some? ==> StillOpen(b, quarter.value))
    && (objective.Some? ==> OnMap(items, objective.value))
  }

  lemma LegalIff(p: Prediction, patch: Patch, now: int)
    ensures Patched(p, patch, now).Ok? <==> Legal(p, patch)
    ensures Patched(p, patch, now).Ok? ==>
              var q := Patched(p, patch, now).value; PlacedAs(p, patch, q) && JudgedAs(p, patch, q, now) && SameWords(p, q)
  {
  }

  /** A patch takes exactly when it may, and then makes of the prediction what it says and of nothing else anything. */
  lemma PatchIs(b: Book, id: Id, patch: Patch, items: MapItems, now: int)
    ensures var (c, answer) := Repatched(b, id, patch, items, now);
            var i := Find(b.predictions, id);
            && (answer == Done <==> i < |b.predictions| && MayPatch(b, i, patch, items))
            && (answer != Done ==> c == b)
            && (answer == Done ==>
                  var was, became := b.predictions[i], c.predictions[i];
                  && was.id == id && OnlyAt(b, c, i)
                  && PlacedAs(was, patch, became) && JudgedAs(was, patch, became, now) && SameWords(was, became))
  {
    hide Patched, Legal, JudgedAs;
    var i := Find(b.predictions, id);
    if i < |b.predictions| {
      LegalIff(b.predictions[i], patch, now);
    }
  }

  lemma {:induction false} FiledMembers(preds: seq<Prediction>, id: Id, p: Prediction)
    ensures p in PredictionsFor(preds, id) <==> p in preds && p.campaignId == Some(id) && p.Live()
  {
    if preds != [] {
      var n := |preds| - 1;
      assert preds == preds[..n] + [preds[n]];
      FiledMembers(preds[..n], id, p);
    }
  }

  /** A prediction a patch files is on the quarter named and, if live, is counted there and nowhere else. */
  lemma FiledWhereSaid(b: Book, id: Id, patch: Patch, items: MapItems, now: int, quarter: Id)
    requires Repatched(b, id, patch, items, now).1 == Done && patch.campaignId.Some?
    ensures var c := Repatched(b, id, patch, items, now).0;
            var became := c.predictions[Find(b.predictions, id)];
            became.Live() ==> (became in PredictionsFor(c.predictions, quarter) <==> quarter == patch.campaignId.value)
  {
    hide Repatched, Find, PredictionsFor, JudgedAs;
    PatchIs(b, id, patch, items, now);
    var c := Repatched(b, id, patch, items, now).0;
    FiledMembers(c.predictions, quarter, c.predictions[Find(b.predictions, id)]);
  }

  /** A quarter still open is written: its name, phase, note and review as given, and nothing that was sealed with it. */
  lemma WriteIs(b: Book, c: Campaign)
    ensures var (after, answer) := Updated(b, c);
            if !StillOpen(b, c.id) then after == b && answer == Refused(NotFound)
            else
              && answer == Done
              && after == b.(campaigns := b.campaigns[c.id := b.campaigns[c.id].(
                   name := c.name, phase := c.phase, note := c.note, review := c.review, reviewAt := c.reviewAt)])
  {
  }

  /** The predictions shown beside the quarters are the live ones filed on none, and those of a quarter the live ones filed
      on it, each in the order there is. */
  lemma OneMoreShown(preds: seq<Prediction>, p: Prediction, id: Id)
    ensures var live := p.status == Proposed || p.status == Kept;
            && Unfiled(preds + [p]) == Unfiled(preds) + (if live && p.campaignId == None then [p] else [])
            && PredictionsFor(preds + [p], id)
               == PredictionsFor(preds, id) + (if live && p.campaignId == Some(id) then [p] else [])
            && Unfiled([]) == [] && PredictionsFor([], id) == []
  {
    assert (preds + [p])[..|preds|] == preds;
  }

  // ---------- What a pre-mortem files ----------

  /** A failure on the record: its own row, or a live one that says the same. */
  predicate Recorded(preds: seq<Prediction>, failure: Failure, campaign: Option<Id>) {
    exists q :: q in preds && (q.id == failure.id || SaysIt(q, failure))
  }

  predicate SaysIt(q: Prediction, failure: Failure) {
    (q.status == Proposed || q.status == Kept) && failure.fingerprint != "" && q.fingerprint == failure.fingerprint
  }

  lemma RecordedIs(preds: seq<Prediction>, failure: Failure, campaign: Option<Id>)
    ensures Recorded(preds, failure, campaign) <==> OnTheRecord(preds, Proposal(failure, campaign))
  {
    var p := Proposal(failure, campaign);
    forall q ensures SaysIt(q, failure) <==> SameLiveText(p, q) {
    }
    hide SaysIt, SameLiveText;
    if OnTheRecord(preds, p) {
      var q :| q in preds && (q.id == p.id || SameLiveText(p, q));
      assert q.id == failure.id || SaysIt(q, failure);
    }
    if Recorded(preds, failure, campaign) {
      var q :| q in preds && (q.id == failure.id || SaysIt(q, failure));
      assert q.id == p.id || SameLiveText(p, q);
    }
  }

  /** A proposal just as the failure was named, filed where the rest of them are. */
  predicate IsProposalOf(p: Prediction, failure: Failure, campaign: Option<Id>) {
    && p.id == failure.id && p.text == failure.text && p.warning == failure.warning && p.fingerprint == failure.fingerprint
    && p.status == Proposed && p.chance == ChanceNone && p.outcome == OutcomeNone && p.scoredAt.None?
    && p.campaignId == campaign && p.objectiveId == failure.aim
  }

  lemma OneIsFiled(preds: seq<Prediction>, failure: Failure, campaign: Option<Id>)
    ensures var r := ProposedOne(preds, failure, campaign);
            if Recorded(preds, failure, campaign) then r == preds
            else |r| == |preds| + 1 && r[1..] == preds && IsProposalOf(r[0], failure, campaign)
    ensures Recorded(ProposedOne(preds, failure, campaign), failure, campaign)
  {
    hide OnTheRecord, SaysIt;
    RecordedIs(preds, failure, campaign);
    var p := Proposal(failure, campaign);
    if !Recorded(preds, failure, campaign) {
      assert p in [p] + preds && p.id == failure.id;
    }
  }

  lemma StaysRecorded(preds: seq<Prediction>, more: seq<Prediction>, failure: Failure, campaign: Option<Id>)
    requires Recorded(preds, failure, campaign)
    ensures Recorded(more + preds, failure, campaign)
  {
    hide SaysIt;
    var q :| q in preds && (q.id == failure.id || SaysIt(q, failure));
    assert q in more + preds;
  }

  lemma {:induction false} OldStand(preds: seq<Prediction>, failures: seq<Failure>, campaign: Option<Id>)
    ensures var r := ProposedAll(preds, failures, campaign); |preds| <= |r| && r[|r| - |preds|..] == preds
  {
    if failures != [] {
      hide ProposedOne, Recorded, IsProposalOf;
      var n := |failures| - 1;
      OldStand(preds, failures[..n], campaign);
      OneIsFiled(ProposedAll(preds, failures[..n], campaign), failures[n], campaign);
    }
  }

  predicate AllProposals(preds: seq<Prediction>, failures: seq<Failure>, campaign: Option<Id>) {
    forall i :: 0 <= i < |preds| ==> OneOf(preds[i], failures, campaign)
  }

  predicate OneOf(p: Prediction, failures: seq<Failure>, campaign: Option<Id>) {
    exists k :: 0 <= k < |failures| && IsProposalOf(p, failures[k], campaign)
  }

  lemma ProposalsSoFar(preds: seq<Prediction>, failures: seq<Failure>, more: Failure, campaign: Option<Id>)
    requires AllProposals(preds, failures, campaign)
    ensures AllProposals(preds, failures + [more], campaign)
  {
    hide IsProposalOf;
    forall i | 0 <= i < |preds|
      ensures OneOf(preds[i], failures + [more], campaign)
    {
      var k :| 0 <= k < |failures| && IsProposalOf(preds[i], failures[k], campaign);
      assert (failures + [more])[k] == failures[k];
    }
  }

  lemma OneMoreProposal(p: Prediction, preds: seq<Prediction>, failures: seq<Failure>, campaign: Option<Id>)
    requires failures != [] && IsProposalOf(p, failures[|failures| - 1], campaign) && AllProposals(preds, failures, campaign)
    ensures AllProposals([p] + preds, failures, campaign)
  {
    hide IsProposalOf;
  }

  lemma {:induction false} NewAreProposals(preds: seq<Prediction>, failures: seq<Failure>, campaign: Option<Id>)
    ensures var r := ProposedAll(preds, failures, campaign);
            |preds| <= |r| && AllProposals(r[..|r| - |preds|], failures, campaign)
  {
    hide ProposedOne, Recorded, IsProposalOf, AllProposals;
    OldStand(preds, failures, campaign);
    var r := ProposedAll(preds, failures, campaign);
    if failures == [] {
      NoProposals(campaign);
    } else {
      var n := |failures| - 1;
      var before := ProposedAll(preds, failures[..n], campaign);
      NewAreProposals(preds, failures[..n], campaign);
      OneIsFiled(before, failures[n], campaign);
      assert failures == failures[..n] + [failures[n]];
      ProposalsSoFar(before[..|before| - |preds|], failures[..n], failures[n], campaign);
      if r != before {
        OneMoreProposal(r[0], before[..|before| - |preds|], failures, campaign);
        assert r[..|r| - |preds|] == [r[0]] + before[..|before| - |preds|];
      }
    }
  }

  lemma NoProposals(campaign: Option<Id>)
    ensures AllProposals([], [], campaign)
  {
  }

  lemma {:induction false} AllAreRecorded(preds: seq<Prediction>, failures: seq<Failure>, campaign: Option<Id>, k: nat)
    requires k < |failures|
    ensures Recorded(ProposedAll(preds, failures, campaign), failures[k], campaign)
  {
    hide ProposedOne, Recorded, IsProposalOf;
    var n := |failures| - 1;
    var before, r := ProposedAll(preds, failures[..n], campaign), ProposedAll(preds, failures, campaign);
    OneIsFiled(before, failures[n], campaign);
    if k < n {
      AllAreRecorded(preds, failures[..n], campaign, k);
      StaysRecorded(before, r[..|r| - |before|], failures[k], campaign);
      assert r == r[..|r| - |before|] + before;
    }
  }

  /** What stood before stands, in its order, behind what is new; each new row is a proposal for one of the failures; and
      every failure is on the record then. */
  lemma FailuresAreFiled(preds: seq<Prediction>, failures: seq<Failure>, campaign: Option<Id>)
    ensures var r := ProposedAll(preds, failures, campaign);
            && |preds| <= |r| && r[|r| - |preds|..] == preds
            && AllProposals(r[..|r| - |preds|], failures, campaign)
            && forall k :: 0 <= k < |failures| ==> Recorded(r, failures[k], campaign)
  {
    hide ProposedAll, Recorded, AllProposals;
    OldStand(preds, failures, campaign);
    NewAreProposals(preds, failures, campaign);
    forall k | 0 <= k < |failures|
      ensures Recorded(ProposedAll(preds, failures, campaign), failures[k], campaign)
    {
      AllAreRecorded(preds, failures, campaign, k);
    }
  }

  /** A pre-mortem files on the open quarter of today, or on none where there is none. */
  lemma FilingIs(b: Book, failures: seq<Failure>, today: string)
    ensures var r := Step(b, FromPreMortem(failures, today)).0;
            exists campaign ::
              && r == b.(predictions := ProposedAll(b.predictions, failures, campaign))
              && (campaign.Some? ==> StillOpen(b, campaign.value) && b.campaigns[campaign.value].quarter == today)
              && (campaign.None? ==> forall id :: StillOpen(b, id) ==> b.campaigns[id].quarter != today)
  {
    var campaign := FilingCampaign(b.campaigns, today);
    if campaign.None? {
      forall id | StillOpen(b, id)
        ensures b.campaigns[id].quarter != today
      {
        assert !Filing(b.campaigns, id, today);
      }
    }
    assert Step(b, FromPreMortem(failures, today)).0 == b.(predictions := ProposedAll(b.predictions, failures, campaign));
  }

  // ---------- Quarters ----------

  /** The moves a quarter makes. */
  const MOVES := {(Planning, Operations), (Operations, Review), (Review, Operations), (Review, Phase.Closed)}

  /** Advancing takes exactly along the moves.  Short of closing only the phase changes. */
  lemma AdvanceIs(b: Book, id: Id, to: Phase, items: MapItems, now: int)
    requires Sound(b)
    ensures var (c, answer) := Advanced(b, id, to, items, now);
            && (answer == Done <==> id in b.campaigns && (b.campaigns[id].phase, to) in MOVES)
            && (answer != Done ==> c == b)
            && (answer == Done && to != Closed ==>
                  c == b.(campaigns := b.campaigns[id := b.campaigns[id].(phase := to)]))
            && (answer == Done && to == Closed ==> SealedAs(b, c, id, items, now))
            && (id !in b.campaigns ==> answer == Refused(NotFound))
            && (id in b.campaigns && b.campaigns[id].phase == Closed ==> answer == Refused(AlreadyClosed))
  {
    hide PredictionsFor, CalibrationOf, TakenLines, CalledLines, ObjectivesOf, OneQuarterEach, AllKept, AllApart, AllFiled;
    if id in b.campaigns {
      assert QuarterKept(b, id);
      if Advanced(b, id, to, items, now).1 == Done && to == Closed {
        SealIs(b, id, items, now);
      }
    }
  }

  /** A commendation for an objective of the quarter that was taken or withdrawn, or for a failure that was called. */
  predicate Earned(line: Commendation, b: Book, id: Id, items: MapItems, now: int) {
    && line.campaignId == id
    && match line.kind
       case TakenKind =>
         && (id, line.refId) in b.objectives && line.refId in items && items[line.refId].objective
         && items[line.refId].status == ItemResolved && line.text == items[line.refId].text
         && line.createdAt == (if items[line.refId].resolvedAt.Some? then items[line.refId].resolvedAt.value else now)
       case WithdrawalKind =>
         && (id, line.refId) in b.objectives && line.refId in items && items[line.refId].objective
         && items[line.refId].status == ItemWithdrawn && line.text == items[line.refId].text
         && line.createdAt == (if items[line.refId].resolvedAt.Some? then items[line.refId].resolvedAt.value else now)
       case CalledKind =>
         exists p :: p in b.predictions && IsCalled(line, p, id, now)
  }

  predicate IsCalled(line: Commendation, p: Prediction, id: Id, now: int) {
    && p.campaignId == Some(id) && p.status == Kept && p.outcome == Called && line.refId == p.id && line.text == p.text
    && line.createdAt == (if p.scoredAt.Some? then p.scoredAt.value else now)
  }

  /** What closing writes. */
  ghost predicate SealedAs(b: Book, c: Book, id: Id, items: MapItems, now: int)
    requires id in b.campaigns
  {
    var cal := CalibrationOf(PredictionsFor(b.predictions, id));
    && id in c.campaigns && id in c.lines
    && c == b.(campaigns := b.campaigns[id := c.campaigns[id]], lines := b.lines[id := c.lines[id]])
    && c.campaigns[id] == b.campaigns[id].(phase := Closed, closedAt := Some(now), calibration := cal.score,
                                           calibrationN := cal.n)
    && forall line :: line in c.lines[id] <==> Earned(line, b, id, items, now)
  }

  lemma TakenAre(b: Book, id: Id, items: MapItems, now: int, line: Commendation)
    ensures line in TakenLines(id, ObjectivesOf(b.objectives, id), items, now)
            <==> line.kind != CalledKind && Earned(line, b, id, items, now)
  {
    var ids := ObjectivesOf(b.objectives, id);
    forall item ensures item in ids <==> (id, item) in b.objectives {
      if (id, item) in b.objectives {
        var pair := (id, item);
        assert pair in b.objectives && pair.0 == id;
      }
    }
    if line.kind != CalledKind && Earned(line, b, id, items, now) {
      assert line == LineFor(id, line.refId, items[line.refId], now);
    }
  }

  lemma CalledAre(b: Book, id: Id, items: MapItems, now: int, line: Commendation)
    ensures line in CalledLines(id, PredictionsFor(b.predictions, id), now)
            <==> line.kind == CalledKind && Earned(line, b, id, items, now)
  {
    hide PredictionsFor;
    var preds := PredictionsFor(b.predictions, id);
    if line in CalledLines(id, preds, now) {
      var p :| p in preds && NamedIt(p) && line == CalledLine(id, p, now);
      FiledMembers(b.predictions, id, p);
      assert IsCalled(line, p, id, now);
    }
    if line.kind == CalledKind && Earned(line, b, id, items, now) {
      var p :| p in b.predictions && IsCalled(line, p, id, now);
      FiledMembers(b.predictions, id, p);
      assert line == CalledLine(id, p, now);
    }
  }

  lemma SealIs(b: Book, id: Id, items: MapItems, now: int)
    requires id in b.campaigns
    ensures SealedAs(b, Sealed(b, id, items, now), id, items, now)
  {
    hide PredictionsFor, CalibrationOf, TakenLines, CalledLines, Earned;
    var c := Sealed(b, id, items, now);
    forall line ensures line in c.lines[id] <==> Earned(line, b, id, items, now) {
      TakenAre(b, id, items, now, line);
      CalledAre(b, id, items, now, line);
    }
  }

  /** Opening takes exactly when the key, the one given or today's, is a quarter with no row yet and the name, the one given
      or the quarter's own, is short enough; the quarter is then planned, with nothing written on it. */
  lemma OpenIs(b: Book, id: Id, name: string, quarter: string, today: string, now: int)
    ensures var key := if Text.Trim(quarter) == "" then today else Text.Trim(quarter);
            var title := if Text.Trim(name) == "" then QuarterLabel(key) else Text.Trim(name);
            var (c, answer) := Opened(b, id, name, quarter, today, now);
            && (answer == Done <==>
                  && ValidQuarter(key) && |title| <= 80 && id !in b.campaigns
                  && forall other :: other in b.campaigns ==> b.campaigns[other].quarter != key)
            && (answer != Done ==> c == b)
            && (answer == Done ==>
                  c == b.(campaigns := b.campaigns[id := Campaign(id, key, title, Planning, "", "", None, now, None, None, 0)]))
  {
    hide Text.Trim, ValidQuarter, QuarterLabel;
  }

  /** A key is four digits, "-Q" and a digit from 1 to 4; it reads with a space in place of the dash. */
  lemma QuarterKeyIs(key: string)
    ensures ValidQuarter(key) <==>
              && |key| == 7 && key[4..6] == "-Q" && (forall i :: 0 <= i < 4 ==> '0' <= key[i] <= '9')
              && key[6] in {'1', '2', '3', '4'}
    ensures ValidQuarter(key) ==> QuarterLabel(key) == key[..4] + " Q" + key[6..]
  {
    if |key| == 7 {
      assert key[4..6] == [key[4], key[5]];
      assert key[4] == '-' && key[5] == 'Q' ==> key[5..] == "Q" + key[6..];
    }
  }

  lemma RowIsNamed(b: Book, id: Id)
    requires Sound(b) && id in b.campaigns
    ensures b.campaigns[id].id == id
  {
    hide PredictionsFor, CalibrationOf, CalledLines, NamedLines;
    assert QuarterKept(b, id);
  }

  /** A note is kept, trimmed, on a quarter still open, if it is short enough. */
  lemma NoteIs(b: Book, id: Id, note: string)
    requires Sound(b)
    ensures var (c, answer) := Noted(b, id, note);
            && (answer == Done <==> StillOpen(b, id) && |Text.Trim(note)| <= 2000)
            && (answer != Done ==> c == b)
            && (answer == Done ==> c == b.(campaigns := b.campaigns[id := b.campaigns[id].(note := Text.Trim(note))]))
  {
    hide Text.Trim, Sound;
    if id in b.campaigns {
      RowIsNamed(b, id);
    }
  }

  /** A review is kept, with its moment, exactly while the quarter is in review and the answer says something. */
  lemma ReviewIs(b: Book, id: Id, answer: string, now: int)
    requires Sound(b)
    ensures var (c, told) := Reviewed(b, id, answer, now);
            && (told == Done <==> id in b.campaigns && b.campaigns[id].phase == Review && Text.Trim(answer) != "")
            && (told != Done ==> c == b)
            && (told == Done ==>
                  c == b.(campaigns := b.campaigns[
                            id := b.campaigns[id].(review := Text.Trim(answer), reviewAt := Some(now))]))
  {
    hide Text.Trim, Sound;
    if id in b.campaigns {
      RowIsNamed(b, id);
    }
  }

  /** A quarter still open can go; its predictions stay, in place, filed on none, and no objective is on it any more. */
  lemma DeleteIs(b: Book, id: Id)
    ensures var (c, answer) := Deleted(b, id);
            && (answer == Done <==> StillOpen(b, id))
            && (answer != Done ==> c == b)
            && (answer == Done ==>
                  && c.campaigns == b.campaigns - {id} && c.lines == b.lines
                  && (forall pair :: pair in c.objectives <==> pair in b.objectives && pair.0 != id)
                  && |c.predictions| == |b.predictions|
                  && forall i :: 0 <= i < |b.predictions| ==>
                       c.predictions[i] == if b.predictions[i].campaignId == Some(id)
                                           then b.predictions[i].(campaignId := None) else b.predictions[i])
  {
  }

  /** An objective of the map can be put on a quarter still open, or taken off one it is on; all others stay where they
      are. */
  lemma AssignIs(b: Book, id: Id, item: Id, items: MapItems)
    ensures var (c, answer) := Assigned(b, id, item, items);
            && (answer == Done <==> StillOpen(b, id) && OnMap(items, item))
            && (answer != Done ==> c == b)
            && (answer == Done ==>
                  c == b.(objectives := c.objectives)
                  && forall pair :: pair in c.objectives <==> pair in b.objectives || pair == (id, item))
    ensures var (c, answer) := Unassigned(b, id, item);
            && (answer == Done <==> StillOpen(b, id) && (id, item) in b.objectives)
            && (answer != Done ==> c == b)
            && (answer == Done ==>
                  c == b.(objectives := c.objectives)
                  && forall pair :: pair in c.objectives <==> pair in b.objectives && pair != (id, item))
  {
  }
}
