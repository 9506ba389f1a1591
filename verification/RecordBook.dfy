/** The record as the program keeps it: tables changed in place, each operation reading and writing rows. */
module RecordBook {
  import opened Common
  import opened Calibrating
  import opened Record
  import Sequences
  import Text

  // ---------- Reading ----------

  method FiledOn(preds: seq<Prediction>, id: Id) returns (out: seq<Prediction>)
    ensures out == PredictionsFor(preds, id)
  {
    out := [];
    for i := 0 to |preds|
      invariant out == PredictionsFor(preds[..i], id)
    {
      Sequences.FlatMapOne(OnQuarter(id), preds[..i], preds[i]);
      assert preds[..i + 1] == preds[..i] + [preds[i]];
      if preds[i].campaignId.Some? && preds[i].campaignId.value == id && preds[i].Live() {
        out := out + [preds[i]];
      }
    }
    assert preds[..|preds|] == preds;
  }

  function Group(groups: map<Id, seq<Prediction>>, id: Id): seq<Prediction> {
    if id in groups then groups[id] else []
  }

  /** Every live prediction under its quarter, and the rest; the same lists as reading one quarter at a time. */
  method GroupPredictions(preds: seq<Prediction>) returns (groups: map<Id, seq<Prediction>>, unfiled: seq<Prediction>)
    ensures forall id :: Group(groups, id) == PredictionsFor(preds, id)
    ensures unfiled == Unfiled(preds)
  {
    groups, unfiled := map[], [];
    for i := 0 to |preds|
      invariant forall id :: Group(groups, id) == PredictionsFor(preds[..i], id)
      invariant unfiled == Unfiled(preds[..i])
    {
      var p := preds[i];
      assert preds[..i + 1] == preds[..i] + [p];
      Sequences.FlatMapOne(Loose(), preds[..i], p);
      forall id
        ensures PredictionsFor(preds[..i + 1], id) == PredictionsFor(preds[..i], id) + OnQuarter(id)(p)
      {
        Sequences.FlatMapOne(OnQuarter(id), preds[..i], p);
      }
      if !p.Live() {
        continue;
      }
      if p.campaignId.None? {
        unfiled := unfiled + [p];
        continue;
      }
      var id := p.campaignId.value;
      groups := groups[id := Group(groups, id) + [p]];
    }
    assert preds[..|preds|] == preds;
  }

  /** The commendations a quarter has earned, its objectives taken in any order. */
  method LiveCommendations(campaignId: Id, ids: set<Id>, items: MapItems, preds: seq<Prediction>, now: int)
    returns (out: set<Commendation>)
    ensures out == TakenLines(campaignId, ids, items, now) + CalledLines(campaignId, preds, now)
  {
    out := {};
    var left := ids;
    while left != {}
      invariant left <= ids && out == TakenLines(campaignId, ids - left, items, now)
    {
      var id :| id in left;
      assert ids - (left - {id}) == (ids - left) + {id};
      left := left - {id};
      if id !in items || !items[id].objective {
        continue;
      }
      var item := items[id];
      if item.status != ItemResolved && item.status != ItemWithdrawn {
        continue;
      }
      out := out + {LineFor(campaignId, id, item, now)};
    }
    assert ids - left == ids;
    for i := 0 to |preds|
      invariant out == TakenLines(campaignId, ids, items, now) + CalledLines(campaignId, preds[..i], now)
    {
      var p := preds[i];
      assert preds[..i + 1] == preds[..i] + [p];
      if p.outcome != Called || p.status != Kept {
        continue;
      }
      out := out + {CalledLine(campaignId, p, now)};
    }
    assert preds[..|preds|] == preds;
  }

  method ApplyStatus(p: Prediction, status: Option<PredictionStatus>) returns (r: Result<Prediction, Error>)
    ensures r == if status.None? || status.value == p.status then Ok(p)
                 else if p.status == Proposed then Ok(p.(status := status.value))
                 else Err(PredictionRefused)
  {
    if status.None? || status.value == p.status {
      return Ok(p);
    }
    if p.status != Proposed || (status.value != Kept && status.value != Dropped) {
      return Err(PredictionRefused);
    }
    return Ok(p.(status := status.value));
  }

  method ApplyChance(p: Prediction, patch: Patch) returns (r: Result<Prediction, Error>)
    ensures r == if !patch.clearChance && patch.chance.None? then Ok(p)
                 else if p.status != Kept then Err(PredictionRefused)
                 else if !patch.clearChance && patch.chance.value == ChanceNone then Err(Malformed)
                 else Ok(p.(chance := if patch.clearChance then ChanceNone else patch.chance.value))
  {
    if !patch.clearChance && patch.chance.None? {
      return Ok(p);
    }
    if p.status != Kept {
      return Err(PredictionRefused);
    }
    if patch.clearChance {
      return Ok(p.(chance := ChanceNone));
    }
    if patch.chance.value == ChanceNone {
      return Err(Malformed);
    }
    return Ok(p.(chance := patch.chance.value));
  }

  method ApplyOutcome(p: Prediction, patch: Patch, now: int) returns (r: Result<Prediction, Error>)
    ensures r == if !patch.clearOutcome && patch.outcome.None? then Ok(p)
                 else if p.status != Kept then Err(PredictionRefused)
                 else if patch.clearOutcome then Ok(p.(outcome := OutcomeNone, scoredAt := None))
                 else if patch.outcome.value == OutcomeNone then Err(Malformed)
                 else Ok(p.(outcome := patch.outcome.value, scoredAt := Some(now)))
  {
    if !patch.clearOutcome && patch.outcome.None? {
      return Ok(p);
    }
    if p.status != Kept {
      return Err(PredictionRefused);
    }
    if patch.clearOutcome {
      return Ok(p.(outcome := OutcomeNone, scoredAt := None));
    }
    if patch.outcome.value == OutcomeNone {
      return Err(Malformed);
    }
    return Ok(p.(outcome := patch.outcome.value, scoredAt := Some(now)));
  }

  method ApplyFiling(prediction: Prediction, patch: Patch) returns (p: Prediction)
    ensures p == prediction.(
      campaignId := if patch.campaignId.Some? then patch.campaignId
                    else if patch.clearCampaign then None else prediction.campaignId,
      objectiveId := if patch.objectiveId.Some? then patch.objectiveId
                     else if patch.clearObjective then None else prediction.objectiveId)
  {
    p := prediction;
    if patch.clearCampaign {
      p := p.(campaignId := None);
    }
    if patch.campaignId.Some? {
      p := p.(campaignId := patch.campaignId);
    }
    if patch.clearObjective {
      p := p.(objectiveId := None);
    }
    if patch.objectiveId.Some? {
      p := p.(objectiveId := patch.objectiveId);
    }
  }

  /** A prediction changed field by field; the first refusal leaves the stored one alone. */
  method ApplyPrediction(prediction: Prediction, patch: Patch, now: int) returns (r: Result<Prediction, Error>)
    ensures r == Patched(prediction, patch, now)
  {
    r := ApplyStatus(prediction, patch.status);
    if r.Err? {
      return r;
    }
    r := ApplyChance(r.value, patch);
    if r.Err? {
      return r;
    }
    r := ApplyOutcome(r.value, patch, now);
    if r.Err? {
      return r;
    }
    var p := ApplyFiling(r.value, patch);
    if p.status == Dropped {
      p := p.(chance := ChanceNone, outcome := OutcomeNone, scoredAt := None);
    }
    return Ok(p);
  }

  /** The first open quarter with today's key, the quarters read in any order. */
  method FindFilingCampaign(campaigns: map<Id, Campaign>, today: string) returns (found: Option<Id>)
    requires OneQuarterEach(campaigns)
    ensures found == FilingCampaign(campaigns, today)
  {
    var left := campaigns.Keys;
    while left != {}
      invariant left <= campaigns.Keys
      invariant forall id :: Filing(campaigns, id, today) ==> id in left
    {
      var id :| id in left;
      if campaigns[id].quarter == today && campaigns[id].phase != Closed {
        assert Filing(campaigns, id, today);
        return Some(id);
      }
      left := left - {id};
    }
    return None;
  }

  // ---------- Writing ----------

  class Desk {
    var campaigns: map<Id, Campaign>
    var predictions: seq<Prediction>
    var objectives: set<(Id, Id)>
    var lines: map<Id, set<Commendation>>

    function Value(): Book
      reads this
    {
      Book(campaigns, predictions, objectives, lines)
    }

    constructor ()
      ensures Value() == EMPTY
    {
      campaigns, predictions, objectives, lines := map[], [], {}, map[];
    }

    method UpdateCampaign(c: Campaign) returns (answer: Answer)
      modifies this`campaigns
      ensures (Value(), answer) == Updated(old(Value()), c)
    {
      if c.id !in campaigns || campaigns[c.id].phase == Closed {
        return Refused(NotFound);
      }
      campaigns := campaigns[c.id := campaigns[c.id].(
        name := c.name, phase := c.phase, note := c.note, review := c.review, reviewAt := c.reviewAt)];
      return Done;
    }

    method CreateCampaign(c: Campaign) returns (answer: Answer)
      modifies this`campaigns
      ensures (Value(), answer) == Created(old(Value()), c)
    {
      if c.id in campaigns || QuarterTaken(campaigns, c.quarter) {
        return Refused(Duplicate);
      }
      campaigns := campaigns[c.id := c];
      return Done;
    }

    method Open(id: Id, name: string, quarter: string, today: string, now: int) returns (answer: Answer)
      modifies this
      ensures (Value(), answer) == Step(old(Value()), Call.Open(id, name, quarter, today, now))
    {
      var key := Text.Trim(quarter);
      if key == "" {
        key := today;
      }
      if !ValidQuarter(key) {
        return Refused(Malformed);
      }
      var title := Text.Trim(name);
      if title == "" {
        title := QuarterLabel(key);
      }
      if |title| > MAX_CAMPAIGN_NAME {
        return Refused(Malformed);
      }
      answer := CreateCampaign(Campaign(id, key, title, Planning, "", "", None, now, None, None, 0));
    }

    method Seal(id: Id, items: MapItems, now: int)
      requires id in campaigns
      modifies this
      ensures Value() == Sealed(old(Value()), id, items, now)
    {
      var preds := FiledOn(predictions, id);
      var cal := Calibrate(preds);
      var earned := LiveCommendations(id, ObjectivesOf(objectives, id), items, preds, now);
      campaigns := campaigns[id := campaigns[id].(
        phase := Closed, closedAt := Some(now), calibration := cal.score, calibrationN := cal.n)];
      lines := lines[id := earned];
    }

    method Advance(id: Id, to: Phase, items: MapItems, now: int) returns (answer: Answer)
      modifies this
      ensures (Value(), answer) == Step(old(Value()), Call.Advance(id, to, items, now))
    {
      if id !in campaigns {
        return Refused(NotFound);
      }
      var c := campaigns[id];
      if c.phase == Closed {
        return Refused(AlreadyClosed);
      }
      if !PhaseAllowed(c.phase, to) {
        return Refused(PhaseRefused);
      }
      if to == Closed {
        Seal(id, items, now);
        return Done;
      }
      answer := UpdateCampaign(c.(phase := to));
    }

    method SetNote(id: Id, note: string) returns (answer: Answer)
      modifies this
      ensures (Value(), answer) == Step(old(Value()), Call.SetNote(id, note))
    {
      var line := Text.Trim(note);
      if |line| > MAX_CAMPAIGN_NOTE {
        return Refused(Malformed);
      }
      var refused := Locked(Value(), id);
      if refused.Some? {
        return Refused(refused.value);
      }
      answer := UpdateCampaign(campaigns[id].(note := line));
    }

    method WriteReview(id: Id, written: string, now: int) returns (answer: Answer)
      modifies this
      ensures (Value(), answer) == Step(old(Value()), Call.WriteReview(id, written, now))
    {
      var body := Text.Trim(written);
      if body == "" {
        return Refused(Malformed);
      }
      if id !in campaigns {
        return Refused(NotFound);
      }
      if campaigns[id].phase != Review {
        return Refused(PhaseRefused);
      }
      answer := UpdateCampaign(campaigns[id].(review := body, reviewAt := Some(now)));
    }

    method Delete(id: Id) returns (answer: Answer)
      modifies this
      ensures (Value(), answer) == Step(old(Value()), Call.Delete(id))
    {
      var refused := Locked(Value(), id);
      if refused.Some? {
        return Refused(refused.value);
      }
      campaigns := campaigns - {id};
      predictions := AllUnfiledFrom(predictions, id);
      objectives := set pair | pair in objectives && pair.0 != id;
      return Done;
    }

    method Assign(id: Id, item: Id, items: MapItems) returns (answer: Answer)
      modifies this
      ensures (Value(), answer) == Step(old(Value()), Call.Assign(id, item, items))
    {
      var refused := Locked(Value(), id);
      if refused.None? {
        refused := AimRefused(items, Some(item));
      }
      if refused.Some? {
        return Refused(refused.value);
      }
      objectives := objectives + {(id, item)};
      return Done;
    }

    method Unassign(id: Id, item: Id) returns (answer: Answer)
      modifies this
      ensures (Value(), answer) == Step(old(Value()), Call.Unassign(id, item))
    {
      var refused := Locked(Value(), id);
      if refused.Some? {
        return Refused(refused.value);
      }
      if (id, item) !in objectives {
        return Refused(NotFound);
      }
      objectives := objectives - {(id, item)};
      return Done;
    }

    method PatchPrediction(id: Id, patch: Patch, items: MapItems, now: int) returns (answer: Answer)
      modifies this
      ensures (Value(), answer) == Step(old(Value()), Call.PatchPrediction(id, patch, items, now))
    {
      var i := Find(predictions, id);
      if i == |predictions| {
        return Refused(NotFound);
      }
      var refused := FilingRefused(Value(), predictions[i].campaignId);
      if refused.Some? {
        return Refused(refused.value);
      }
      var patched := ApplyPrediction(predictions[i], patch, now);
      if patched.Err? {
        return Refused(patched.error);
      }
      refused := FilingRefused(Value(), patched.value.campaignId);
      if refused.None? {
        refused := AimRefused(items, patched.value.objectiveId);
      }
      if refused.Some? {
        return Refused(refused.value);
      }
      predictions := predictions[i := patched.value];
      return Done;
    }

    method FromPreMortem(failures: seq<Failure>, today: string) returns (answer: Answer)
      requires OneQuarterEach(campaigns)
      modifies this
      ensures (Value(), answer) == Step(old(Value()), Call.FromPreMortem(failures, today))
    {
      var campaign := FindFilingCampaign(campaigns, today);
      ghost var before := predictions;
      for i := 0 to |failures|
        invariant campaigns == old(campaigns) && objectives == old(objectives) && lines == old(lines)
        invariant predictions == ProposedAll(before, failures[..i], campaign)
      {
        assert failures[..i + 1][..i] == failures[..i];
        var p := Proposal(failures[i], campaign);
        if !OnTheRecord(predictions, p) {
          predictions := [p] + predictions;
        }
      }
      assert failures[..|failures|] == failures;
      return Done;
    }
  }
}
