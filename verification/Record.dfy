/** The campaign record: quarters and predictions, and what is sealed when a quarter closes.
    Each operation, with the table updates it makes, is one step; identifiers and moments come with the call. */
module Record {
  import opened Common
  import opened Calibrating
  import Sequences
  import Text

  datatype Phase = Planning | Operations | Review | Closed

  datatype Campaign = Campaign(
    id: Id, quarter: string, name: string, phase: Phase, note: string, review: string, reviewAt: Option<int>,
    openedAt: int, closedAt: Option<int>, calibration: Option<real>, calibrationN: nat)

  datatype ItemStatus = ItemProposed | ItemActive | ItemResolved | ItemWithdrawn | ItemDropped

  datatype MapItem = MapItem(objective: bool, text: string, status: ItemStatus, resolvedAt: Option<int>)

  type MapItems = map<Id, MapItem>

  datatype Kind = TakenKind | WithdrawalKind | CalledKind

  datatype Commendation = Commendation(campaignId: Id, kind: Kind, text: string, refId: Id, createdAt: int)

  datatype Failure = Failure(id: Id, text: string, warning: string, fingerprint: string, aim: Option<Id>)

  datatype Patch = Patch(
    status: Option<PredictionStatus>, chance: Option<Chance>, clearChance: bool, outcome: Option<Outcome>,
    clearOutcome: bool, campaignId: Option<Id>, clearCampaign: bool, objectiveId: Option<Id>, clearObjective: bool)

  /** The tables.  Predictions are listed newest first; a pair in `objectives` is a quarter and an objective. */
  datatype Book = Book(
    campaigns: map<Id, Campaign>, predictions: seq<Prediction>, objectives: set<(Id, Id)>,
    lines: map<Id, set<Commendation>>)

  datatype Error = NotFound | AlreadyClosed | PhaseRefused | NotObjective | PredictionRefused | Malformed | Duplicate

  datatype Answer = Done | Refused(error: Error)

  const MAX_CAMPAIGN_NAME := 80
  const MAX_CAMPAIGN_NOTE := 2000
  const EMPTY := Book(map[], [], {}, map[])

  datatype Call =
    | Open(id: Id, name: string, quarter: string, today: string, now: int)
    | Advance(id: Id, to: Phase, items: MapItems, now: int)
    | SetNote(id: Id, note: string)
    | WriteReview(id: Id, answer: string, now: int)
    | Delete(id: Id)
    | Assign(id: Id, item: Id, items: MapItems)
    | Unassign(id: Id, item: Id)
    | PatchPrediction(id: Id, patch: Patch, items: MapItems, now: int)
    | FromPreMortem(failures: seq<Failure>, today: string)

  // ---------- Quarters ----------

  predicate ValidQuarter(key: string) {
    && |key| == 7 && Text.IsDigit(key[0]) && Text.IsDigit(key[1]) && Text.IsDigit(key[2]) && Text.IsDigit(key[3])
    && key[4] == '-' && key[5] == 'Q' && '1' <= key[6] <= '4'
  }

  function QuarterLabel(key: string): string {
    if ValidQuarter(key) then key[..4] + " " + key[5..] else key
  }

  predicate PhaseAllowed(from: Phase, to: Phase) {
    match from
    case Planning => to == Operations
    case Operations => to == Review
    case Review => to == Operations || to == Closed
    case Closed => false
  }

  predicate QuarterTaken(campaigns: map<Id, Campaign>, quarter: string) {
    exists id :: id in campaigns && campaigns[id].quarter == quarter
  }

  function Created(b: Book, c: Campaign): (Book, Answer) {
    if c.id in b.campaigns || QuarterTaken(b.campaigns, c.quarter) then (b, Refused(Duplicate))
    else (b.(campaigns := b.campaigns[c.id := c]), Done)
  }

  function Opened(b: Book, id: Id, name: string, quarter: string, today: string, now: int): (Book, Answer) {
    var key := if Text.Trim(quarter) == "" then today else Text.Trim(quarter);
    var title := if Text.Trim(name) == "" then QuarterLabel(key) else Text.Trim(name);
    if !ValidQuarter(key) || |title| > MAX_CAMPAIGN_NAME then (b, Refused(Malformed))
    else Created(b, Campaign(id, key, title, Planning, "", "", None, now, None, None, 0))
  }

  /** Closed quarters are refused by the table too; what was sealed is never among the columns written. */
  function Updated(b: Book, c: Campaign): (Book, Answer) {
    if c.id !in b.campaigns || b.campaigns[c.id].phase == Closed then (b, Refused(NotFound))
    else
      var row := b.campaigns[c.id].(
        name := c.name, phase := c.phase, note := c.note, review := c.review, reviewAt := c.reviewAt);
      (b.(campaigns := b.campaigns[c.id := row]), Done)
  }

  /** Whether a change to the quarter is refused, and why. */
  function Locked(b: Book, id: Id): Option<Error> {
    if id !in b.campaigns then Some(NotFound)
    else if b.campaigns[id].phase == Closed then Some(AlreadyClosed)
    else None
  }

  function Advanced(b: Book, id: Id, to: Phase, items: MapItems, now: int): (Book, Answer) {
    if Locked(b, id).Some? then (b, Refused(Locked(b, id).value))
    else if !PhaseAllowed(b.campaigns[id].phase, to) then (b, Refused(PhaseRefused))
    else if to == Closed then (Sealed(b, id, items, now), Done)
    else Updated(b, b.campaigns[id].(phase := to))
  }

  /** What closing writes: the phase, the score and the number as they stand, and the commendations. */
  function Sealed(b: Book, id: Id, items: MapItems, now: int): Book
    requires id in b.campaigns
  {
    var preds := PredictionsFor(b.predictions, id);
    var cal := CalibrationOf(preds);
    var row := b.campaigns[id].(phase := Closed, closedAt := Some(now), calibration := cal.score, calibrationN := cal.n);
    b.(campaigns := b.campaigns[id := row],
       lines := b.lines[id := TakenLines(id, ObjectivesOf(b.objectives, id), items, now) + CalledLines(id, preds, now)])
  }

  function Noted(b: Book, id: Id, note: string): (Book, Answer) {
    if |Text.Trim(note)| > MAX_CAMPAIGN_NOTE then (b, Refused(Malformed))
    else if Locked(b, id).Some? then (b, Refused(Locked(b, id).value))
    else Updated(b, b.campaigns[id].(note := Text.Trim(note)))
  }

  function Reviewed(b: Book, id: Id, answer: string, now: int): (Book, Answer) {
    if Text.Trim(answer) == "" then (b, Refused(Malformed))
    else if id !in b.campaigns then (b, Refused(NotFound))
    else if b.campaigns[id].phase != Review then (b, Refused(PhaseRefused))
    else Updated(b, b.campaigns[id].(review := Text.Trim(answer), reviewAt := Some(now)))
  }

  // ---------- What is on a quarter ----------

  /** Live and filed on the quarter. */
  function OnQuarter(id: Id): Prediction -> seq<Prediction> {
    (p: Prediction) => if p.campaignId == Some(id) && p.Live() then [p] else []
  }

  function PredictionsFor(preds: seq<Prediction>, id: Id): seq<Prediction> {
    Sequences.FlatMap(OnQuarter(id), preds)
  }

  function Loose(): Prediction -> seq<Prediction> {
    (p: Prediction) => if p.campaignId.None? && p.Live() then [p] else []
  }

  function Unfiled(preds: seq<Prediction>): seq<Prediction> {
    Sequences.FlatMap(Loose(), preds)
  }

  function ObjectivesOf(objectives: set<(Id, Id)>, id: Id): set<Id> {
    set pair | pair in objectives && pair.0 == id :: pair.1
  }

  function At(moment: Option<int>, now: int): int {
    if moment.Some? then moment.value else now
  }

  /** A line for an objective taken, or honestly withdrawn. */
  predicate EarnsLine(items: MapItems, id: Id) {
    id in items && items[id].objective && (items[id].status == ItemResolved || items[id].status == ItemWithdrawn)
  }

  function LineFor(campaignId: Id, id: Id, item: MapItem, now: int): Commendation {
    Commendation(campaignId, if item.status == ItemResolved then TakenKind else WithdrawalKind, item.text, id,
                 At(item.resolvedAt, now))
  }

  function TakenLines(campaignId: Id, ids: set<Id>, items: MapItems, now: int): set<Commendation> {
    set id | id in ids && EarnsLine(items, id) :: LineFor(campaignId, id, items[id], now)
  }

  predicate NamedIt(p: Prediction) {
    p.status == Kept && p.outcome == Called
  }

  /** A line for a failure that was named before it showed. */
  function CalledLine(campaignId: Id, p: Prediction, now: int): Commendation {
    Commendation(campaignId, CalledKind, p.text, p.id, At(p.scoredAt, now))
  }

  function CalledLines(campaignId: Id, preds: seq<Prediction>, now: int): set<Commendation> {
    set p | p in preds && NamedIt(p) :: CalledLine(campaignId, p, now)
  }

  // ---------- Objectives on a quarter ----------

  function AimRefused(items: MapItems, item: Option<Id>): Option<Error> {
    if item.None? then None
    else if item.value !in items then Some(NotFound)
    else if !items[item.value].objective then Some(NotObjective)
    else
      match items[item.value].status
      case ItemActive | ItemResolved | ItemWithdrawn => None
      case ItemProposed | ItemDropped => Some(NotObjective)
  }

  function Assigned(b: Book, id: Id, item: Id, items: MapItems): (Book, Answer) {
    if Locked(b, id).Some? then (b, Refused(Locked(b, id).value))
    else if AimRefused(items, Some(item)).Some? then (b, Refused(AimRefused(items, Some(item)).value))
    else (b.(objectives := b.objectives + {(id, item)}), Done)
  }

  function Unassigned(b: Book, id: Id, item: Id): (Book, Answer) {
    if Locked(b, id).Some? then (b, Refused(Locked(b, id).value))
    else if (id, item) !in b.objectives then (b, Refused(NotFound))
    else (b.(objectives := b.objectives - {(id, item)}), Done)
  }

  // ---------- Predictions ----------

  function UnfiledFrom(p: Prediction, id: Id): Prediction {
    if p.campaignId == Some(id) then p.(campaignId := None) else p
  }

  function AllUnfiledFrom(preds: seq<Prediction>, id: Id): (r: seq<Prediction>)
    ensures |r| == |preds|
  {
    seq(|preds|, i requires 0 <= i < |preds| => UnfiledFrom(preds[i], id))
  }

  function Deleted(b: Book, id: Id): (Book, Answer) {
    if Locked(b, id).Some? then (b, Refused(Locked(b, id).value))
    else
      (Book(b.campaigns - {id}, AllUnfiledFrom(b.predictions, id),
            (set pair | pair in b.objectives && pair.0 != id), b.lines), Done)
  }

  /** The position of a prediction, or the length where there is none. */
  function Find(preds: seq<Prediction>, id: Id): (i: nat)
    ensures i <= |preds|
    ensures i < |preds| ==> preds[i].id == id
    ensures i == |preds| ==> forall j :: 0 <= j < |preds| ==> preds[j].id != id
  {
    if preds == [] then 0 else if preds[0].id == id then 0 else 1 + Find(preds[1..], id)
  }

  /** What a patch makes of a prediction.  It may be kept or dropped once; only a kept one is given a chance or an
      outcome, and neither can be set to nothing except by clearing it. */
  function Patched(p: Prediction, patch: Patch, now: int): Result<Prediction, Error> {
    var status := if patch.status.Some? then patch.status.value else p.status;
    var aimed := patch.clearChance || patch.chance.Some?;
    var scored := patch.clearOutcome || patch.outcome.Some?;
    if status != p.status && !(p.status == Proposed && status != Proposed) then Err(PredictionRefused)
    else if (aimed || scored) && status != Kept then Err(PredictionRefused)
    else if !patch.clearChance && patch.chance == Some(ChanceNone) then Err(Malformed)
    else if !patch.clearOutcome && patch.outcome == Some(OutcomeNone) then Err(Malformed)
    else
      Ok(p.(
        status := status,
        chance := if status == Dropped || patch.clearChance then ChanceNone
                  else if patch.chance.Some? then patch.chance.value else p.chance,
        outcome := if status == Dropped || patch.clearOutcome then OutcomeNone
                   else if patch.outcome.Some? then patch.outcome.value else p.outcome,
        scoredAt := if status == Dropped || patch.clearOutcome then None
                    else if patch.outcome.Some? then Some(now) else p.scoredAt,
        campaignId := if patch.campaignId.Some? then patch.campaignId
                      else if patch.clearCampaign then None else p.campaignId,
        objectiveId := if patch.objectiveId.Some? then patch.objectiveId
                       else if patch.clearObjective then None else p.objectiveId))
  }

  function FilingRefused(b: Book, id: Option<Id>): Option<Error> {
    if id.None? then None else Locked(b, id.value)
  }

  /** A patch is refused where the prediction is on a closed quarter, and where it would put it on one. */
  function Repatched(b: Book, id: Id, patch: Patch, items: MapItems, now: int): (Book, Answer) {
    var i := Find(b.predictions, id);
    if i == |b.predictions| then (b, Refused(NotFound))
    else if FilingRefused(b, b.predictions[i].campaignId).Some? then
      (b, Refused(FilingRefused(b, b.predictions[i].campaignId).value))
    else
      match Patched(b.predictions[i], patch, now)
      case Err(e) => (b, Refused(e))
      case Ok(p) =>
        if FilingRefused(b, p.campaignId).Some? then (b, Refused(FilingRefused(b, p.campaignId).value))
        else if AimRefused(items, p.objectiveId).Some? then (b, Refused(AimRefused(items, p.objectiveId).value))
        else (b.(predictions := b.predictions[i := p]), Done)
  }

  predicate Filing(campaigns: map<Id, Campaign>, id: Id, today: string) {
    id in campaigns && campaigns[id].quarter == today && campaigns[id].phase != Closed
  }

  /** Today's quarter while it is open. */
  ghost function FilingCampaign(campaigns: map<Id, Campaign>, today: string): Option<Id> {
    if exists id :: Filing(campaigns, id, today) then
      var id :| Filing(campaigns, id, today);
      Some(id)
    else None
  }

  predicate OneQuarterEach(campaigns: map<Id, Campaign>) {
    forall a, b :: a in campaigns && b in campaigns && campaigns[a].quarter == campaigns[b].quarter ==> a == b
  }

  predicate SameLiveText(p: Prediction, q: Prediction) {
    p.Live() && q.Live() && p.fingerprint != "" && p.fingerprint == q.fingerprint
  }

  function Proposal(failure: Failure, campaign: Option<Id>): Prediction {
    Prediction(failure.id, campaign, failure.aim, failure.text, failure.warning, Proposed, ChanceNone, OutcomeNone, None,
               failure.fingerprint)
  }

  predicate OnTheRecord(preds: seq<Prediction>, p: Prediction) {
    exists q :: q in preds && (q.id == p.id || SameLiveText(p, q))
  }

  /** One failure is filed as a proposal, unless it is on the record already. */
  function ProposedOne(preds: seq<Prediction>, failure: Failure, campaign: Option<Id>): seq<Prediction> {
    var p := Proposal(failure, campaign);
    if OnTheRecord(preds, p) then preds else [p] + preds
  }

  function ProposedAll(preds: seq<Prediction>, failures: seq<Failure>, campaign: Option<Id>): seq<Prediction> {
    if failures == [] then preds
    else ProposedOne(ProposedAll(preds, failures[..|failures| - 1], campaign), failures[|failures| - 1], campaign)
  }

  // ---------- One step ----------

  ghost function Step(b: Book, call: Call): (Book, Answer) {
    match call
    case Open(id, name, quarter, today, now) => Opened(b, id, name, quarter, today, now)
    case Advance(id, to, items, now) => Advanced(b, id, to, items, now)
    case SetNote(id, note) => Noted(b, id, note)
    case WriteReview(id, answer, now) => Reviewed(b, id, answer, now)
    case Delete(id) => Deleted(b, id)
    case Assign(id, item, items) => Assigned(b, id, item, items)
    case Unassign(id, item) => Unassigned(b, id, item)
    case PatchPrediction(id, patch, items, now) => Repatched(b, id, patch, items, now)
    case FromPreMortem(failures, today) =>
      (b.(predictions := ProposedAll(b.predictions, failures, FilingCampaign(b.campaigns, today))), Done)
  }

  ghost function Run(b: Book, calls: seq<Call>): Book {
    if calls == [] then b else Step(Run(b, calls[..|calls| - 1]), calls[|calls| - 1]).0
  }
}
