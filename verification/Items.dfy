/** The items on the campaign map and the changes made to them: by hand, from what a conversation proposed, and by
    reconnaissance.  Fingerprinting and upper-casing of text are given; identifiers and moments come with the call. */
module Items {
  import opened Common
  import Text

  type Id = nat

  datatype Type = Objective | Obstacle | Unknown

  datatype Status = Proposed | Active | Resolved | Withdrawn | Dropped
  {
    predicate Live() {
      this == Proposed || this == Active
    }
  }

  /** `kind` is empty and `strength` zero where none was given. */
  datatype Item = Item(
    id: Id, type_: Type, frontId: Option<Id>, objectiveId: Option<Id>, text: string, status: Status,
    kind: string, strength: int, confirmed: bool, answer: string, cost: Option<real>, currency: string,
    dueAt: Option<int>, fingerprint: string, resolvedAt: Option<int>)

  datatype Front = Front(active: bool, funds: Option<real>, currency: string)

  type Fronts = map<Id, Front>

  type ItemMap = map<Id, Item>

  datatype Reading = Reading(fingerprint: string -> string, upper: string -> string)

  datatype Error =
    | NotFound | Duplicate | BadText | FrontWithdrawn | UnderObjective | NotObjective | NotObstacle | BadKind
    | BadStrength | NoDate | NoCost | BadMoney | BadTransition | NotUnknown | NoAnswer | OffTheMap

  datatype Answer = Done | Refused(error: Error)

  datatype Patch = Patch(
    text: Option<string>, frontId: Option<Id>, clearFront: bool, objectiveId: Option<Id>, clearObjective: bool,
    kind: Option<string>, strength: Option<int>, confirmStrength: bool, status: Option<Status>, dueAt: Option<int>,
    clearDue: bool, cost: Option<real>, costCurrency: string, clearCost: bool)

  /** What a model said it read; `index` and `named` are the two ways of pointing at an objective. */
  datatype Wire = Wire(
    id: Id, text: string, front: Option<Id>, index: int, named: string, kind: string, strength: int, due: Option<int>,
    confidence: real)

  datatype Call =
    | Create(id: Id, type_: Type, text: string, frontId: Option<Id>, objectiveId: Option<Id>, kind: string, strength: int,
             dueAt: Option<int>)
    | Update(id: Id, patch: Patch, now: int)
    | Lift(id: Id, answer: string, now: int)
    | SendRecon(id: Id, now: int)
    | Extract(objectives: seq<Wire>, obstacles: seq<Wire>, unknowns: seq<Wire>, listed: seq<Id>)
    | Attack(id: Id, text: string, kind: string, aim: Option<Id>)
    | Question(id: Id, text: string, aim: Option<Id>)

  const MAX_TEXT := 200
  const MAX_AMOUNT := 1_000_000_000_000.0
  const MIN_CONFIDENCE := 0.6
  const MAX_PER_TYPE := 2
  const DUG_IN := 2
  const KINDS := {"undefined", "waiting", "fear", "too_big", "unwanted"}

  // ---------- The table ----------

  predicate SameLive(a: Item, b: Item) {
    a.status.Live() && b.status.Live() && a.type_ == b.type_ && a.fingerprint == b.fingerprint
  }

  /** Another live item of the type says the same. */
  predicate Taken(items: ItemMap, item: Item) {
    exists id :: id in items && id != item.id && SameLive(items[id], item)
  }

  function Inserted(items: ItemMap, item: Item): (ItemMap, Answer) {
    if item.id in items || Taken(items, item) then (items, Refused(Duplicate)) else (items[item.id := item], Done)
  }

  predicate OffMap(status: Status) {
    status == Resolved || status == Withdrawn || status == Dropped
  }

  /** The moment an item left the map is kept until it comes back. */
  function Stored(items: ItemMap, item: Item, now: int): (ItemMap, Answer) {
    if Taken(items, item) then (items, Refused(Duplicate))
    else
      var left := if !OffMap(item.status) then None else if item.resolvedAt.Some? then item.resolvedAt else Some(now);
      (items[item.id := item.(resolvedAt := left)], Done)
  }

  // ---------- The checks ----------

  function CleanText(text: string): Result<string, Error> {
    var line := Text.Trim(text);
    if line == "" || |line| > MAX_TEXT then Err(BadText) else Ok(line)
  }

  /** Where an item may stand: on an active front or none, and under an objective unless it is one; without a front it is
      filed where its objective is. */
  function Placed(items: ItemMap, fronts: Fronts, item: Item, frontId: Option<Id>, objectiveId: Option<Id>)
    : Result<Item, Error>
  {
    if frontId.Some? && frontId.value !in fronts then Err(NotFound)
    else if frontId.Some? && !fronts[frontId.value].active then Err(FrontWithdrawn)
    else if objectiveId.None? then Ok(item.(frontId := frontId, objectiveId := None))
    else if item.type_ == Objective then Err(UnderObjective)
    else if objectiveId.value !in items then Err(NotFound)
    else if items[objectiveId.value].type_ != Objective then Err(NotObjective)
    else
      Ok(item.(frontId := if frontId.Some? then frontId else items[objectiveId.value].frontId, objectiveId := objectiveId))
  }

  predicate ValidStrength(strength: int) {
    1 <= strength <= 3
  }

  function Fielded(item: Item, kind: string, strength: int, confirmed: bool): Result<Item, Error> {
    if item.type_ != Obstacle then if kind != "" || strength != 0 then Err(NotObstacle) else Ok(item)
    else if kind != "" && kind !in KINDS then Err(BadKind)
    else if strength != 0 && !ValidStrength(strength) then Err(BadStrength)
    else Ok(item.(kind := kind, strength := strength, confirmed := confirmed && strength != 0))
  }

  predicate CurrencyCode(code: string) {
    |code| == 3 && forall i :: 0 <= i < 3 ==> 'A' <= code[i] <= 'Z'
  }

  /** The currency meant: the one given, else that of the front's funds, else dollars. */
  function CurrencyFor(item: Item, fronts: Fronts, given: string): string {
    var named := Text.Trim(given);
    var own := if named == "" && item.frontId.Some? && item.frontId.value in fronts && fronts[item.frontId.value].funds.Some?
               then fronts[item.frontId.value].currency else named;
    if own == "" then "USD" else own
  }

  function Costed(item: Item, fronts: Fronts, p: Patch, r: Reading): Result<Item, Error> {
    if item.type_ != Objective then Err(NoCost)
    else if p.clearCost || p.cost.None? then Ok(item.(cost := None, currency := ""))
    else
      var code := r.upper(Text.Trim(CurrencyFor(item, fronts, p.costCurrency)));
      if p.cost.value < 0.0 || p.cost.value > MAX_AMOUNT || !CurrencyCode(code) then Err(BadMoney)
      else Ok(item.(cost := p.cost, currency := code))
  }

  predicate Allowed(from: Status, to: Status) {
    match from
    case Proposed => to == Active || to == Dropped
    case Active => to == Resolved || to == Withdrawn || to == Dropped
    case Resolved | Withdrawn | Dropped => to == Active
  }

  /** Whether an item may take the status. */
  predicate MayBecome(item: Item, to: Status) {
    Allowed(item.status, to) && (to == Withdrawn ==> item.type_ == Objective)
  }

  // ---------- By hand ----------

  function CreatedByHand(items: ItemMap, fronts: Fronts, call: Call, r: Reading): (ItemMap, Answer)
    requires call.Create?
  {
    match CleanText(call.text)
    case Err(e) => (items, Refused(e))
    case Ok(line) =>
      var blank := Item(call.id, call.type_, None, None, line, Active, "", 0, false, "", None, "", call.dueAt,
                        r.fingerprint(line), None);
      match Placed(items, fronts, blank, call.frontId, call.objectiveId)
      case Err(e) => (items, Refused(e))
      case Ok(placed) =>
        match Fielded(placed, call.kind, call.strength, true)
        case Err(e) => (items, Refused(e))
        case Ok(item) => Inserted(items, item)
  }

  function Reworded(item: Item, p: Patch, r: Reading): Result<Item, Error> {
    if p.text.None? then Ok(item)
    else
      match CleanText(p.text.value)
      case Err(e) => Err(e)
      case Ok(line) => Ok(item.(text := line, fingerprint := r.fingerprint(line)))
  }

  predicate Moves(p: Patch) {
    p.text.Some? || p.frontId.Some? || p.clearFront || p.objectiveId.Some? || p.clearObjective
  }

  function Moved(items: ItemMap, fronts: Fronts, item: Item, p: Patch): Result<Item, Error> {
    if !Moves(p) then Ok(item)
    else
      Placed(items, fronts, item,
             if p.clearFront then None else if p.frontId.Some? then p.frontId else item.frontId,
             if p.clearObjective then None else if p.objectiveId.Some? then p.objectiveId else item.objectiveId)
  }

  predicate Refields(p: Patch) {
    p.kind.Some? || p.strength.Some? || p.confirmStrength
  }

  function Refielded(item: Item, p: Patch): Result<Item, Error> {
    if !Refields(p) then Ok(item)
    else if item.type_ != Obstacle then Err(NotObstacle)
    else
      Fielded(item, if p.kind.Some? then p.kind.value else item.kind,
              if p.strength.Some? then p.strength.value else item.strength,
              item.confirmed || p.strength.Some? || p.confirmStrength)
  }

  predicate Redates(p: Patch) {
    p.dueAt.Some? || p.clearDue
  }

  function Redated(item: Item, p: Patch): Result<Item, Error> {
    if !Redates(p) then Ok(item)
    else if item.type_ != Objective then Err(NoDate)
    else Ok(item.(dueAt := if p.clearDue then None else p.dueAt))
  }

  predicate Recosts(p: Patch) {
    p.cost.Some? || p.clearCost
  }

  function Recosted(item: Item, fronts: Fronts, p: Patch, r: Reading): Result<Item, Error> {
    if !Recosts(p) then Ok(item) else Costed(item, fronts, p, r)
  }

  /** Editing a proposal keeps it, unless the same request says otherwise. */
  function Restated(item: Item, p: Patch): Result<Item, Error> {
    var edits := Moves(p) || Refields(p) || Redates(p) || Recosts(p);
    var to := if p.status.Some? then p.status.value else if edits && item.status == Proposed then Active else item.status;
    if to == item.status then Ok(item) else if MayBecome(item, to) then Ok(item.(status := to)) else Err(BadTransition)
  }

  /** The edits of a patch, before its status. */
  function Staged(items: ItemMap, fronts: Fronts, item: Item, p: Patch, r: Reading): Result<Item, Error> {
    match Reworded(item, p, r)
    case Err(e) => Err(e)
    case Ok(a) =>
      match Moved(items, fronts, a, p)
      case Err(e) => Err(e)
      case Ok(b) =>
        match Refielded(b, p)
        case Err(e) => Err(e)
        case Ok(c) =>
          match Redated(c, p)
          case Err(e) => Err(e)
          case Ok(d) => Recosted(d, fronts, p, r)
  }

  function Patched(items: ItemMap, fronts: Fronts, item: Item, p: Patch, r: Reading): Result<Item, Error> {
    match Staged(items, fronts, item, p, r)
    case Err(e) => Err(e)
    case Ok(edited) => Restated(edited, p)
  }

  function Updated(items: ItemMap, fronts: Fronts, id: Id, p: Patch, now: int, r: Reading): (ItemMap, Answer) {
    if id !in items then (items, Refused(NotFound))
    else
      match Patched(items, fronts, items[id], p, r)
      case Err(e) => (items, Refused(e))
      case Ok(item) => Stored(items, item, now)
  }

  /** An answered proposal is resolved in one step, as if it had been active. */
  function Lifted(items: ItemMap, id: Id, answer: string, now: int): (ItemMap, Answer) {
    var found := Text.Trim(answer);
    if found == "" then (items, Refused(NoAnswer))
    else if id !in items then (items, Refused(NotFound))
    else if items[id].type_ != Unknown then (items, Refused(NotUnknown))
    else
      var kept := if items[id].status == Proposed then items[id].(status := Active) else items[id];
      if !MayBecome(kept, Resolved) then (items, Refused(BadTransition))
      else Stored(items, kept.(status := Resolved, answer := found), now)
  }

  /** Sending reconnaissance keeps a proposed unknown; the order itself goes on another list. */
  function Scouted(items: ItemMap, id: Id, now: int): (ItemMap, Answer) {
    if id !in items then (items, Refused(NotFound))
    else if items[id].type_ != Unknown then (items, Refused(NotUnknown))
    else if !items[id].status.Live() then (items, Refused(OffTheMap))
    else if items[id].status == Proposed then Stored(items, items[id].(status := Active), now)
    else (items, Done)
  }

  // ---------- From conversation ----------

  datatype Candidate = Candidate(
    id: Id, type_: Type, text: string, front: Option<Id>, index: int, named: string, kind: string, strength: int,
    due: Option<int>)

  function CandidateOf(type_: Type, w: Wire): Option<Candidate> {
    var line := Text.Trim(w.text);
    if line == "" || |line| > MAX_TEXT || w.confidence < MIN_CONFIDENCE then None
    else
      var kind := Text.Trim(w.kind);
      Some(Candidate(
        w.id, type_, line, w.front,
        if type_ == Objective then 0 else w.index,
        if type_ == Objective then "" else w.named,
        if type_ == Obstacle && kind in KINDS then kind else "",
        if type_ != Obstacle then 0 else if ValidStrength(w.strength) then w.strength else DUG_IN,
        if type_ == Objective then w.due else None))
  }

  /** At most two of a type. */
  function CandidatesOf(type_: Type, wires: seq<Wire>): (r: seq<Candidate>)
    ensures |r| <= MAX_PER_TYPE
  {
    if wires == [] then []
    else
      var before := CandidatesOf(type_, wires[..|wires| - 1]);
      var c := CandidateOf(type_, wires[|wires| - 1]);
      if c.Some? && |before| < MAX_PER_TYPE then before + [c.value] else before
  }

  function Parsed(objectives: seq<Wire>, obstacles: seq<Wire>, unknowns: seq<Wire>): seq<Candidate> {
    CandidatesOf(Objective, objectives) + CandidatesOf(Obstacle, obstacles) + CandidatesOf(Unknown, unknowns)
  }

  /** The active objectives, in the order the listing gave them. */
  function ActiveObjectives(items: ItemMap, listed: seq<Id>): (r: seq<Id>)
    ensures forall id :: id in r ==> id in items && items[id].type_ == Objective && items[id].status == Active
  {
    if listed == [] then []
    else
      var before := ActiveObjectives(items, listed[..|listed| - 1]);
      var id := listed[|listed| - 1];
      if id in items && items[id].type_ == Objective && items[id].status == Active then before + [id] else before
  }

  /** Objectives proposed in the same answer, by what they say. */
  type NewObjectives = map<string, Id>

  function LinkOf(c: Candidate, objectives: seq<Id>, newly: NewObjectives, r: Reading): Option<Id> {
    if 0 < c.index <= |objectives| then Some(objectives[c.index - 1])
    else if c.named != "" && r.fingerprint(c.named) in newly then Some(newly[r.fingerprint(c.named)])
    else None
  }

  function ProposalOf(items: ItemMap, c: Candidate, objectives: seq<Id>, newly: NewObjectives, r: Reading): Item {
    var link := LinkOf(c, objectives, newly, r);
    var front := if c.front.None? && link.Some? && link.value in objectives && link.value in items
                 then items[link.value].frontId else c.front;
    Item(c.id, c.type_, front, link, c.text, Proposed, c.kind, c.strength, false, "", None, "", c.due,
         r.fingerprint(c.text), None)
  }

  /** One proposal after another; what is on the map already is passed over. */
  function Extracted(items: ItemMap, candidates: seq<Candidate>, objectives: seq<Id>, r: Reading): (ItemMap, NewObjectives) {
    if candidates == [] then (items, map[])
    else
      var (before, newly) := Extracted(items, candidates[..|candidates| - 1], objectives, r);
      var c := candidates[|candidates| - 1];
      var item := ProposalOf(items, c, objectives, newly, r);
      var (after, answer) := Inserted(before, item);
      (after, if answer == Done && c.type_ == Objective then newly[item.fingerprint := c.id] else newly)
  }

  /** What the red team named: opposition at an estimated strength, or fog, aimed at an active objective if at any. */
  function Sighted(items: ItemMap, id: Id, type_: Type, text: string, kind: string, aim: Option<Id>, r: Reading)
    : (ItemMap, Answer)
  {
    if text == "" || |text| > MAX_TEXT then (items, Refused(BadText))
    else if kind != "" && kind !in KINDS then (items, Refused(BadKind))
    else
      var hit := aim.Some? && aim.value in items && items[aim.value].type_ == Objective && items[aim.value].status == Active;
      Inserted(items, Item(id, type_, if hit then items[aim.value].frontId else None, if hit then aim else None, text,
                           Proposed, kind, if type_ == Obstacle then DUG_IN else 0, false, "", None, "", None,
                           r.fingerprint(text), None))
  }

  // ---------- One step ----------

  function Step(items: ItemMap, fronts: Fronts, call: Call, r: Reading): (ItemMap, Answer) {
    match call
    case Create(_, _, _, _, _, _, _, _) => CreatedByHand(items, fronts, call, r)
    case Update(id, patch, now) => Updated(items, fronts, id, patch, now, r)
    case Lift(id, answer, now) => Lifted(items, id, answer, now)
    case SendRecon(id, now) => Scouted(items, id, now)
    case Extract(objectives, obstacles, unknowns, listed) =>
      (Extracted(items, Parsed(objectives, obstacles, unknowns), ActiveObjectives(items, listed), r).0, Done)
    case Attack(id, text, kind, aim) => Sighted(items, id, Obstacle, text, kind, aim, r)
    case Question(id, text, aim) => Sighted(items, id, Unknown, text, "", aim, r)
  }

  /** A call and the fronts as they stand when it is made. */
  datatype Event = Event(call: Call, fronts: Fronts)

  function Run(items: ItemMap, events: seq<Event>, r: Reading): ItemMap {
    if events == [] then items
    else
      Step(Run(items, events[..|events| - 1], r), events[|events| - 1].fronts, events[|events| - 1].call, r).0
  }
}
