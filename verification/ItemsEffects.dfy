/** What each change to the map answers and does, said from the row before it. */
module ItemsEffects {
  import opened Common
  import opened Items
  import Text

  // ---------- The two writes ----------

  predicate OnTheMap(status: Status) {
    status == Proposed || status == Active
  }

  /** Some other item on the map, of the same type, says what this one does. */
  ghost predicate SaidAlready(items: ItemMap, id: Id, type_: Type, fingerprint: string) {
    exists other :: other in items && other != id && OnTheMap(items[other].status)
                    && items[other].type_ == type_ && items[other].fingerprint == fingerprint
  }

  lemma TakenIs(items: ItemMap, item: Item)
    ensures Taken(items, item) <==> OnTheMap(item.status) && SaidAlready(items, item.id, item.type_, item.fingerprint)
  {
    if OnTheMap(item.status) && SaidAlready(items, item.id, item.type_, item.fingerprint) {
      var other :| other in items && other != item.id && OnTheMap(items[other].status)
                   && items[other].type_ == item.type_ && items[other].fingerprint == item.fingerprint;
      assert SameLive(items[other], item);
    }
    if Taken(items, item) {
      var id :| id in items && id != item.id && SameLive(items[id], item);
      assert OnTheMap(items[id].status);
    }
  }

  /** A row comes off the map at the moment it had already, else now, and on the map it has no such moment. */
  predicate MomentAs(item: Item, now: int, moment: Option<int>) {
    && (OnTheMap(item.status) ==> moment == None)
    && (!OnTheMap(item.status) ==> moment == if item.resolvedAt == None then Some(now) else item.resolvedAt)
  }

  /** The row is written, and only that row, unless it is on the map and another there says the same. */
  ghost predicate WrittenAs(items: ItemMap, item: Item, now: int, after: ItemMap, answer: Answer) {
    if OnTheMap(item.status) && SaidAlready(items, item.id, item.type_, item.fingerprint) then
      after == items && answer == Refused(Duplicate)
    else
      && answer == Done && item.id in after && after == items[item.id := after[item.id]]
      && after[item.id] == item.(resolvedAt := after[item.id].resolvedAt) && MomentAs(item, now, after[item.id].resolvedAt)
  }

  lemma StoreIs(items: ItemMap, item: Item, now: int)
    ensures WrittenAs(items, item, now, Stored(items, item, now).0, Stored(items, item, now).1)
  {
    hide SaidAlready, Taken;
    TakenIs(items, item);
  }

  /** A new row goes on the map under its own name, unless the name is taken or another row there says the same. */
  ghost predicate AddedAs(items: ItemMap, item: Item, after: ItemMap, answer: Answer) {
    if item.id in items || SaidAlready(items, item.id, item.type_, item.fingerprint) then
      after == items && answer == Refused(Duplicate)
    else
      after == items[item.id := item] && answer == Done
  }

  lemma InsertIs(items: ItemMap, item: Item)
    requires OnTheMap(item.status)
    ensures AddedAs(items, item, Inserted(items, item).0, Inserted(items, item).1)
  {
    hide SaidAlready, Taken;
    TakenIs(items, item);
  }

  // ---------- What is accepted ----------

  predicate FitText(text: string) {
    1 <= |Text.Trim(text)| <= 200
  }

  /** An active front or none, and for what is no objective an objective on record or none. */
  predicate FitPlace(items: ItemMap, fronts: Fronts, type_: Type, front: Option<Id>, objective: Option<Id>) {
    && (front.Some? ==> front.value in fronts && fronts[front.value].active)
    && (objective.Some? ==>
          type_ != Objective && objective.value in items && items[objective.value].type_ == Objective)
  }

  predicate FitFields(type_: Type, kind: string, strength: int) {
    if type_ == Obstacle then
      && 0 <= strength <= 3
      && (kind == "" || kind == "undefined" || kind == "waiting" || kind == "fear" || kind == "too_big" || kind == "unwanted")
    else kind == "" && strength == 0
  }

  lemma PlaceIs(items: ItemMap, fronts: Fronts, item: Item, front: Option<Id>, objective: Option<Id>)
    ensures var p := Placed(items, fronts, item, front, objective);
            && (p.Ok? <==> FitPlace(items, fronts, item.type_, front, objective))
            && (p.Ok? ==> p.value == item.(
                  objectiveId := objective,
                  frontId := if front == None && objective.Some? then items[objective.value].frontId else front))
            && (front.Some? && front.value in fronts && !fronts[front.value].active ==> p == Err(FrontWithdrawn))
            && (front.Some? && front.value !in fronts ==> p == Err(NotFound))
  {
  }

  lemma FieldsAre(item: Item, kind: string, strength: int, confirmed: bool)
    ensures var f := Fielded(item, kind, strength, confirmed);
            && (f.Ok? <==> FitFields(item.type_, kind, strength))
            && (f.Ok? && item.type_ == Obstacle ==>
                  f.value == item.(kind := kind, strength := strength, confirmed := confirmed && strength > 0))
            && (f.Ok? && item.type_ != Obstacle ==> f.value == item)
  {
  }

  /** An item is added by hand exactly when its text, place and fields fit and neither its name nor what it says is taken; what
      goes on the map is then `CreationIs`. */
  lemma CreateIs(items: ItemMap, fronts: Fronts, call: Call, r: Reading)
    requires call.Create?
    ensures var (after, answer) := Step(items, fronts, call, r);
            && (answer == Done <==>
                  && FitText(call.text) && FitPlace(items, fronts, call.type_, call.frontId, call.objectiveId)
                  && FitFields(call.type_, call.kind, call.strength) && call.id !in items
                  && !SaidAlready(items, call.id, call.type_, r.fingerprint(Text.Trim(call.text))))
            && (answer != Done ==> after == items)
            && (!FitText(call.text) ==> answer == Refused(BadText))
  {
    hide Text.Trim, Placed, Fielded, Inserted, SaidAlready, FitPlace, FitFields;
    if FitText(call.text) {
      var line := Text.Trim(call.text);
      var blank := Item(call.id, call.type_, None, None, line, Active, "", 0, false, "", None, "", call.dueAt,
                        r.fingerprint(line), None);
      PlaceIs(items, fronts, blank, call.frontId, call.objectiveId);
      var placed := Placed(items, fronts, blank, call.frontId, call.objectiveId);
      if placed.Ok? {
        FieldsAre(placed.value, call.kind, call.strength, true);
        var item := Fielded(placed.value, call.kind, call.strength, true);
        if item.Ok? {
          InsertIs(items, item.value);
        }
      }
    }
  }

  // ---------- How a status may move ----------

  /** A proposal is kept or dropped; an active item is resolved or dropped, and an objective withdrawn; whatever is off the
      map comes back. */
  predicate MayMove(type_: Type, from: Status, to: Status) {
    || (from == Proposed && (to == Active || to == Dropped))
    || (from == Active && (to == Resolved || to == Dropped || (to == Withdrawn && type_ == Objective)))
    || (!OnTheMap(from) && to == Active)
  }

  lemma MovesAre(item: Item, to: Status)
    ensures MayBecome(item, to) <==> MayMove(item.type_, item.status, to)
  {
  }

  // ---------- Update ----------

  function FrontAsked(item: Item, p: Patch): Option<Id> {
    if p.clearFront then None else if p.frontId.Some? then p.frontId else item.frontId
  }

  function ObjectiveAsked(item: Item, p: Patch): Option<Id> {
    if p.clearObjective then None else if p.objectiveId.Some? then p.objectiveId else item.objectiveId
  }

  predicate AsksForPlace(p: Patch) {
    p.text.Some? || p.frontId.Some? || p.clearFront || p.objectiveId.Some? || p.clearObjective
  }

  predicate AsksForFields(p: Patch) {
    p.kind.Some? || p.strength.Some? || p.confirmStrength
  }

  predicate AsksForDate(p: Patch) {
    p.dueAt.Some? || p.clearDue
  }

  predicate AsksForCost(p: Patch) {
    p.cost.Some? || p.clearCost
  }

  /** The status meant: the one said, and otherwise active for a proposal edited in any way. */
  function StatusAsked(item: Item, p: Patch): Status {
    if p.status.Some? then p.status.value
    else if item.status == Proposed && (AsksForPlace(p) || AsksForFields(p) || AsksForDate(p) || AsksForCost(p)) then Active
    else item.status
  }

  /** Where the item stands once it is moved. */
  function FrontAfter(items: ItemMap, item: Item, p: Patch): Option<Id> {
    if AsksForPlace(p) && FrontAsked(item, p) == None && ObjectiveAsked(item, p).Some? && ObjectiveAsked(item, p).value in items
    then items[ObjectiveAsked(item, p).value].frontId
    else if AsksForPlace(p) then FrontAsked(item, p)
    else item.frontId
  }

  /** The currency said; else that of the funds of the front it stands on; else dollars. */
  function CodeMeant(front: Option<Id>, fronts: Fronts, said: string): string {
    if Text.Trim(said) != "" then Text.Trim(said)
    else if front.Some? && front.value in fronts && fronts[front.value].funds.Some? && fronts[front.value].currency != ""
    then fronts[front.value].currency
    else "USD"
  }

  predicate FitCost(front: Option<Id>, fronts: Fronts, p: Patch, r: Reading) {
    p.clearCost ||
    (p.cost.Some? && 0.0 <= p.cost.value <= 1_000_000_000_000.0
     && var code := r.upper(Text.Trim(CodeMeant(front, fronts, p.costCurrency)));
        |code| == 3 && 'A' <= code[0] <= 'Z' && 'A' <= code[1] <= 'Z' && 'A' <= code[2] <= 'Z')
  }

  predicate FitMove(items: ItemMap, fronts: Fronts, item: Item, p: Patch) {
    AsksForPlace(p) ==> FitPlace(items, fronts, item.type_, FrontAsked(item, p), ObjectiveAsked(item, p))
  }

  predicate FitRefield(item: Item, p: Patch) {
    AsksForFields(p) ==>
      item.type_ == Obstacle
      && FitFields(Obstacle, if p.kind.Some? then p.kind.value else item.kind,
                   if p.strength.Some? then p.strength.value else item.strength)
  }

  predicate FitRecost(type_: Type, front: Option<Id>, fronts: Fronts, p: Patch, r: Reading) {
    AsksForCost(p) ==> type_ == Objective && FitCost(front, fronts, p, r)
  }

  predicate FitEdits(items: ItemMap, fronts: Fronts, item: Item, p: Patch, r: Reading) {
    && (p.text.Some? ==> FitText(p.text.value))
    && FitMove(items, fronts, item, p)
    && FitRefield(item, p)
    && (AsksForDate(p) ==> item.type_ == Objective)
    && FitRecost(item.type_, FrontAfter(items, item, p), fronts, p, r)
  }

  lemma RewordIs(item: Item, p: Patch, r: Reading)
    ensures var q := Reworded(item, p, r);
            && (q.Ok? <==> (p.text.Some? ==> FitText(p.text.value)))
            && (q.Ok? ==> q.value == item.(text := q.value.text, fingerprint := q.value.fingerprint))
            && (q.Ok? ==> q.value.text == if p.text.Some? then Text.Trim(p.text.value) else item.text)
            && (q.Ok? ==> q.value.fingerprint == if p.text.Some? then r.fingerprint(Text.Trim(p.text.value)) else item.fingerprint)
  {
    hide Text.Trim;
  }

  lemma MoveIs(items: ItemMap, fronts: Fronts, item: Item, p: Patch)
    ensures var q := Moved(items, fronts, item, p);
            && (q.Ok? <==> FitMove(items, fronts, item, p))
            && (q.Ok? ==> q.value == item.(
                  frontId := FrontAfter(items, item, p),
                  objectiveId := if AsksForPlace(p) then ObjectiveAsked(item, p) else item.objectiveId))
  {
    hide Placed;
    if AsksForPlace(p) {
      PlaceIs(items, fronts, item, FrontAsked(item, p), ObjectiveAsked(item, p));
    }
  }

  lemma RefieldIs(item: Item, p: Patch)
    ensures var q := Refielded(item, p);
            && (q.Ok? <==> FitRefield(item, p))
            && (q.Ok? ==> q.value == item.(kind := q.value.kind, strength := q.value.strength, confirmed := q.value.confirmed))
  {
    hide Fielded;
    FieldsAre(item, if p.kind.Some? then p.kind.value else item.kind,
              if p.strength.Some? then p.strength.value else item.strength,
              item.confirmed || p.strength.Some? || p.confirmStrength);
  }

  lemma CodeIs(item: Item, fronts: Fronts, said: string)
    ensures CurrencyFor(item, fronts, said) == CodeMeant(item.frontId, fronts, said)
  {
    hide Text.Trim;
  }

  lemma RecostIs(item: Item, fronts: Fronts, p: Patch, r: Reading)
    ensures var q := Recosted(item, fronts, p, r);
            && (q.Ok? <==> FitRecost(item.type_, item.frontId, fronts, p, r))
            && (q.Ok? ==> q.value == item.(cost := q.value.cost, currency := q.value.currency))
            && (q.Ok? && p.cost.Some? && !p.clearCost ==>
                  q.value.currency == r.upper(Text.Trim(CodeMeant(item.frontId, fronts, p.costCurrency))))
  {
    hide Text.Trim, CurrencyFor;
    CodeIs(item, fronts, p.costCurrency);
  }

  lemma RedateIs(item: Item, p: Patch)
    ensures var q := Redated(item, p);
            && (q.Ok? <==> (AsksForDate(p) ==> item.type_ == Objective))
            && (q.Ok? ==> q.value == item.(dueAt := q.value.dueAt))
  {
  }

  /** The edits are taken exactly when each of them fits the item where it will stand; a cost is then in the currency meant. */
  lemma EditsTakeIff(items: ItemMap, fronts: Fronts, item: Item, p: Patch, r: Reading)
    ensures var q := Staged(items, fronts, item, p, r);
            && (q.Ok? <==> FitEdits(items, fronts, item, p, r))
            && (q.Ok? ==> q.value.status == item.status && q.value.type_ == item.type_ && q.value.id == item.id)
            && (q.Ok? ==> q.value.fingerprint
                          == if p.text.Some? then r.fingerprint(Text.Trim(p.text.value)) else item.fingerprint)
            && (q.Ok? && p.cost.Some? && !p.clearCost ==>
                  q.value.currency == r.upper(Text.Trim(CodeMeant(FrontAfter(items, item, p), fronts, p.costCurrency))))
  {
    hide Reworded, Moved, Refielded, Redated, Recosted, FitMove, FitRefield, FitRecost, FitText, CodeMeant, FrontAfter, Text.Trim;
    hide AsksForDate;
    RewordIs(item, p, r);
    if Reworded(item, p, r).Ok? {
      var a := Reworded(item, p, r).value;
      MoveIs(items, fronts, a, p);
      PlaceAfterSame(items, fronts, item, a, p);
      if Moved(items, fronts, a, p).Ok? {
        var b := Moved(items, fronts, a, p).value;
        RefieldIs(b, p);
        FieldsAfterSame(item, b, p);
        if Refielded(b, p).Ok? {
          var c := Refielded(b, p).value;
          RedateIs(c, p);
          if Redated(c, p).Ok? {
            RecostIs(Redated(c, p).value, fronts, p, r);
          }
        }
      }
    }
  }

  lemma FieldsAfterSame(a: Item, b: Item, p: Patch)
    requires a.type_ == b.type_ && a.kind == b.kind && a.strength == b.strength
    ensures FitRefield(a, p) == FitRefield(b, p)
  {
  }

  lemma PlaceAfterSame(items: ItemMap, fronts: Fronts, a: Item, b: Item, p: Patch)
    requires a.frontId == b.frontId && a.objectiveId == b.objectiveId && a.type_ == b.type_
    ensures FrontAfter(items, a, p) == FrontAfter(items, b, p)
    ensures FitMove(items, fronts, a, p) == FitMove(items, fronts, b, p)
  {
  }

  /** A patch is taken exactly when its edits fit, the status meant is the one there is or one it may move to, and, if the
      item is then on the map, no other there says the same.  What is taken is the row `Patched` gives, written as
      `WrittenAs` says; what is refused changes nothing. */
  lemma UpdateIs(items: ItemMap, fronts: Fronts, id: Id, p: Patch, now: int, r: Reading)
    requires id in items && items[id].id == id
    ensures var (after, answer) := Updated(items, fronts, id, p, now, r);
            var item, to := items[id], StatusAsked(items[id], p);
            var said := if p.text.Some? then r.fingerprint(Text.Trim(p.text.value)) else item.fingerprint;
            && (answer == Done <==>
                  && FitEdits(items, fronts, item, p, r)
                  && (to == item.status || MayMove(item.type_, item.status, to))
                  && !(OnTheMap(to) && SaidAlready(items, id, item.type_, said)))
            && (answer != Done ==> after == items)
            && (answer == Done ==>
                  && Patched(items, fronts, item, p, r).Ok?
                  && var row := Patched(items, fronts, item, p, r).value;
                     && row.id == id && row.type_ == item.type_ && row.status == to && row.fingerprint == said
                     && (p.cost.Some? && !p.clearCost ==>
                           row.currency == r.upper(Text.Trim(CodeMeant(FrontAfter(items, item, p), fronts, p.costCurrency))))
                     && WrittenAs(items, row, now, after, answer))
            && (FitEdits(items, fronts, item, p, r) && to != item.status && !MayMove(item.type_, item.status, to) ==>
                  answer == Refused(BadTransition))
  {
    hide Staged, FitEdits, Stored, SaidAlready, Text.Trim, MayBecome, MayMove, CodeMeant, FrontAfter;
    EditsTakeIff(items, fronts, items[id], p, r);
    if Staged(items, fronts, items[id], p, r).Ok? {
      var edited := Staged(items, fronts, items[id], p, r).value;
      MovesAre(edited, StatusAsked(items[id], p));
      if Patched(items, fronts, items[id], p, r).Ok? {
        StoreIs(items, Patched(items, fronts, items[id], p, r).value, now);
      }
    }
  }

  lemma NothingToUpdate(items: ItemMap, fronts: Fronts, id: Id, p: Patch, now: int, r: Reading)
    requires id !in items
    ensures Updated(items, fronts, id, p, now, r) == (items, Refused(NotFound))
  {
  }

  // ---------- Reconnaissance ----------

  /** An unknown on the map is lifted by any answer with something in it: it is resolved with that answer, trimmed, at the
      moment it had or now, and nothing else changes. */
  lemma LiftIs(items: ItemMap, id: Id, said: string, now: int)
    requires id in items ==> items[id].id == id
    ensures var (after, answer) := Lifted(items, id, said, now);
            && (answer == Done <==>
                  Text.Trim(said) != "" && id in items && items[id].type_ == Unknown && OnTheMap(items[id].status))
            && (answer == Done ==>
                  after == items[id := items[id].(
                    status := Resolved, answer := Text.Trim(said),
                    resolvedAt := if items[id].resolvedAt == None then Some(now) else items[id].resolvedAt)])
            && (answer != Done ==> after == items)
            && (Text.Trim(said) == "" ==> answer == Refused(NoAnswer))
            && (Text.Trim(said) != "" && id !in items ==> answer == Refused(NotFound))
  {
    hide Text.Trim, SaidAlready;
    if Text.Trim(said) != "" && id in items && items[id].type_ == Unknown {
      StoreIs(items, items[id].(status := Resolved, answer := Text.Trim(said)), now);
    }
  }

  /** Reconnaissance goes out to an unknown on the map; one only proposed is kept by it, unless another active or proposed
      unknown says the same. */
  lemma ScoutIs(items: ItemMap, id: Id, now: int)
    requires id in items ==> items[id].id == id
    ensures var (after, answer) := Scouted(items, id, now);
            && (id !in items ==> answer == Refused(NotFound))
            && (id in items && items[id].type_ != Unknown ==> answer == Refused(NotUnknown))
            && (id in items && items[id].type_ == Unknown && !OnTheMap(items[id].status) ==> answer == Refused(OffTheMap))
            && (id in items && items[id].type_ == Unknown && items[id].status == Active ==> after == items && answer == Done)
            && (id in items && items[id].type_ == Unknown && items[id].status == Proposed ==>
                  if SaidAlready(items, id, Unknown, items[id].fingerprint) then answer == Refused(Duplicate)
                  else answer == Done && after == items[id := items[id].(status := Active, resolvedAt := None)])
            && (answer != Done ==> after == items)
  {
    hide SaidAlready;
    if id in items && items[id].status == Proposed {
      StoreIs(items, items[id].(status := Active), now);
    }
  }

  // ---------- From conversation ----------

  /** What is read out of an answer counts when it is sure enough and says something short; it carries what its type may, an
      obstacle a strength of two where none on the scale was given. */
  predicate ReadAs(type_: Type, w: Wire, c: Candidate) {
    && c.id == w.id && c.type_ == type_ && c.text == Text.Trim(w.text) && c.front == w.front
    && c.index == (if type_ == Objective then 0 else w.index)
    && c.named == (if type_ == Objective then "" else w.named)
    && c.due == (if type_ == Objective then w.due else None)
    && c.kind == (if FitFields(type_, Text.Trim(w.kind), 0) then Text.Trim(w.kind) else "")
    && c.strength == (if type_ != Obstacle then 0 else if 1 <= w.strength <= 3 then w.strength else 2)
  }

  predicate Counts(w: Wire) {
    FitText(w.text) && w.confidence >= 0.6
  }

  lemma CandidateIs(type_: Type, w: Wire)
    ensures CandidateOf(type_, w).Some? <==> Counts(w)
    ensures CandidateOf(type_, w).Some? ==> ReadAs(type_, w, CandidateOf(type_, w).value)
  {
    hide Text.Trim;
  }

  /** The first two of a type that count are read, and no more. */
  lemma FirstTwo(type_: Type, wires: seq<Wire>, w: Wire)
    ensures var before, after := CandidatesOf(type_, wires), CandidatesOf(type_, wires + [w]);
            && (!Counts(w) || |before| >= 2 ==> after == before)
            && (Counts(w) && |before| < 2 ==>
                  |after| == |before| + 1 && before == after[..|before|] && ReadAs(type_, w, after[|before|]))
            && CandidatesOf(type_, []) == []
  {
    hide CandidateOf, Counts, ReadAs;
    CandidateIs(type_, w);
    assert (wires + [w])[..|wires|] == wires;
  }

  /** A proposal under an active objective named by its number in the list shown, counted from one, or else under one proposed in
      the same answer that says what it names; without a front of its own it stands where the former does. */
  predicate ProposedAs(items: ItemMap, c: Candidate, shown: seq<Id>, newly: NewObjectives, r: Reading, item: Item) {
    && item.objectiveId == (
         if 1 <= c.index <= |shown| then Some(shown[c.index - 1])
         else if c.named != "" && r.fingerprint(c.named) in newly then Some(newly[r.fingerprint(c.named)])
         else None)
    && (c.front.Some? ==> item.frontId == c.front)
    && (c.front == None && 1 <= c.index <= |shown| && shown[c.index - 1] in items ==>
          item.frontId == items[shown[c.index - 1]].frontId)
    && (c.front == None && item.objectiveId == None ==> item.frontId == None)
    && item.id == c.id && item.type_ == c.type_ && item.text == c.text && item.fingerprint == r.fingerprint(c.text)
    && item.status == Proposed && item.kind == c.kind && item.strength == c.strength && !item.confirmed && item.answer == ""
    && item.cost == None && item.currency == "" && item.dueAt == c.due && item.resolvedAt == None
  }

  lemma ProposalIs(items: ItemMap, c: Candidate, shown: seq<Id>, newly: NewObjectives, r: Reading)
    ensures ProposedAs(items, c, shown, newly, r, ProposalOf(items, c, shown, newly, r))
  {
    if 1 <= c.index <= |shown| {
      assert shown[c.index - 1] in shown;
    }
  }

  /** One candidate after another: each goes on as the proposal it makes, unless that is on the map already; an objective that
      went on can be named by those after it. */
  lemma ExtractOne(items: ItemMap, candidates: seq<Candidate>, c: Candidate, shown: seq<Id>, r: Reading) returns (item: Item)
    ensures var (before, newly) := Extracted(items, candidates, shown, r);
            var (after, later) := Extracted(items, candidates + [c], shown, r);
            && ProposedAs(items, c, shown, newly, r, item)
            && AddedAs(before, item, after, if c.id in before || SaidAlready(before, c.id, c.type_, r.fingerprint(c.text))
                                            then Refused(Duplicate) else Done)
            && later == (if c.type_ == Objective && c.id !in before
                            && !SaidAlready(before, c.id, Objective, r.fingerprint(c.text))
                         then newly[r.fingerprint(c.text) := c.id] else newly)
            && Extracted(items, [], shown, r) == (items, map[])
  {
    var (before, newly) := Extracted(items, candidates, shown, r);
    item := ProposalOf(items, c, shown, newly, r);
    ProposalIs(items, c, shown, newly, r);
    hide ProposalOf, SaidAlready, Taken, Inserted;
    InsertIs(before, item);
    assert (candidates + [c])[..|candidates|] == candidates;
  }

  /** The objectives shown are those of the listing that are active, in its order. */
  lemma ShownAre(items: ItemMap, listed: seq<Id>, id: Id)
    ensures ActiveObjectives(items, listed + [id])
         == ActiveObjectives(items, listed)
            + (if id in items && items[id].type_ == Objective && items[id].status == Active then [id] else [])
    ensures ActiveObjectives(items, []) == []
  {
    assert (listed + [id])[..|listed|] == listed;
  }

  /** What the red team names is proposed under the active objective it is aimed at, on its front, with a strength of two for
      opposition. */
  lemma SightIs(items: ItemMap, id: Id, type_: Type, text: string, kind: string, aim: Option<Id>, r: Reading)
    requires type_ == Obstacle || (type_ == Unknown && kind == "")
    ensures var (after, answer) := Sighted(items, id, type_, text, kind, aim, r);
            var hit := aim.Some? && aim.value in items && items[aim.value].type_ == Objective
                       && items[aim.value].status == Active;
            && (answer == Done <==>
                  1 <= |text| <= 200 && FitFields(type_, kind, 0) && id !in items
                  && !SaidAlready(items, id, type_, r.fingerprint(text)))
            && (answer == Done ==>
                  after == items[id := Item(
                    id, type_, if hit then items[aim.value].frontId else None, if hit then aim else None, text, Proposed,
                    kind, if type_ == Obstacle then 2 else 0, false, "", None, "", None, r.fingerprint(text), None)])
            && (answer != Done ==> after == items)
  {
    hide SaidAlready, Taken, Inserted;
    if 1 <= |text| <= 200 && FitFields(type_, kind, 0) {
      var hit := aim.Some? && aim.value in items && items[aim.value].type_ == Objective && items[aim.value].status == Active;
      InsertIs(items, Item(id, type_, if hit then items[aim.value].frontId else None, if hit then aim else None, text,
                           Proposed, kind, if type_ == Obstacle then DUG_IN else 0, false, "", None, "", None,
                           r.fingerprint(text), None));
    }
  }
}
