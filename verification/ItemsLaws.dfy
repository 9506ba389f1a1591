/** What every run of changes to the map keeps, and how an item's status can move. */
module ItemsLaws {
  import opened Common
  import opened Items
  import Text

  // ---------- One item ----------

  /** The fields each type may carry, and the moment it left the map. */
  predicate Proper(item: Item) {
    && 1 <= |item.text| <= MAX_TEXT
    && (item.status == Withdrawn ==> item.type_ == Objective)
    && (item.type_ == Objective ==> item.objectiveId.None?)
    && (item.type_ != Obstacle ==> item.kind == "" && item.strength == 0)
    && (item.kind == "" || item.kind in KINDS)
    && (item.strength == 0 || ValidStrength(item.strength))
    && (item.confirmed ==> item.type_ == Obstacle && ValidStrength(item.strength))
    && (item.cost.Some? ==>
          item.type_ == Objective && 0.0 <= item.cost.value <= MAX_AMOUNT && CurrencyCode(item.currency))
  }

  predicate LinksToObjective(items: ItemMap, item: Item) {
    item.objectiveId.Some? ==>
      item.objectiveId.value in items && items[item.objectiveId.value].type_ == Objective
  }

  predicate LeftWhenOff(item: Item) {
    OffMap(item.status) <==> item.resolvedAt.Some?
  }

  predicate WellKept(items: ItemMap, id: Id)
    requires id in items
  {
    items[id].id == id && Proper(items[id]) && LinksToObjective(items, items[id]) && LeftWhenOff(items[id])
  }

  /** No two live items of a type say the same. */
  predicate SaidOnce(items: ItemMap) {
    forall a, b :: a in items && b in items && a != b ==> !SameLive(items[a], items[b])
  }

  predicate Sound(items: ItemMap) {
    (forall id :: id in items ==> WellKept(items, id)) && SaidOnce(items)
  }

  // ---------- The two writes ----------

  lemma InsertingKeeps(items: ItemMap, item: Item)
    requires Sound(items) && Proper(item) && LinksToObjective(items, item) && item.status.Live() && item.resolvedAt.None?
    ensures Sound(Inserted(items, item).0)
  {
    hide Proper, SameLive;
    if Inserted(items, item).1 == Done {
      var after := Inserted(items, item).0;
      forall id | id in after
        ensures WellKept(after, id)
      {
        assert id != item.id ==> WellKept(items, id);
      }
      forall a, b | a in after && b in after && a != b
        ensures !SameLive(after[a], after[b])
      {
        SameLiveBothWays(after[a], after[b]);
      }
    }
  }

  lemma SameLiveBothWays(a: Item, b: Item)
    ensures SameLive(a, b) == SameLive(b, a)
  {
  }

  lemma StoringKeeps(items: ItemMap, item: Item, now: int)
    requires Sound(items) && item.id in items && items[item.id].type_ == item.type_
    requires Proper(item) && LinksToObjective(items, item)
    ensures Sound(Stored(items, item, now).0)
  {
    hide Proper, SameLive;
    if Stored(items, item, now).1 == Done {
      var after := Stored(items, item, now).0;
      var row := after[item.id];
      ProperWithout(item, row);
      forall id | id in after
        ensures WellKept(after, id)
      {
        assert id != item.id ==> WellKept(items, id);
      }
      forall a, b | a in after && b in after && a != b
        ensures !SameLive(after[a], after[b])
      {
        SameLiveBothWays(after[a], after[b]);
        SameButMoment(item, row, after[if a == item.id then b else a]);
      }
    }
  }

  lemma ProperWithout(a: Item, b: Item)
    requires b == a.(resolvedAt := b.resolvedAt) && Proper(a)
    ensures Proper(b)
  {
  }

  lemma SameButMoment(a: Item, b: Item, other: Item)
    requires b == a.(resolvedAt := b.resolvedAt)
    ensures SameLive(other, a) == SameLive(other, b)
  {
  }

  // ---------- What each stage of a patch keeps ----------

  predicate SameIdentity(a: Item, b: Item) {
    a.id == b.id && a.type_ == b.type_
  }

  lemma CleanIsBounded(text: string)
    ensures CleanText(text).Ok? ==> 1 <= |CleanText(text).value| <= MAX_TEXT
  {
  }

  lemma PlacingKeeps(items: ItemMap, fronts: Fronts, item: Item, frontId: Option<Id>, objectiveId: Option<Id>)
    requires Proper(item)
    ensures var r := Placed(items, fronts, item, frontId, objectiveId);
            r.Ok? ==> && Proper(r.value) && LinksToObjective(items, r.value) && SameIdentity(item, r.value)
                      && r.value.status == item.status && r.value.answer == item.answer
                      && r.value.resolvedAt == item.resolvedAt
  {
    hide CurrencyCode;
  }

  lemma FieldingKeeps(item: Item, kind: string, strength: int, confirmed: bool)
    requires Proper(item)
    ensures var r := Fielded(item, kind, strength, confirmed);
            r.Ok? ==> && Proper(r.value) && SameIdentity(item, r.value) && r.value.objectiveId == item.objectiveId
                      && r.value.status == item.status && r.value.answer == item.answer
                      && r.value.resolvedAt == item.resolvedAt
  {
    hide CurrencyCode;
  }

  lemma CostingKeeps(item: Item, fronts: Fronts, p: Patch, r: Reading)
    requires Proper(item)
    ensures var c := Costed(item, fronts, p, r);
            c.Ok? ==> && Proper(c.value) && SameIdentity(item, c.value) && c.value.objectiveId == item.objectiveId
                      && c.value.status == item.status && c.value.answer == item.answer
                      && c.value.resolvedAt == item.resolvedAt
  {
    hide CurrencyCode, Text.Trim, CurrencyFor;
  }

  lemma RestatingKeeps(item: Item, p: Patch)
    requires Proper(item)
    ensures var r := Restated(item, p);
            r.Ok? ==> && Proper(r.value) && SameIdentity(item, r.value) && r.value.objectiveId == item.objectiveId
                      && r.value.answer == item.answer && r.value.resolvedAt == item.resolvedAt
                      && (r.value.status == item.status || MayBecome(item, r.value.status))
  {
    hide CurrencyCode;
  }

  /** What each edit leaves alone. */
  predicate EditOf(items: ItemMap, a: Item, b: Item) {
    && Proper(b) && LinksToObjective(items, b) && SameIdentity(a, b)
    && b.status == a.status && b.answer == a.answer && b.resolvedAt == a.resolvedAt
  }

  lemma RewordingKeeps(items: ItemMap, item: Item, p: Patch, r: Reading)
    requires Proper(item) && LinksToObjective(items, item)
    ensures Reworded(item, p, r).Ok? ==> EditOf(items, item, Reworded(item, p, r).value)
  {
    hide CleanText, CurrencyCode;
    if p.text.Some? {
      CleanIsBounded(p.text.value);
    }
  }

  lemma MovingKeeps(items: ItemMap, fronts: Fronts, item: Item, p: Patch)
    requires Proper(item) && LinksToObjective(items, item)
    ensures Moved(items, fronts, item, p).Ok? ==> EditOf(items, item, Moved(items, fronts, item, p).value)
  {
    hide Placed, Proper;
    if Moves(p) {
      PlacingKeeps(items, fronts, item,
                   if p.clearFront then None else if p.frontId.Some? then p.frontId else item.frontId,
                   if p.clearObjective then None else if p.objectiveId.Some? then p.objectiveId else item.objectiveId);
    }
  }

  lemma RefieldingKeeps(items: ItemMap, item: Item, p: Patch)
    requires Proper(item) && LinksToObjective(items, item)
    ensures Refielded(item, p).Ok? ==> EditOf(items, item, Refielded(item, p).value)
  {
    hide Fielded, Proper;
    if Refields(p) {
      FieldingKeeps(item, if p.kind.Some? then p.kind.value else item.kind,
                    if p.strength.Some? then p.strength.value else item.strength,
                    item.confirmed || p.strength.Some? || p.confirmStrength);
    }
  }

  lemma RedatingKeeps(items: ItemMap, item: Item, p: Patch)
    requires Proper(item) && LinksToObjective(items, item)
    ensures Redated(item, p).Ok? ==> EditOf(items, item, Redated(item, p).value)
  {
    hide CurrencyCode;
  }

  lemma RecostingKeeps(items: ItemMap, fronts: Fronts, item: Item, p: Patch, r: Reading)
    requires Proper(item) && LinksToObjective(items, item)
    ensures Recosted(item, fronts, p, r).Ok? ==> EditOf(items, item, Recosted(item, fronts, p, r).value)
  {
    hide Costed, Proper;
    if Recosts(p) {
      CostingKeeps(item, fronts, p, r);
    }
  }

  lemma StagingKeeps(items: ItemMap, fronts: Fronts, item: Item, p: Patch, r: Reading)
    requires Proper(item) && LinksToObjective(items, item)
    ensures Staged(items, fronts, item, p, r).Ok? ==> EditOf(items, item, Staged(items, fronts, item, p, r).value)
  {
    hide Reworded, Moved, Refielded, Redated, Recosted, Proper, LinksToObjective;
    RewordingKeeps(items, item, p, r);
    var a := Reworded(item, p, r);
    if a.Err? {
      return;
    }
    MovingKeeps(items, fronts, a.value, p);
    var b := Moved(items, fronts, a.value, p);
    if b.Err? {
      return;
    }
    RefieldingKeeps(items, b.value, p);
    var c := Refielded(b.value, p);
    if c.Err? {
      return;
    }
    RedatingKeeps(items, c.value, p);
    if Redated(c.value, p).Ok? {
      RecostingKeeps(items, fronts, Redated(c.value, p).value, p, r);
    }
  }

  lemma PatchingKeeps(items: ItemMap, fronts: Fronts, item: Item, p: Patch, r: Reading)
    requires Proper(item) && LinksToObjective(items, item)
    ensures var q := Patched(items, fronts, item, p, r);
            q.Ok? ==> && Proper(q.value) && LinksToObjective(items, q.value) && SameIdentity(item, q.value)
                      && q.value.answer == item.answer && q.value.resolvedAt == item.resolvedAt
                      && (q.value.status == item.status || MayBecome(item, q.value.status))
  {
    hide Staged, Restated, Proper;
    StagingKeeps(items, fronts, item, p, r);
    if Staged(items, fronts, item, p, r).Ok? {
      RestatingKeeps(Staged(items, fronts, item, p, r).value, p);
    }
  }

  // ---------- What an accepted patch comes to ----------

  /** The fields a patch may name, each as the patch says or as it was. */
  predicate TextAndDateAs(item: Item, p: Patch, r: Reading, q: Item) {
    && q.text == (if p.text.Some? then Text.Trim(p.text.value) else item.text)
    && q.fingerprint == (if p.text.Some? then r.fingerprint(Text.Trim(p.text.value)) else item.fingerprint)
    && q.dueAt == (if p.clearDue then None else if p.dueAt.Some? then p.dueAt else item.dueAt)
  }

  predicate FieldsAs(item: Item, p: Patch, q: Item) {
    && q.kind == (if p.kind.Some? then p.kind.value else item.kind)
    && q.strength == (if p.strength.Some? then p.strength.value else item.strength)
    && q.confirmed == ((item.confirmed || p.strength.Some? || p.confirmStrength) && q.strength != 0)
  }

  predicate CostAs(item: Item, p: Patch, q: Item) {
    && q.cost == (if p.clearCost then None else if p.cost.Some? then p.cost else item.cost)
    && (!Recosts(p) ==> q.currency == item.currency)
    && (p.clearCost ==> q.currency == "")
  }

  /** Under its objective an item stands on the front named, else on its own, else on the objective's. */
  predicate PlaceAs(items: ItemMap, item: Item, p: Patch, q: Item) {
    && q.objectiveId == (if p.clearObjective then None else if p.objectiveId.Some? then p.objectiveId else item.objectiveId)
    && var front := if p.clearFront then None else if p.frontId.Some? then p.frontId else item.frontId;
       q.frontId == if !Moves(p) || front.Some? || q.objectiveId.None? || q.objectiveId.value !in items then front
                    else items[q.objectiveId.value].frontId
  }

  predicate StatusAs(item: Item, p: Patch, q: Item) {
    q.status == if p.status.Some? then p.status.value
                else if item.status == Proposed && (Moves(p) || Refields(p) || Redates(p) || Recosts(p)) then Active
                else item.status
  }

  lemma RewordedAs(item: Item, p: Patch, r: Reading)
    ensures var q := Reworded(item, p, r);
            q.Ok? ==> TextAndDateAs(item, p.(dueAt := None, clearDue := false), r, q.value)
                      && q.value == item.(text := q.value.text, fingerprint := q.value.fingerprint)
  {
    hide Text.Trim;
  }

  lemma MovedAs(items: ItemMap, fronts: Fronts, item: Item, p: Patch)
    ensures var q := Moved(items, fronts, item, p);
            q.Ok? ==> PlaceAs(items, item, p, q.value)
                      && q.value == item.(frontId := q.value.frontId, objectiveId := q.value.objectiveId)
  {
  }

  lemma RefieldedAs(item: Item, p: Patch)
    requires Proper(item)
    ensures var q := Refielded(item, p);
            q.Ok? ==> FieldsAs(item, p, q.value)
                      && q.value == item.(kind := q.value.kind, strength := q.value.strength, confirmed := q.value.confirmed)
  {
    hide CurrencyCode;
  }

  lemma RecostedAs(item: Item, fronts: Fronts, p: Patch, r: Reading)
    ensures var q := Recosted(item, fronts, p, r);
            q.Ok? ==> CostAs(item, p, q.value) && q.value == item.(cost := q.value.cost, currency := q.value.currency)
  {
    hide Text.Trim, CurrencyCode, CurrencyFor;
  }

  /** All but the status of an accepted patch. */
  lemma EditsAre(items: ItemMap, fronts: Fronts, item: Item, p: Patch, r: Reading)
    requires Proper(item) && Staged(items, fronts, item, p, r).Ok?
    ensures var q := Staged(items, fronts, item, p, r).value;
            && TextAndDateAs(item, p, r, q) && FieldsAs(item, p, q) && CostAs(item, p, q) && PlaceAs(items, item, p, q)
            && q.id == item.id && q.type_ == item.type_ && q.status == item.status
            && q.answer == item.answer && q.resolvedAt == item.resolvedAt
  {
    hide Reworded, Moved, Refielded, Recosted, Text.Trim;
    var a := Reworded(item, p, r).value;
    RewordedAs(item, p, r);
    var b := Moved(items, fronts, a, p).value;
    MovedAs(items, fronts, a, p);
    assert Proper(b) by {
      StagesAreProper(items, fronts, item, p, r);
    }
    hide Proper;
    var c := Refielded(b, p).value;
    RefieldedAs(b, p);
    var d := Redated(c, p).value;
    RecostedAs(d, fronts, p, r);
  }

  /** An accepted patch changes each field to what it says and leaves every other field alone. */
  lemma PatchIs(items: ItemMap, fronts: Fronts, item: Item, p: Patch, r: Reading)
    requires Proper(item) && Patched(items, fronts, item, p, r).Ok?
    ensures var q := Patched(items, fronts, item, p, r).value;
            && TextAndDateAs(item, p, r, q) && FieldsAs(item, p, q) && CostAs(item, p, q)
            && PlaceAs(items, item, p, q) && StatusAs(item, p, q)
            && q.id == item.id && q.type_ == item.type_ && q.answer == item.answer && q.resolvedAt == item.resolvedAt
  {
    hide Staged, Text.Trim, Proper;
    EditsAre(items, fronts, item, p, r);
  }

  lemma StagesAreProper(items: ItemMap, fronts: Fronts, item: Item, p: Patch, r: Reading)
    requires Proper(item) && Reworded(item, p, r).Ok? && Moved(items, fronts, Reworded(item, p, r).value, p).Ok?
    ensures Proper(Moved(items, fronts, Reworded(item, p, r).value, p).value)
  {
    hide Placed, CleanText, CurrencyCode;
    if p.text.Some? {
      CleanIsBounded(p.text.value);
    }
    var a := Reworded(item, p, r).value;
    if Moves(p) {
      PlacingKeeps(items, fronts, a,
                   if p.clearFront then None else if p.frontId.Some? then p.frontId else a.frontId,
                   if p.clearObjective then None else if p.objectiveId.Some? then p.objectiveId else a.objectiveId);
    }
  }

  /** An item added by hand holds what was asked, on the front asked or else its objective's. */
  lemma CreationIs(items: ItemMap, fronts: Fronts, call: Call, r: Reading)
    requires call.Create? && CreatedByHand(items, fronts, call, r).1 == Done
    ensures var after := CreatedByHand(items, fronts, call, r).0;
            && call.id !in items && after == items[call.id := after[call.id]]
            && var q := after[call.id];
               && q.type_ == call.type_ && q.text == Text.Trim(call.text) && q.status == Active && q.dueAt == call.dueAt
               && q.objectiveId == call.objectiveId && q.kind == call.kind && q.strength == call.strength
               && q.confirmed == (call.strength != 0) && q.fingerprint == r.fingerprint(q.text)
               && q.frontId == (if call.frontId.Some? || call.objectiveId.None? then call.frontId
                                else items[call.objectiveId.value].frontId)
  {
    hide Text.Trim, Taken;
  }

  // ---------- Every call ----------

  lemma CreatingKeeps(items: ItemMap, fronts: Fronts, call: Call, r: Reading)
    requires Sound(items) && call.Create?
    ensures Sound(CreatedByHand(items, fronts, call, r).0)
  {
    hide Placed, Fielded, Inserted, CleanText, Sound;
    CleanIsBounded(call.text);
    if CleanText(call.text).Ok? {
      var line := CleanText(call.text).value;
      var blank := Item(call.id, call.type_, None, None, line, Active, "", 0, false, "", None, "", call.dueAt,
                        r.fingerprint(line), None);
      PlacingKeeps(items, fronts, blank, call.frontId, call.objectiveId);
      var placed := Placed(items, fronts, blank, call.frontId, call.objectiveId);
      if placed.Ok? {
        FieldingKeeps(placed.value, call.kind, call.strength, true);
        var item := Fielded(placed.value, call.kind, call.strength, true);
        if item.Ok? {
          hide Proper;
          InsertingKeeps(items, item.value);
        }
      }
    }
  }

  lemma UpdatingKeeps(items: ItemMap, fronts: Fronts, id: Id, p: Patch, now: int, r: Reading)
    requires Sound(items)
    ensures Sound(Updated(items, fronts, id, p, now, r).0)
  {
    hide Patched, Stored, Proper;
    if id in items {
      assert WellKept(items, id);
      PatchingKeeps(items, fronts, items[id], p, r);
      if Patched(items, fronts, items[id], p, r).Ok? {
        StoringKeeps(items, Patched(items, fronts, items[id], p, r).value, now);
      }
    }
  }

  lemma LiftingKeeps(items: ItemMap, id: Id, answer: string, now: int)
    requires Sound(items)
    ensures Sound(Lifted(items, id, answer, now).0)
  {
    hide Stored, Text.Trim, CurrencyCode;
    if id in items {
      assert WellKept(items, id);
      StoringKeeps2(items, items[id].(status := Resolved, answer := Text.Trim(answer)), now);
    }
  }

  lemma StoringKeeps2(items: ItemMap, item: Item, now: int)
    requires Sound(items) && item.id in items
    requires item == items[item.id].(status := item.status, answer := item.answer) && item.status != Withdrawn
    ensures Sound(Stored(items, item, now).0)
  {
    hide Stored, CurrencyCode;
    assert WellKept(items, item.id);
    StoringKeeps(items, item, now);
  }

  lemma RowIsKept(items: ItemMap, id: Id)
    requires Sound(items) && id in items
    ensures WellKept(items, id)
  {
  }

  lemma ScoutingKeeps(items: ItemMap, id: Id, now: int)
    requires Sound(items)
    ensures Sound(Scouted(items, id, now).0)
  {
    hide Stored, Sound;
    if id in items && items[id].status == Proposed {
      RowIsKept(items, id);
      StoringKeeps2(items, items[id].(status := Active), now);
    }
  }

  lemma SightingKeeps(items: ItemMap, id: Id, type_: Type, text: string, kind: string, aim: Option<Id>, r: Reading)
    requires Sound(items) && type_ != Objective && (type_ == Unknown ==> kind == "")
    ensures Sound(Sighted(items, id, type_, text, kind, aim, r).0)
  {
    hide Inserted, Sound;
    if text != "" && |text| <= MAX_TEXT && (kind == "" || kind in KINDS) {
      var hit := aim.Some? && aim.value in items && items[aim.value].type_ == Objective && items[aim.value].status == Active;
      InsertingKeeps(items, Item(id, type_, if hit then items[aim.value].frontId else None, if hit then aim else None, text,
                                 Proposed, kind, if type_ == Obstacle then DUG_IN else 0, false, "", None, "", None,
                                 r.fingerprint(text), None));
    }
  }

  /** What a candidate may carry by its type. */
  predicate Fit(c: Candidate) {
    && 1 <= |c.text| <= MAX_TEXT
    && (c.type_ == Objective ==> c.index == 0 && c.named == "")
    && (c.type_ != Obstacle ==> c.kind == "" && c.strength == 0)
    && (c.kind == "" || c.kind in KINDS)
    && (c.type_ == Obstacle ==> ValidStrength(c.strength))
  }

  predicate AllFit(candidates: seq<Candidate>) {
    forall i :: 0 <= i < |candidates| ==> Fit(candidates[i])
  }

  lemma CandidateIsFit(type_: Type, w: Wire)
    ensures CandidateOf(type_, w).Some? ==> Fit(CandidateOf(type_, w).value)
  {
    hide Text.Trim;
  }

  lemma {:induction false} CandidatesAreFit(type_: Type, wires: seq<Wire>)
    ensures AllFit(CandidatesOf(type_, wires))
  {
    if wires != [] {
      hide CandidateOf, Fit;
      CandidatesAreFit(type_, wires[..|wires| - 1]);
      CandidateIsFit(type_, wires[|wires| - 1]);
    }
  }

  /** The new objectives of an answer are objectives on the map. */
  predicate AllObjectives(items: ItemMap, newly: NewObjectives) {
    forall said :: said in newly ==> newly[said] in items && items[newly[said]].type_ == Objective
  }

  predicate TypesStay(a: ItemMap, b: ItemMap) {
    forall id :: id in a ==> id in b && b[id].type_ == a[id].type_
  }

  lemma ProposalIsProper(items: ItemMap, now: ItemMap, c: Candidate, objectives: seq<Id>, newly: NewObjectives, r: Reading)
    requires Fit(c) && AllObjectives(now, newly) && TypesStay(items, now)
    requires forall id :: id in objectives ==> id in items && items[id].type_ == Objective
    ensures var item := ProposalOf(items, c, objectives, newly, r);
            && Proper(item) && LinksToObjective(now, item) && item.status == Proposed && item.resolvedAt.None?
            && item.id == c.id && item.type_ == c.type_
  {
    hide CurrencyCode;
    if 0 < c.index <= |objectives| {
      assert objectives[c.index - 1] in objectives;
    }
  }

  lemma InsertingKeepsTypes(items: ItemMap, item: Item)
    ensures TypesStay(items, Inserted(items, item).0)
    ensures Inserted(items, item).1 == Done ==> item.id in Inserted(items, item).0 && Inserted(items, item).0[item.id] == item
  {
    hide Taken;
  }

  lemma TypesStayOn(a: ItemMap, b: ItemMap, c: ItemMap)
    requires TypesStay(a, b) && TypesStay(b, c)
    ensures TypesStay(a, c)
  {
  }

  lemma ObjectivesStay(a: ItemMap, b: ItemMap, newly: NewObjectives)
    requires AllObjectives(a, newly) && TypesStay(a, b)
    ensures AllObjectives(b, newly)
  {
  }

  lemma {:induction false} ExtractingKeeps(items: ItemMap, candidates: seq<Candidate>, objectives: seq<Id>, r: Reading)
    requires Sound(items) && AllFit(candidates)
    requires forall id :: id in objectives ==> id in items && items[id].type_ == Objective
    ensures var (after, newly) := Extracted(items, candidates, objectives, r);
            Sound(after) && AllObjectives(after, newly) && TypesStay(items, after)
  {
    if candidates != [] {
      hide Sound, Fit, ProposalOf, Inserted, TypesStay;
      var n := |candidates| - 1;
      ExtractingKeeps(items, candidates[..n], objectives, r);
      var (before, newly) := Extracted(items, candidates[..n], objectives, r);
      var item := ProposalOf(items, candidates[n], objectives, newly, r);
      ProposalIsProper(items, before, candidates[n], objectives, newly, r);
      hide Proper, LinksToObjective;
      InsertingKeeps(before, item);
      InsertingKeepsTypes(before, item);
      TypesStayOn(items, before, Inserted(before, item).0);
      ObjectivesStay(before, Inserted(before, item).0, newly);
    }
  }

  lemma ParsedAreFit(objectives: seq<Wire>, obstacles: seq<Wire>, unknowns: seq<Wire>)
    ensures AllFit(Parsed(objectives, obstacles, unknowns))
  {
    hide Fit, CandidatesOf;
    CandidatesAreFit(Objective, objectives);
    CandidatesAreFit(Obstacle, obstacles);
    CandidatesAreFit(Unknown, unknowns);
  }

  lemma StepKeeps(items: ItemMap, fronts: Fronts, call: Call, r: Reading)
    requires Sound(items)
    ensures Sound(Step(items, fronts, call, r).0)
  {
    hide Sound, CreatedByHand, Updated, Lifted, Scouted, Sighted, Extracted, Parsed, ActiveObjectives, AllFit;
    match call
    case Create(_, _, _, _, _, _, _, _) => CreatingKeeps(items, fronts, call, r);
    case Update(id, patch, now) => UpdatingKeeps(items, fronts, id, patch, now, r);
    case Lift(id, answer, now) => LiftingKeeps(items, id, answer, now);
    case SendRecon(id, now) => ScoutingKeeps(items, id, now);
    case Extract(objectives, obstacles, unknowns, listed) =>
      ParsedAreFit(objectives, obstacles, unknowns);
      ExtractingKeeps(items, Parsed(objectives, obstacles, unknowns), ActiveObjectives(items, listed), r);
    case Attack(id, text, kind, aim) => SightingKeeps(items, id, Obstacle, text, kind, aim, r);
    case Question(id, text, aim) => SightingKeeps(items, id, Unknown, text, "", aim, r);
  }

  /** Every map a run reaches is sound: only objectives are withdrawn or cost anything, none sits under another, every
      link leads to an objective, and kind, strength and confirmation stand on obstacles, a confirmed strength on the
      scale. */
  lemma {:induction false} RunKeeps(events: seq<Event>, r: Reading)
    ensures Sound(Run(map[], events, r))
  {
    if events != [] {
      hide Sound, Step;
      var n := |events| - 1;
      RunKeeps(events[..n], r);
      StepKeeps(Run(map[], events[..n], r), events[n].fronts, events[n].call, r);
    }
  }

  // ---------- How a status moves ----------

  /** One item's status before and after a call. */
  predicate MovedBy(was: Item, became: Item, call: Call) {
    && became.type_ == was.type_
    && (became.status == was.status
        || MayBecome(was, became.status)
        || (call.Lift? && was.type_ == Unknown && was.status == Proposed && became.status == Resolved))
    && (became.status == was.status || call.Update? || call.Lift? || call.SendRecon?)
    && (call.Lift? && became != was ==> became.status == Resolved && became.answer != "")
    && (!call.Lift? ==> became.answer == was.answer)
  }

  lemma {:induction false} ExtractingAdds(items: ItemMap, candidates: seq<Candidate>, objectives: seq<Id>, r: Reading)
    ensures var (after, _) := Extracted(items, candidates, objectives, r);
            && (forall id :: id in items ==> id in after && after[id] == items[id])
            && (forall id :: id in after && id !in items ==> after[id].status == Proposed && after[id].answer == "")
  {
    if candidates != [] {
      var n := |candidates| - 1;
      ExtractingAdds(items, candidates[..n], objectives, r);
      hide LinkOf, Taken;
    }
  }

  /** The calls that change an item there is. */
  predicate Changes(call: Call) {
    call.Update? || call.Lift? || call.SendRecon?
  }

  /** A call leaves every item but the one it names as it was, and moves that one's status along the allowed moves; what
      it adds is active if made by hand and proposed if read out of a conversation, and only a conversation adds more than
      the one it names. */
  lemma StatusMoves(items: ItemMap, fronts: Fronts, call: Call, r: Reading, id: Id)
    requires Sound(items)
    ensures var after := Step(items, fronts, call, r).0;
            && (id in items ==> id in after && MovedBy(items[id], after[id], call))
            && (id in items && (!Changes(call) || id != call.id) ==> after[id] == items[id])
            && (id !in items && id in after ==>
                  && after[id].answer == "" && after[id].status == (if call.Create? then Active else Proposed)
                  && (call.Extract? || (!Changes(call) && id == call.id)))
  {
    hide Text.Trim, Placed, Fielded, CleanText, Patched, Taken, Extracted, Parsed, ActiveObjectives, Proper;
    match call
    case Create(_, _, _, _, _, _, _, _) => CreatedIsActive(items, fronts, call, r);
    case Update(item, patch, now) =>
      if item in items {
        assert WellKept(items, item);
        PatchingKeeps(items, fronts, items[item], patch, r);
      }
    case Lift(item, answer, now) =>
      if item in items {
        assert WellKept(items, item);
      }
    case SendRecon(item, now) =>
      if item in items {
        assert WellKept(items, item);
      }
    case Extract(objectives, obstacles, unknowns, listed) =>
      ExtractingAdds(items, Parsed(objectives, obstacles, unknowns), ActiveObjectives(items, listed), r);
    case Attack(_, _, _, _) =>
    case Question(_, _, _) =>
  }

  lemma CreatedIsActive(items: ItemMap, fronts: Fronts, call: Call, r: Reading)
    requires call.Create?
    ensures var after := CreatedByHand(items, fronts, call, r).0;
            forall id :: (id in items ==> id in after && after[id] == items[id])
                         && (id in after && id !in items ==>
                               id == call.id && after[id].status == Active && after[id].answer == "")
  {
    hide Text.Trim, CleanText, Taken;
  }

  /** Whether the item was active at some point of the run, or one of its calls lifted it. */
  ghost predicate OnceKept(events: seq<Event>, r: Reading, id: Id) {
    exists k :: 0 <= k < |events| && KeptAt(events, r, id, k)
  }

  /** Before the k-th call the item was active, or it was a proposal and that call resolved it with an answer. */
  predicate KeptAt(events: seq<Event>, r: Reading, id: Id, k: nat)
    requires k < |events|
  {
    var items, after := Run(map[], events[..k], r), Run(map[], events[..k + 1], r);
    && id in items
    && (items[id].status == Active
        || (&& items[id].status == Proposed && events[k].call.Lift? && events[k].call.id == id
            && id in after && after[id].status == Resolved && after[id].answer != ""))
  }

  lemma KeptStays(events: seq<Event>, r: Reading, id: Id)
    requires events != [] && OnceKept(events[..|events| - 1], r, id)
    ensures OnceKept(events, r, id)
  {
    var n := |events| - 1;
    var k :| 0 <= k < n && KeptAt(events[..n], r, id, k);
    assert events[..n][..k] == events[..k] && events[..n][..k + 1] == events[..k + 1];
    assert KeptAt(events, r, id, k);
  }

  /** Nothing proposed gets into the record of what was done: over every run an item is resolved or withdrawn only after
      having been active, or by being lifted with an answer. */
  lemma {:induction false} DoneOnlyOnceKept(events: seq<Event>, r: Reading, id: Id)
    requires id in Run(map[], events, r)
    requires Run(map[], events, r)[id].status == Resolved || Run(map[], events, r)[id].status == Withdrawn
    ensures OnceKept(events, r, id)
  {
    hide Sound, Step;
    var n := |events| - 1;
    var before, e := Run(map[], events[..n], r), events[n];
    RunKeeps(events[..n], r);
    StatusMoves(before, e.fronts, e.call, r, id);
    if before[id].status == Resolved || before[id].status == Withdrawn {
      DoneOnlyOnceKept(events[..n], r, id);
      KeptStays(events, r, id);
    } else {
      assert events[..n + 1] == events;
      assert KeptAt(events, r, id, n);
    }
  }

  // ---------- Fog lifted without an answer ----------

  predicate Answered(items: ItemMap) {
    forall id :: id in items && items[id].type_ == Unknown && items[id].status == Resolved ==> items[id].answer != ""
  }

  /** Where an unknown may stand: on no front or an active one, under no objective or one on the map. */
  predicate MayStand(items: ItemMap, fronts: Fronts, frontId: Option<Id>, objectiveId: Option<Id>) {
    && (frontId.Some? ==> frontId.value in fronts && fronts[frontId.value].active)
    && (objectiveId.Some? ==> objectiveId.value in items && items[objectiveId.value].type_ == Objective)
  }

  /** What an unknown can be asked in an update: new words of a fitting length, a place it may stand, and nothing that
      belongs to objectives or obstacles. */
  predicate Suits(items: ItemMap, fronts: Fronts, item: Item, p: Patch) {
    && (p.text.Some? ==> 1 <= |Text.Trim(p.text.value)| <= MAX_TEXT)
    && (Moves(p) ==>
          MayStand(items, fronts,
                   if p.clearFront then None else if p.frontId.Some? then p.frontId else item.frontId,
                   if p.clearObjective then None else if p.objectiveId.Some? then p.objectiveId else item.objectiveId))
    && !Refields(p) && !Redates(p) && !Recosts(p)
  }

  /** An update that suits an active unknown without an answer and marks it resolved: all of it known before the call. */
  predicate ForgetsTheAnswer(items: ItemMap, fronts: Fronts, call: Call) {
    && call.Update? && call.id in items && items[call.id].type_ == Unknown && items[call.id].status == Active
    && items[call.id].answer == "" && call.patch.status == Some(Resolved)
    && Suits(items, fronts, items[call.id], call.patch)
  }

  lemma RewordsIff(item: Item, p: Patch, r: Reading)
    ensures Reworded(item, p, r).Ok? <==> (p.text.Some? ==> 1 <= |Text.Trim(p.text.value)| <= MAX_TEXT)
    ensures var q := Reworded(item, p, r);
            q.Ok? ==> q.value == item.(text := q.value.text, fingerprint := q.value.fingerprint)
  {
    hide Text.Trim;
  }

  lemma MovesIff(items: ItemMap, fronts: Fronts, item: Item, p: Patch)
    requires item.type_ == Unknown
    ensures Moved(items, fronts, item, p).Ok?
            <==> (Moves(p) ==>
                    MayStand(items, fronts,
                             if p.clearFront then None else if p.frontId.Some? then p.frontId else item.frontId,
                             if p.clearObjective then None else if p.objectiveId.Some? then p.objectiveId else item.objectiveId))
    ensures var q := Moved(items, fronts, item, p);
            q.Ok? ==> q.value == item.(frontId := q.value.frontId, objectiveId := q.value.objectiveId)
  {
  }

  lemma SuitsIff(items: ItemMap, fronts: Fronts, item: Item, p: Patch, r: Reading)
    requires item.type_ == Unknown
    ensures Suits(items, fronts, item, p) <==> Staged(items, fronts, item, p, r).Ok?
    ensures Staged(items, fronts, item, p, r).Ok? ==> Staged(items, fronts, item, p, r).value.status == item.status
    ensures Staged(items, fronts, item, p, r).Ok? ==> Staged(items, fronts, item, p, r).value.type_ == item.type_
  {
    hide Reworded, Moved, MayStand, Text.Trim, Moves;
    RewordsIff(item, p, r);
    if Reworded(item, p, r).Ok? {
      MovesIff(items, fronts, Reworded(item, p, r).value, p);
    }
  }

  /** An active unknown is resolved by an update exactly when the update suits it. */
  lemma ResolvingTakesIff(items: ItemMap, fronts: Fronts, call: Call, r: Reading)
    requires call.Update? && call.id in items && items[call.id].type_ == Unknown && items[call.id].status == Active
    requires call.patch.status == Some(Resolved)
    ensures Suits(items, fronts, items[call.id], call.patch) <==> Step(items, fronts, call, r).1 == Done
  {
    hide Staged, Suits;
    SuitsIff(items, fronts, items[call.id], call.patch, r);
  }

  lemma PatchToResolved(items: ItemMap, fronts: Fronts, item: Item, p: Patch, r: Reading)
    requires Proper(item) && LinksToObjective(items, item) && Patched(items, fronts, item, p, r).Ok?
    ensures p.status.Some? ==> Patched(items, fronts, item, p, r).value.status == p.status.value
    ensures p.status.None? ==>
              Patched(items, fronts, item, p, r).value.status == item.status
              || Patched(items, fronts, item, p, r).value.status == Active
  {
    hide Staged, Proper;
    StagingKeeps(items, fronts, item, p, r);
  }

  /** Resolved unknowns keep having answers exactly as long as no update marks an unanswered one resolved. */
  lemma AnsweredIff(items: ItemMap, fronts: Fronts, call: Call, r: Reading)
    requires Sound(items) && Answered(items)
    ensures Answered(Step(items, fronts, call, r).0) <==> !ForgetsTheAnswer(items, fronts, call)
  {
    hide Sound, Step;
    var after := Step(items, fronts, call, r).0;
    forall id | id in after && after[id].type_ == Unknown && after[id].status == Resolved && after[id].answer == ""
      ensures ForgetsTheAnswer(items, fronts, call)
    {
      StatusMoves(items, fronts, call, r, id);
      UnansweredByUpdate(items, fronts, call, r, id);
    }
    if ForgetsTheAnswer(items, fronts, call) {
      ForgettingShows(items, fronts, call, r);
    }
  }

  lemma UnansweredByUpdate(items: ItemMap, fronts: Fronts, call: Call, r: Reading, id: Id)
    requires Sound(items) && Answered(items) && id in items && id in Step(items, fronts, call, r).0
    requires MovedBy(items[id], Step(items, fronts, call, r).0[id], call)
    requires Step(items, fronts, call, r).0[id].type_ == Unknown && Step(items, fronts, call, r).0[id].status == Resolved
    requires Step(items, fronts, call, r).0[id].answer == ""
    ensures ForgetsTheAnswer(items, fronts, call)
  {
    hide Patched, Proper, Taken, Suits;
    assert call.Update?;
    if call.id in items {
      assert WellKept(items, call.id);
      if Patched(items, fronts, items[call.id], call.patch, r).Ok? {
        PatchingKeeps(items, fronts, items[call.id], call.patch, r);
        PatchToResolved(items, fronts, items[call.id], call.patch, r);
        ResolvingTakes(items, fronts, call, r, id);
      }
    }
  }

  lemma ResolvingTakes(items: ItemMap, fronts: Fronts, call: Call, r: Reading, id: Id)
    requires call.Update? && call.id == id && id in items && items[id].type_ == Unknown && items[id].status == Active
    requires call.patch.status == Some(Resolved) && Step(items, fronts, call, r).0 != items
    ensures Suits(items, fronts, items[id], call.patch)
  {
    hide Patched, Suits, Taken;
    ResolvingTakesIff(items, fronts, call, r);
  }

  lemma ForgettingShows(items: ItemMap, fronts: Fronts, call: Call, r: Reading)
    requires Sound(items) && ForgetsTheAnswer(items, fronts, call)
    ensures !Answered(Step(items, fronts, call, r).0)
  {
    hide Patched, Proper, Text.Trim, Taken, Suits;
    ResolvingTakesIff(items, fronts, call, r);
    assert WellKept(items, call.id);
    PatchingKeeps(items, fronts, items[call.id], call.patch, r);
    if Patched(items, fronts, items[call.id], call.patch, r).Ok? {
      PatchToResolved(items, fronts, items[call.id], call.patch, r);
      assert call.id in Step(items, fronts, call, r).0;
    }
  }

  lemma TrimOfWord(word: string)
    requires word != "" && !Text.IsSpace(word[0]) && !Text.IsSpace(word[|word| - 1])
    ensures Text.Trim(word) == word
  {
  }

  const JUST_RESOLVED := Patch(None, None, false, None, false, None, None, false, Some(Resolved), None, false, None, "", false)

  /** Two calls reach a map with an unknown resolved and never answered. */
  lemma UpdateCanForget(fronts: Fronts, r: Reading)
    ensures var made, marked := Call.Create(1, Unknown, "who", None, None, "", 0, None), Update(1, JUST_RESOLVED, 0);
            var items := Run(map[], [Event(made, fronts), Event(marked, fronts)], r);
            1 in items && items[1].type_ == Unknown && items[1].status == Resolved && items[1].answer == ""
  {
    hide Text.Trim;
    TrimOfWord("who");
    var made, marked := Call.Create(1, Unknown, "who", None, None, "", 0, None), Update(1, JUST_RESOLVED, 0);
    var events := [Event(made, fronts), Event(marked, fronts)];
    var fog := Item(1, Unknown, None, None, "who", Active, "", 0, false, "", None, "", None, r.fingerprint("who"), None);
    assert events[..1][..0] == [] && events[..1][0] == events[0];
    assert CreatedByHand(map[], fronts, made, r) == (map[1 := fog], Done);
    assert Run(map[], events[..1], r) == map[1 := fog];
    assert Updated(map[1 := fog], fronts, 1, JUST_RESOLVED, 0, r).0 == map[1 := fog.(status := Resolved, resolvedAt := Some(0))];
  }
}
