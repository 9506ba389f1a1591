/** The map as the program changes it: a row read, changed field by field, and written back. */
module ItemsDesk {
  import opened Common
  import opened Items
  import Text

  class Desk {
    const reading: Reading
    var items: ItemMap

    constructor (r: Reading)
      ensures reading == r && items == map[]
    {
      reading := r;
      items := map[];
    }

    method Insert(item: Item) returns (answer: Answer)
      modifies this
      ensures (items, answer) == Inserted(old(items), item)
    {
      if item.id in items || Taken(items, item) {
        return Refused(Duplicate);
      }
      items := items[item.id := item];
      return Done;
    }

    method Store(item: Item, now: int) returns (answer: Answer)
      modifies this
      ensures (items, answer) == Stored(old(items), item, now)
    {
      if Taken(items, item) {
        return Refused(Duplicate);
      }
      var left: Option<int> := None;
      if OffMap(item.status) {
        left := if item.resolvedAt.Some? then item.resolvedAt else Some(now);
      }
      items := items[item.id := item.(resolvedAt := left)];
      return Done;
    }

    /** The item where it is to stand, or why it may not stand there. */
    method Place(item: Item, fronts: Fronts, frontId: Option<Id>, objectiveId: Option<Id>)
      returns (r: Result<Item, Error>)
      ensures r == Placed(items, fronts, item, frontId, objectiveId)
    {
      var front := frontId;
      if front.Some? {
        if front.value !in fronts {
          return Err(NotFound);
        }
        if !fronts[front.value].active {
          return Err(FrontWithdrawn);
        }
      }
      if objectiveId.Some? {
        if item.type_ == Objective {
          return Err(UnderObjective);
        }
        if objectiveId.value !in items {
          return Err(NotFound);
        }
        var objective := items[objectiveId.value];
        if objective.type_ != Objective {
          return Err(NotObjective);
        }
        if front.None? {
          front := objective.frontId;
        }
      }
      return Ok(item.(frontId := front, objectiveId := objectiveId));
    }

    method Create(call: Call, fronts: Fronts) returns (answer: Answer)
      requires call.Create?
      modifies this
      ensures (items, answer) == Step(old(items), fronts, call, reading)
    {
      hide Text.Trim, Placed, Fielded, Inserted;
      var line := CleanText(call.text);
      if line.Err? {
        return Refused(line.error);
      }
      var item := Item(call.id, call.type_, None, None, line.value, Active, "", 0, false, "", None, "", call.dueAt,
                       reading.fingerprint(line.value), None);
      var placed := Place(item, fronts, call.frontId, call.objectiveId);
      if placed.Err? {
        return Refused(placed.error);
      }
      var fielded := Fielded(placed.value, call.kind, call.strength, true);
      if fielded.Err? {
        return Refused(fielded.error);
      }
      answer := Insert(fielded.value);
    }

    method EditPlace(item: Item, fronts: Fronts, p: Patch) returns (r: Result<Item, Error>)
      ensures r == Moved(items, fronts, item, p)
    {
      var front, objective, edited := item.frontId, item.objectiveId, p.text.Some?;
      if p.frontId.Some? {
        front, edited := p.frontId, true;
      }
      if p.clearFront {
        front, edited := None, true;
      }
      if p.objectiveId.Some? {
        objective, edited := p.objectiveId, true;
      }
      if p.clearObjective {
        objective, edited := None, true;
      }
      if !edited {
        return Ok(item);
      }
      r := Place(item, fronts, front, objective);
    }

    method Update(id: Id, p: Patch, fronts: Fronts, now: int) returns (answer: Answer)
      modifies this
      ensures (items, answer) == Step(old(items), fronts, Call.Update(id, p, now), reading)
    {
      hide Reworded, Moved, Refielded, Redated, Recosted, Restated, Stored;
      if id !in items {
        return Refused(NotFound);
      }
      var edit := Reworded(items[id], p, reading);
      if edit.Err? {
        return Refused(edit.error);
      }
      edit := EditPlace(edit.value, fronts, p);
      if edit.Err? {
        return Refused(edit.error);
      }
      edit := EditFields(edit.value, p);
      if edit.Err? {
        return Refused(edit.error);
      }
      edit := Redated(edit.value, p);
      if edit.Err? {
        return Refused(edit.error);
      }
      edit := Recosted(edit.value, fronts, p, reading);
      if edit.Err? {
        return Refused(edit.error);
      }
      edit := EditStatus(edit.value, p);
      if edit.Err? {
        return Refused(edit.error);
      }
      answer := Store(edit.value, now);
    }

    method Lift(id: Id, answer: string, now: int, fronts: Fronts) returns (done: Answer)
      modifies this
      ensures (items, done) == Step(old(items), fronts, Call.Lift(id, answer, now), reading)
    {
      hide Text.Trim, Stored;
      var found := Text.Trim(answer);
      if found == "" {
        return Refused(NoAnswer);
      }
      if id !in items {
        return Refused(NotFound);
      }
      var item := items[id];
      if item.type_ != Unknown {
        return Refused(NotUnknown);
      }
      if item.status == Proposed {
        item := item.(status := Active);
      }
      if !MayBecome(item, Resolved) {
        return Refused(BadTransition);
      }
      item := item.(status := Resolved, answer := found);
      done := Store(item, now);
    }

    method SendRecon(id: Id, now: int, fronts: Fronts) returns (answer: Answer)
      modifies this
      ensures (items, answer) == Step(old(items), fronts, Call.SendRecon(id, now), reading)
    {
      hide Stored;
      if id !in items {
        return Refused(NotFound);
      }
      var item := items[id];
      if item.type_ != Unknown {
        return Refused(NotUnknown);
      }
      if !item.status.Live() {
        return Refused(OffTheMap);
      }
      if item.status == Proposed {
        answer := Store(item.(status := Active), now);
        return;
      }
      return Done;
    }

    /** Stores the proposals read out of one answer; what is on the map already is passed over. */
    method Extract(objectives: seq<Wire>, obstacles: seq<Wire>, unknowns: seq<Wire>, listed: seq<Id>, fronts: Fronts)
      modifies this
      ensures items == Step(old(items), fronts, Call.Extract(objectives, obstacles, unknowns, listed), reading).0
    {
      hide CandidatesOf, ProposalOf, Inserted;
      var active := KeepActive(listed);
      var candidates := Parsed(objectives, obstacles, unknowns);
      var start := items;
      var newObjectives: NewObjectives := map[];
      for k := 0 to |candidates|
        invariant (items, newObjectives) == Extracted(start, candidates[..k], active, reading)
      {
        assert candidates[..k + 1][..k] == candidates[..k];
        var item := ProposalOf(start, candidates[k], active, newObjectives, reading);
        var answer := Insert(item);
        if answer != Done {
          continue;
        }
        if candidates[k].type_ == Objective {
          newObjectives := newObjectives[item.fingerprint := candidates[k].id];
        }
      }
      assert candidates[..|candidates|] == candidates;
    }

    method KeepActive(listed: seq<Id>) returns (active: seq<Id>)
      ensures active == ActiveObjectives(items, listed)
    {
      active := [];
      for k := 0 to |listed|
        invariant active == ActiveObjectives(items, listed[..k])
      {
        assert listed[..k + 1][..k] == listed[..k];
        var id := listed[k];
        if id in items && items[id].type_ == Objective && items[id].status == Active {
          active := active + [id];
        }
      }
      assert listed[..|listed|] == listed;
    }
  }

  method EditFields(item: Item, p: Patch) returns (r: Result<Item, Error>)
    ensures r == Refielded(item, p)
  {
    if p.kind.None? && p.strength.None? && !p.confirmStrength {
      return Ok(item);
    }
    if item.type_ != Obstacle {
      return Err(NotObstacle);
    }
    var kind, strength, confirmed := item.kind, item.strength, item.confirmed;
    if p.kind.Some? {
      kind := p.kind.value;
    }
    if p.strength.Some? {
      strength, confirmed := p.strength.value, true;
    }
    if p.confirmStrength {
      confirmed := true;
    }
    r := Fielded(item, kind, strength, confirmed);
  }

  method EditStatus(item: Item, p: Patch) returns (r: Result<Item, Error>)
    ensures r == Restated(item, p)
  {
    var to := item.status;
    if p.status.Some? {
      to := p.status.value;
    } else if (Moves(p) || Refields(p) || Redates(p) || Recosts(p)) && item.status == Proposed {
      to := Active;
    }
    if to == item.status {
      return Ok(item);
    }
    if !MayBecome(item, to) {
      return Err(BadTransition);
    }
    return Ok(item.(status := to));
  }
}
