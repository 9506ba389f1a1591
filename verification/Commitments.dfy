/** Open loops: things promised, proposed by the room or typed by hand, and how they come to be done.  Fingerprinting of
    text is given; identifiers and moments come with the call. */
module Commitments {
  import opened Common
  import opened Sequences
  import Text

  type Id = nat

  datatype Status = Proposed | Open | Done | Dropped | Stale
  {
    predicate Live() {
      this == Proposed || this == Open
    }
  }

  datatype Kind = NoKind | Plain | Recon

  datatype Commitment = Commitment(
    id: Id, text: string, kind: Kind, target: Option<Id>, status: Status, dueAt: Option<int>, fingerprint: string,
    updatedAt: int, resolvedAt: Option<int>)

  type Table = map<Id, Commitment>

  datatype Error = NotFound | Duplicate | BadText | BadTransition

  datatype Answer = Is(id: Id) | Moved(ids: set<Id>) | Refused(error: Error)

  /** `page` is what the listing of live rows returned; `IsPage` says what that can be. */
  datatype Call =
    | Create(id: Id, text: string, dueAt: Option<int>, kind: Kind, target: Option<Id>, page: seq<Id>, now: int)
    | Propose(id: Id, text: string, dueAt: Option<int>, kind: Kind, target: Option<Id>, now: int)
    | SetStatus(id: Id, to: Status, now: int)
    | Edit(id: Id, text: string, dueAt: Option<int>, now: int)
    | SetTarget(id: Id, target: Option<Id>, kind: Kind, now: int)
    | MarkStale(cutoff: int)

  const MAX_TEXT := 240
  const PAGE := 500

  // ---------- The table ----------

  predicate SameLive(a: Commitment, b: Commitment) {
    a.status.Live() && b.status.Live() && a.fingerprint == b.fingerprint
  }

  predicate Taken(t: Table, c: Commitment) {
    exists id :: id in t && id != c.id && SameLive(t[id], c)
  }

  function Inserted(t: Table, c: Commitment): (Table, Answer) {
    if c.id in t || Taken(t, c) then (t, Refused(Duplicate)) else (t[c.id := c], Is(c.id))
  }

  /** A write that the index on live fingerprints may turn down. */
  function Written(t: Table, c: Commitment): (Table, Answer) {
    if Taken(t, c) then (t, Refused(Duplicate)) else (t[c.id := c], Is(c.id))
  }

  predicate Resolves(status: Status) {
    status == Done || status == Dropped
  }

  /** The moment a loop is resolved is stamped afresh each time and cleared when it comes back. */
  function Restatused(t: Table, id: Id, to: Status, now: int): (Table, Answer) {
    if id !in t then (t, Refused(NotFound))
    else Written(t, t[id].(status := to, updatedAt := now, resolvedAt := if Resolves(to) then Some(now) else None))
  }

  // ---------- The listing ----------

  function LiveIds(t: Table): set<Id> {
    set id | id in t && t[id].status.Live()
  }

  /** Proposals before open loops, then by due date with the undated last, then the latest touched. */
  predicate Ahead(a: Commitment, b: Commitment) {
    if (a.status == Proposed) != (b.status == Proposed) then a.status == Proposed
    else if a.dueAt != b.dueAt then a.dueAt.Some? && (b.dueAt.None? || a.dueAt.value < b.dueAt.value)
    else a.updatedAt > b.updatedAt
  }

  predicate Earliest(t: Table, left: set<Id>, id: Id) {
    id in left && id in t && forall other :: other in left && other in t ==> !Ahead(t[other], t[id])
  }

  predicate InOrder(t: Table, ids: seq<Id>) {
    && Distinct(ids)
    && (forall id :: id in ids ==> id in t)
    && forall i, j :: 0 <= i < j < |ids| ==> !Ahead(t[ids[j]], t[ids[i]])
  }

  /** What the listing can return: live rows in order, all of them or the first `PAGE`; rows that tie come as the database
      likes. */
  ghost predicate IsPage(t: Table, page: seq<Id>) {
    && InOrder(t, page)
    && (forall id :: id in page ==> id in LiveIds(t))
    && |page| == (if |LiveIds(t)| <= PAGE then |LiveIds(t)| else PAGE)
    && forall id, k :: id in LiveIds(t) && id !in page && 0 <= k < |page| ==> !Ahead(t[id], t[page[k]])
  }

  lemma {:induction false} EarliestThere(t: Table, left: set<Id>) returns (m: Id)
    requires left != {} && left <= t.Keys
    ensures Earliest(t, left, m)
    decreases |left|
  {
    m :| m in left;
    if left != {m} {
      var other := EarliestThere(t, left - {m});
      if Ahead(t[other], t[m]) {
        m := other;
      }
    }
  }

  /** Part of the live rows listed, the rest not ahead of any of them. */
  ghost predicate Listed(t: Table, page: seq<Id>, left: set<Id>) {
    && InOrder(t, page)
    && (forall id :: id in LiveIds(t) <==> id in left || id in page)
    && (forall id :: id in page ==> id !in left)
    && |page| + |left| == |LiveIds(t)|
    && forall id, k :: id in left && 0 <= k < |page| ==> !Ahead(t[id], t[page[k]])
  }

  lemma ListedOneMore(t: Table, page: seq<Id>, left: set<Id>, id: Id)
    requires Listed(t, page, left) && Earliest(t, left, id)
    ensures Listed(t, page + [id], left - {id}) && |left - {id}| == |left| - 1
  {
    hide Ahead;
    var more := page + [id];
    forall other | other in left - {id}
      ensures forall k :: 0 <= k < |more| ==> !Ahead(t[other], t[more[k]])
    {
      assert other in LiveIds(t);
    }
  }

  lemma ListedIsPage(t: Table, page: seq<Id>, left: set<Id>)
    requires Listed(t, page, left) && |page| <= PAGE && (|page| == PAGE || left == {})
    ensures IsPage(t, page)
  {
    hide Ahead;
  }

  lemma {:induction false} SomePageFrom(t: Table, page: seq<Id>, left: set<Id>) returns (whole: seq<Id>)
    requires Listed(t, page, left) && |page| <= PAGE
    ensures IsPage(t, whole)
    decreases |left|
  {
    if |page| == PAGE || left == {} {
      ListedIsPage(t, page, left);
      whole := page;
    } else {
      var id := EarliestThere(t, left);
      ListedOneMore(t, page, left, id);
      whole := SomePageFrom(t, page + [id], left - {id});
    }
  }

  lemma NothingListed(t: Table)
    ensures Listed(t, [], LiveIds(t))
  {
  }

  /** There is always something the listing can return. */
  lemma SomePage(t: Table) returns (page: seq<Id>)
    ensures IsPage(t, page)
  {
    page := SomePageFrom(t, [], LiveIds(t));
  }

  // ---------- The operations ----------

  function WithKind(kind: Kind): Kind {
    if kind == NoKind then Plain else kind
  }

  predicate ShortText(text: string) {
    1 <= |Text.Trim(text)| <= MAX_TEXT
  }

  function New(id: Id, text: string, dueAt: Option<int>, kind: Kind, target: Option<Id>, status: Status, now: int,
               fingerprint: string -> string): Commitment {
    var line := Text.Trim(text);
    Commitment(id, line, WithKind(kind), target, status, dueAt, fingerprint(line), now, None)
  }

  /** The first live row on the page that says the same. */
  function FindLive(t: Table, page: seq<Id>, fingerprint: string): (found: Option<Id>)
    ensures found.Some? ==> found.value in page && found.value in t
                            && t[found.value].status.Live() && t[found.value].fingerprint == fingerprint
  {
    if page == [] then None
    else if page[0] in t && t[page[0]].status.Live() && t[page[0]].fingerprint == fingerprint then Some(page[0])
    else FindLive(t, page[1..], fingerprint)
  }

  /** Tracking what is tracked already gives the row there is; if that was only proposed, it is accepted. */
  function Created(t: Table, call: Call, fingerprint: string -> string): (Table, Answer)
    requires call.Create?
  {
    if !ShortText(call.text) then (t, Refused(BadText))
    else
      var c := New(call.id, call.text, call.dueAt, call.kind, call.target, Open, call.now, fingerprint);
      if Inserted(t, c).1 != Refused(Duplicate) then Inserted(t, c)
      else
        var found := FindLive(t, call.page, c.fingerprint);
        if found.None? then (t, Refused(Duplicate))
        else if t[found.value].status == Proposed then Restatused(t, found.value, Open, call.now)
        else (t, Is(found.value))
  }

  function Suggested(t: Table, call: Call, fingerprint: string -> string): (Table, Answer)
    requires call.Propose?
  {
    if !ShortText(call.text) then (t, Refused(BadText))
    else Inserted(t, New(call.id, call.text, call.dueAt, call.kind, call.target, Proposed, call.now, fingerprint))
  }

  predicate Allowed(from: Status, to: Status) {
    match from
    case Proposed => to == Open || to == Dropped
    case Open => to == Done || to == Dropped || to == Stale
    case Stale => to == Open || to == Done || to == Dropped
    case Done | Dropped => to == Open
  }

  function StatusSet(t: Table, id: Id, to: Status, now: int): (Table, Answer) {
    if id !in t then (t, Refused(NotFound))
    else if t[id].status == to then (t, Is(id))
    else if !Allowed(t[id].status, to) then (t, Refused(BadTransition))
    else Restatused(t, id, to, now)
  }

  /** Rewording a proposal accepts it. */
  function Edited(t: Table, id: Id, text: string, dueAt: Option<int>, now: int, fingerprint: string -> string)
    : (Table, Answer)
  {
    var line := Text.Trim(text);
    if line == "" then (t, Refused(BadText))
    else if id !in t then (t, Refused(NotFound))
    else
      var (after, answer) := Written(t, t[id].(text := line, fingerprint := fingerprint(line), dueAt := dueAt,
                                               updatedAt := now));
      if answer.Refused? || t[id].status != Proposed then (after, answer) else Restatused(after, id, Open, now)
  }

  function Aimed(t: Table, id: Id, target: Option<Id>, kind: Kind, now: int): (Table, Answer) {
    if id !in t then (t, Refused(NotFound))
    else (t[id := t[id].(target := target, kind := WithKind(kind), updatedAt := now)], Is(id))
  }

  predicate GoesStale(c: Commitment, cutoff: int) {
    c.status == Open && c.updatedAt < cutoff
  }

  function Staled(t: Table, cutoff: int): (r: Table)
    ensures r.Keys == t.Keys
  {
    map id | id in t :: if GoesStale(t[id], cutoff) then t[id].(status := Stale) else t[id]
  }

  // ---------- One step ----------

  function Step(t: Table, call: Call, fingerprint: string -> string): (Table, Answer) {
    match call
    case Create(_, _, _, _, _, _, _) => Created(t, call, fingerprint)
    case Propose(_, _, _, _, _, _) => Suggested(t, call, fingerprint)
    case SetStatus(id, to, now) => StatusSet(t, id, to, now)
    case Edit(id, text, dueAt, now) => Edited(t, id, text, dueAt, now, fingerprint)
    case SetTarget(id, target, kind, now) => Aimed(t, id, target, kind, now)
    case MarkStale(cutoff) => (Staled(t, cutoff), Moved(set id | id in t && GoesStale(t[id], cutoff)))
  }

  function Run(t: Table, calls: seq<Call>, fingerprint: string -> string): Table {
    if calls == [] then t else Step(Run(t, calls[..|calls| - 1], fingerprint), calls[|calls| - 1], fingerprint).0
  }

  // ---------- The program ----------

  class Desk {
    const fingerprint: string -> string
    var rows: Table

    constructor (f: string -> string)
      ensures fingerprint == f && rows == map[]
    {
      fingerprint := f;
      rows := map[];
    }

    method Insert(c: Commitment) returns (answer: Answer)
      modifies this
      ensures (rows, answer) == Inserted(old(rows), c)
    {
      if c.id in rows || Taken(rows, c) {
        return Refused(Duplicate);
      }
      rows := rows[c.id := c];
      return Is(c.id);
    }

    method Write(c: Commitment) returns (answer: Answer)
      modifies this
      ensures (rows, answer) == Written(old(rows), c)
    {
      if Taken(rows, c) {
        return Refused(Duplicate);
      }
      rows := rows[c.id := c];
      return Is(c.id);
    }

    method WriteStatus(id: Id, to: Status, now: int) returns (answer: Answer)
      modifies this
      ensures (rows, answer) == Restatused(old(rows), id, to, now)
    {
      if id !in rows {
        return Refused(NotFound);
      }
      answer := Write(rows[id].(status := to, updatedAt := now, resolvedAt := if Resolves(to) then Some(now) else None));
    }

    method FindLiveRow(page: seq<Id>, said: string) returns (found: Option<Id>)
      ensures found == FindLive(rows, page, said)
    {
      for k := 0 to |page|
        invariant FindLive(rows, page[k..], said) == FindLive(rows, page, said)
      {
        assert page[k..][0] == page[k] && page[k..][1..] == page[k + 1..];
        if page[k] in rows && rows[page[k]].status.Live() && rows[page[k]].fingerprint == said {
          return Some(page[k]);
        }
      }
      return None;
    }

    /** One row after another is taken, always one with nothing left ahead of it. */
    method List() returns (page: seq<Id>)
      ensures IsPage(rows, page)
    {
      hide Listed, IsPage, Earliest;
      page := [];
      var left := LiveIds(rows);
      NothingListed(rows);
      while |page| < PAGE && left != {}
        invariant Listed(rows, page, left) && |page| <= PAGE
        decreases |left|
      {
        var id := TakeEarliest(left, page);
        ListedOneMore(rows, page, left, id);
        page := page + [id];
        left := left - {id};
      }
      ListedIsPage(rows, page, left);
    }

    method TakeEarliest(left: set<Id>, ghost page: seq<Id>) returns (id: Id)
      requires Listed(rows, page, left) && left != {}
      ensures Earliest(rows, left, id)
    {
      ghost var m := EarliestThere(rows, left);
      id :| id in left && Earliest(rows, left, id);
    }

    /** `page` is the listing read, or one there could have been where none was read. */
    method Create(id: Id, text: string, dueAt: Option<int>, kind: Kind, target: Option<Id>, now: int)
      returns (answer: Answer, ghost page: seq<Id>)
      modifies this
      ensures IsPage(old(rows), page)
      ensures (rows, answer) == Step(old(rows), Call.Create(id, text, dueAt, kind, target, page, now), fingerprint)
    {
      hide Text.Trim, FindLive, Taken, IsPage;
      page := SomePage(rows);
      if !ShortText(text) {
        return Refused(BadText), page;
      }
      var c := New(id, text, dueAt, kind, target, Open, now, fingerprint);
      answer := Insert(c);
      if answer != Refused(Duplicate) {
        return;
      }
      var live := List();
      page := live;
      var found := FindLiveRow(live, c.fingerprint);
      if found.None? {
        return Refused(Duplicate), page;
      }
      if rows[found.value].status == Proposed {
        answer := WriteStatus(found.value, Open, now);
        return;
      }
      return Is(found.value), page;
    }

    method Propose(call: Call) returns (answer: Answer)
      requires call.Propose?
      modifies this
      ensures (rows, answer) == Step(old(rows), call, fingerprint)
    {
      hide Text.Trim, Taken;
      if !ShortText(call.text) {
        return Refused(BadText);
      }
      answer := Insert(New(call.id, call.text, call.dueAt, call.kind, call.target, Proposed, call.now, fingerprint));
    }

    method SetStatus(id: Id, to: Status, now: int) returns (answer: Answer)
      modifies this
      ensures (rows, answer) == Step(old(rows), Call.SetStatus(id, to, now), fingerprint)
    {
      if id !in rows {
        return Refused(NotFound);
      }
      if rows[id].status == to {
        return Is(id);
      }
      if !Allowed(rows[id].status, to) {
        return Refused(BadTransition);
      }
      answer := WriteStatus(id, to, now);
    }

    method Edit(id: Id, text: string, dueAt: Option<int>, now: int) returns (answer: Answer)
      modifies this
      ensures (rows, answer) == Step(old(rows), Call.Edit(id, text, dueAt, now), fingerprint)
    {
      hide Text.Trim, Taken;
      var line := Text.Trim(text);
      if line == "" {
        return Refused(BadText);
      }
      if id !in rows {
        return Refused(NotFound);
      }
      var current := rows[id];
      answer := Write(current.(text := line, fingerprint := fingerprint(line), dueAt := dueAt, updatedAt := now));
      if answer.Refused? {
        return;
      }
      if current.status == Proposed {
        answer := WriteStatus(id, Open, now);
      }
    }

    method SetTarget(id: Id, target: Option<Id>, kind: Kind, now: int) returns (answer: Answer)
      modifies this
      ensures (rows, answer) == Step(old(rows), Call.SetTarget(id, target, kind, now), fingerprint)
    {
      if id !in rows {
        return Refused(NotFound);
      }
      rows := rows[id := rows[id].(target := target, kind := WithKind(kind), updatedAt := now)];
      return Is(id);
    }

    method MarkStale(cutoff: int) returns (answer: Answer)
      modifies this
      ensures (rows, answer) == Step(old(rows), Call.MarkStale(cutoff), fingerprint)
    {
      var moved := set id | id in rows && GoesStale(rows[id], cutoff);
      rows := map id | id in rows :: if id in moved then rows[id].(status := Stale) else rows[id];
      assert rows == Staled(old(rows), cutoff);
      return Moved(moved);
    }
  }
}
