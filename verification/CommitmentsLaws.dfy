/** What every run of the open loops keeps. */
module CommitmentsLaws {
  import opened Common
  import opened Commitments
  import opened Sequences
  import Text

  predicate WellKept(t: Table, id: Id)
    requires id in t
  {
    t[id].id == id && t[id].text != "" && (Resolves(t[id].status) <==> t[id].resolvedAt.Some?)
  }

  /** No two live loops say the same. */
  predicate SaidOnce(t: Table) {
    forall a, b :: a in t && b in t && a != b ==> !SameLive(t[a], t[b])
  }

  predicate Sound(t: Table) {
    (forall id :: id in t ==> WellKept(t, id)) && SaidOnce(t)
  }

  lemma WritingKeeps(t: Table, c: Commitment)
    requires Sound(t) && c.text != "" && (Resolves(c.status) <==> c.resolvedAt.Some?)
    ensures Sound(Written(t, c).0)
  {
    hide SameLive;
    if !Taken(t, c) {
      var after := t[c.id := c];
      forall id | id in after
        ensures WellKept(after, id)
      {
        assert id != c.id ==> WellKept(t, id);
      }
      forall a, b | a in after && b in after && a != b
        ensures !SameLive(after[a], after[b])
      {
        SameLiveBothWays(after[a], after[b]);
      }
    }
  }

  lemma SameLiveBothWays(a: Commitment, b: Commitment)
    ensures SameLive(a, b) == SameLive(b, a)
  {
  }

  lemma StalingKeeps(t: Table, cutoff: int)
    requires Sound(t)
    ensures Sound(Staled(t, cutoff))
  {
    var after := Staled(t, cutoff);
    forall id | id in after
      ensures WellKept(after, id)
    {
      assert WellKept(t, id);
    }
    forall a, b | a in after && b in after && a != b
      ensures !SameLive(after[a], after[b])
    {
      assert !SameLive(t[a], t[b]);
    }
  }

  lemma RowIsKept(t: Table, id: Id)
    requires Sound(t) && id in t
    ensures WellKept(t, id)
  {
  }

  lemma RestatusingKeeps(t: Table, id: Id, to: Status, now: int)
    requires Sound(t)
    ensures Sound(Restatused(t, id, to, now).0)
  {
    hide Written, Sound;
    if id in t {
      RowIsKept(t, id);
      WritingKeeps(t, t[id].(status := to, updatedAt := now, resolvedAt := if Resolves(to) then Some(now) else None));
    }
  }

  lemma AimingKeeps(t: Table, id: Id, target: Option<Id>, kind: Kind, now: int)
    requires Sound(t)
    ensures Sound(Aimed(t, id, target, kind, now).0)
  {
    if id in t {
      var after := Aimed(t, id, target, kind, now).0;
      forall other | other in after
        ensures WellKept(after, other)
      {
        assert WellKept(t, other);
      }
      forall a, b | a in after && b in after && a != b
        ensures !SameLive(after[a], after[b])
      {
        assert !SameLive(t[a], t[b]);
      }
    }
  }

  lemma EditingKeeps(t: Table, id: Id, text: string, dueAt: Option<int>, now: int, f: string -> string)
    requires Sound(t)
    ensures Sound(Edited(t, id, text, dueAt, now, f).0)
  {
    hide Written, Sound, Restatused, Text.Trim;
    var line := Text.Trim(text);
    if line != "" && id in t {
      RowIsKept(t, id);
      var c := t[id].(text := line, fingerprint := f(line), dueAt := dueAt, updatedAt := now);
      WritingKeeps(t, c);
      RestatusingKeeps(Written(t, c).0, id, Open, now);
    }
  }

  lemma StepKeeps(t: Table, call: Call, f: string -> string)
    requires Sound(t)
    ensures Sound(Step(t, call, f).0)
  {
    hide Sound, Text.Trim, Taken, FindLive, Restatused, Edited, Aimed, Staled;
    match call
    case Create(id, text, dueAt, kind, target, page, now) =>
      if ShortText(text) {
        var c := New(id, text, dueAt, kind, target, Open, now, f);
        WritingKeeps(t, c);
        var found := FindLive(t, page, c.fingerprint);
        if found.Some? {
          RestatusingKeeps(t, found.value, Open, now);
        }
      }
    case Propose(id, text, dueAt, kind, target, now) =>
      if ShortText(text) {
        WritingKeeps(t, New(id, text, dueAt, kind, target, Proposed, now, f));
      }
    case SetStatus(id, to, now) => RestatusingKeeps(t, id, to, now);
    case Edit(id, text, dueAt, now) => EditingKeeps(t, id, text, dueAt, now, f);
    case SetTarget(id, target, kind, now) => AimingKeeps(t, id, target, kind, now);
    case MarkStale(cutoff) => StalingKeeps(t, cutoff);
  }

  /** Over every run no two live loops say the same, and a loop has a moment of resolution exactly when it is done or
      dropped. */
  lemma {:induction false} RunKeeps(calls: seq<Call>, f: string -> string)
    ensures Sound(Run(map[], calls, f))
  {
    if calls != [] {
      hide Sound, Step;
      RunKeeps(calls[..|calls| - 1], f);
      StepKeeps(Run(map[], calls[..|calls| - 1], f), calls[|calls| - 1], f);
    }
  }

  // ---------- How a loop comes to be done ----------

  /** The moves one call can make. */
  predicate Moves(from: Status, to: Status) {
    to == from || Allowed(from, to)
  }

  lemma StatusMoves(t: Table, call: Call, f: string -> string, id: Id)
    requires Sound(t)
    ensures var after := Step(t, call, f).0;
            && (id in t ==> id in after && Moves(t[id].status, after[id].status))
            && (id !in t && id in after ==> after[id].status == if call.Create? then Open else Proposed)
  {
    hide Text.Trim, Taken, FindLive, Sound;
    if !call.MarkStale? && call.id in t {
      RowIsKept(t, call.id);
    }
    match call
    case Create(_, text, dueAt, kind, target, page, now) =>
      var found := FindLive(t, page, f(Text.Trim(text)));
      if found.Some? {
        RowIsKept(t, found.value);
      }
    case Edit(_, _, _, _) =>
    case _ =>
  }

  /** Before the k-th call the loop was open. */
  predicate OpenAt(calls: seq<Call>, f: string -> string, id: Id, k: nat)
    requires k < |calls|
  {
    var t := Run(map[], calls[..k], f);
    id in t && t[id].status == Open
  }

  ghost predicate WasOpen(calls: seq<Call>, f: string -> string, id: Id) {
    exists k :: 0 <= k < |calls| && OpenAt(calls, f, id, k)
  }

  /** Nothing gets into the record of what was finished without having been agreed to: over every run a loop is done, or
      stale, only after having been open. */
  lemma {:induction false} DoneOnlyOnceOpen(calls: seq<Call>, f: string -> string, id: Id)
    requires id in Run(map[], calls, f)
    requires Run(map[], calls, f)[id].status == Done || Run(map[], calls, f)[id].status == Stale
    ensures WasOpen(calls, f, id)
  {
    hide Sound, Step;
    var n := |calls| - 1;
    var before := Run(map[], calls[..n], f);
    RunKeeps(calls[..n], f);
    StatusMoves(before, calls[n], f, id);
    if before[id].status == Open {
      assert OpenAt(calls, f, id, n);
    } else {
      DoneOnlyOnceOpen(calls[..n], f, id);
      var k :| 0 <= k < n && OpenAt(calls[..n], f, id, k);
      assert calls[..n][..k] == calls[..k];
      assert OpenAt(calls, f, id, k);
    }
  }

  // ---------- Tracking the same thing twice ----------

  lemma {:induction false} FindsWhatIsThere(t: Table, page: seq<Id>, said: string)
    ensures FindLive(t, page, said).None?
            <==> forall id :: id in page && id in t ==> !(t[id].status.Live() && t[id].fingerprint == said)
  {
    if page != [] {
      FindsWhatIsThere(t, page[1..], said);
      assert page == [page[0]] + page[1..];
    }
  }

  /** Live rows that every listing shows before this one. */
  function AheadOf(t: Table, row: Id): set<Id>
    requires row in t
  {
    set id | id in LiveIds(t) && Ahead(t[id], t[row])
  }

  /** Live rows that some listing shows before this one: those ahead of it and those that tie with it. */
  function NotBehind(t: Table, row: Id): set<Id>
    requires row in t
  {
    set id | id in LiveIds(t) && id != row && !Ahead(t[row], t[id])
  }

  function Members(ids: seq<Id>): set<Id> {
    set id | id in ids
  }

  lemma {:induction false} DistinctCount(ids: seq<Id>)
    requires Distinct(ids)
    ensures |Members(ids)| == |ids|
  {
    if ids != [] {
      var n := |ids| - 1;
      DistinctCount(ids[..n]);
      assert ids == ids[..n] + [ids[n]];
      assert Members(ids) == Members(ids[..n]) + {ids[n]};
    }
  }

  lemma NoMore(a: set<Id>, b: set<Id>)
    requires a <= b
    ensures |a| <= |b|
  {
    assert b == a + (b - a);
  }

  lemma AheadAreBefore(t: Table, page: seq<Id>, k: nat)
    requires IsPage(t, page) && k < |page|
    ensures |AheadOf(t, page[k])| <= k
  {
    forall id | id in AheadOf(t, page[k])
      ensures id in Members(page[..k])
    {
      assert id in page;
      var j :| 0 <= j < |page| && page[j] == id;
      assert j < k;
      assert page[..k][j] == id;
    }
    NoMore(AheadOf(t, page[k]), Members(page[..k]));
    DistinctCount(page[..k]);
  }

  lemma MissingMeansFull(t: Table, page: seq<Id>, row: Id)
    requires IsPage(t, page) && row in LiveIds(t) && row !in page
    ensures |page| == PAGE && |NotBehind(t, row)| >= PAGE
  {
    hide Ahead;
    DistinctCount(page);
    NoMore(Members(page) + {row}, LiveIds(t));
    forall id | id in Members(page)
      ensures id in NotBehind(t, row)
    {
      var k :| 0 <= k < |page| && page[k] == id;
    }
    NoMore(Members(page), NotBehind(t, row));
  }

  /** A listing that shows the row wherever the database may, or hides it wherever the database may. */
  lemma {:induction false} PageFrom(t: Table, page: seq<Id>, left: set<Id>, row: Id, shows: bool) returns (whole: seq<Id>)
    requires Listed(t, page, left) && |page| <= PAGE && row in LiveIds(t)
    requires shows && row !in page ==> forall k :: 0 <= k < |page| ==> Ahead(t[page[k]], t[row])
    requires !shows && row in page ==> |NotBehind(t, row)| < PAGE
    ensures IsPage(t, whole)
    ensures shows && row !in whole ==> |AheadOf(t, row)| >= PAGE
    ensures !shows && row in whole ==> |NotBehind(t, row)| < PAGE
    decreases |left|
  {
    hide Ahead, IsPage;
    if |page| == PAGE || left == {} {
      ListedIsPage(t, page, left);
      whole := page;
      if shows && row !in page {
        AllAhead(t, page, row);
      }
    } else {
      var id := Favoured(t, left, row, shows);
      ListedOneMore(t, page, left, id);
      if !shows && id == row {
        NoneElseLeft(t, page, left, row);
      }
      whole := PageFrom(t, page + [id], left - {id}, row, shows);
    }
  }

  lemma AllAhead(t: Table, page: seq<Id>, row: Id)
    requires InOrder(t, page) && (forall id :: id in page ==> id in LiveIds(t)) && row in t
    requires forall k :: 0 <= k < |page| ==> Ahead(t[page[k]], t[row])
    ensures |AheadOf(t, row)| >= |page|
  {
    hide Ahead;
    DistinctCount(page);
    forall id | id in Members(page)
      ensures id in AheadOf(t, row)
    {
      var k :| 0 <= k < |page| && page[k] == id;
    }
    NoMore(Members(page), AheadOf(t, row));
  }

  /** One with nothing ahead of it: the row itself as soon as it may be, or only when it must be. */
  lemma Favoured(t: Table, left: set<Id>, row: Id, shows: bool) returns (id: Id)
    requires left != {} && left <= t.Keys && row in t
    ensures Earliest(t, left, id)
    ensures shows && row in left && id != row ==> Ahead(t[id], t[row])
    ensures !shows && id == row ==> forall other :: other in left && other != row ==> Ahead(t[row], t[other])
  {
    id := EarliestThere(t, left);
    if shows && Earliest(t, left, row) {
      id := row;
    } else if !shows && exists other :: other != row && Earliest(t, left, other) {
      id :| id != row && Earliest(t, left, id);
    } else if !shows && id == row {
      forall other | other in left && other != row
        ensures Ahead(t[row], t[other])
      {
        assert !Earliest(t, left, other);
      }
    }
  }

  lemma NoneElseLeft(t: Table, page: seq<Id>, left: set<Id>, row: Id)
    requires Listed(t, page, left) && row in left && |page| < PAGE && row in t
    requires forall other :: other in left && other != row ==> Ahead(t[row], t[other])
    ensures |NotBehind(t, row)| < PAGE
  {
    hide Ahead;
    DistinctCount(page);
    NoMore(NotBehind(t, row), Members(page));
  }

  lemma FewLive(t: Table, row: Id)
    requires row in LiveIds(t) && |LiveIds(t)| <= PAGE
    ensures |NotBehind(t, row)| < PAGE
  {
    NoMore(NotBehind(t, row) + {row}, LiveIds(t));
  }

  /** The call again, with another listing read. */
  function Reading(call: Call, page: seq<Id>): Call
    requires call.Create?
  {
    call.(page := page)
  }

  /** A creation that says what the live row says already. */
  predicate Repeats(t: Table, call: Call, f: string -> string, row: Id) {
    && call.Create? && ShortText(call.text) && call.id !in t
    && row in t && t[row].status.Live() && t[row].fingerprint == f(Text.Trim(call.text))
  }

  /** Tracking what is live already is either no error, and then no row is added, the one there is comes back and is open;
      or it is refused and changes nothing.  It is no error while fewer than 500 live rows are ahead of the row or tie with
      it, and refused once 500 are ahead. */
  lemma TrackingTwice(t: Table, call: Call, f: string -> string, row: Id)
    requires Sound(t) && Repeats(t, call, f, row) && IsPage(t, call.page)
    ensures var (after, answer) := Step(t, call, f);
            && (answer == Is(row)
                || (answer == Refused(Duplicate) && after == t))
            && (|NotBehind(t, row)| < PAGE ==> answer == Is(row))
            && (|AheadOf(t, row)| >= PAGE ==> answer == Refused(Duplicate))
            && after.Keys == t.Keys
            && (answer == Is(row) ==>
                  after[row].status == Open && forall id :: id in t && id != row ==> after[id] == t[id])
  {
    hide IsPage, NotBehind, AheadOf, Sound, Step, Ahead;
    TrackedIfShown(t, call, f, row);
    if row in call.page {
      var k :| 0 <= k < |call.page| && call.page[k] == row;
      AheadAreBefore(t, call.page, k);
      PageIsShort(t, call.page);
    } else {
      MissingMeansFull(t, call.page, row);
    }
  }

  lemma PageIsShort(t: Table, page: seq<Id>)
    requires IsPage(t, page)
    ensures |page| <= PAGE
  {
    hide InOrder;
  }

  lemma TrackedIfShown(t: Table, call: Call, f: string -> string, row: Id)
    requires Sound(t) && Repeats(t, call, f, row)
    ensures var (after, answer) := Step(t, call, f);
            && (answer == Is(row) <==> row in call.page)
            && (answer != Is(row) <==> answer == Refused(Duplicate) && after == t)
            && after.Keys == t.Keys
            && (row in call.page ==> after[row].status == Open && forall id :: id in t && id != row ==> after[id] == t[id])
  {
    hide Text.Trim, Sound;
    var c := New(call.id, call.text, call.dueAt, call.kind, call.target, Open, call.now, f);
    assert SameLive(t[row], c);
    assert Taken(t, c);
    FindsWhatIsThere(t, call.page, c.fingerprint);
    var found := FindLive(t, call.page, c.fingerprint);
    if found.Some? {
      OnlyRow(t, row, found.value);
      RowIsKept(t, row);
      NotTakenByOthers(t, row, t[row].(status := Open, updatedAt := call.now, resolvedAt := None));
    }
  }

  /** Exactly when: whatever the listing, fewer than 500 live rows are ahead of the row or tie with it; for some listing,
      fewer than 500 are ahead. */
  lemma TrackingTwiceIff(t: Table, call: Call, f: string -> string, row: Id)
    requires Sound(t) && Repeats(t, call, f, row)
    ensures (forall page :: IsPage(t, page) ==> Step(t, Reading(call, page), f).1 == Is(row)) <==> |NotBehind(t, row)| < PAGE
    ensures (exists page :: IsPage(t, page) && Step(t, Reading(call, page), f).1 == Is(row)) <==> |AheadOf(t, row)| < PAGE
  {
    hide IsPage, NotBehind, AheadOf, Sound, Step, Text.Trim, Ahead;
    forall page | IsPage(t, page)
      ensures |NotBehind(t, row)| < PAGE ==> Step(t, Reading(call, page), f).1 == Is(row)
      ensures |AheadOf(t, row)| >= PAGE ==> Step(t, Reading(call, page), f).1 != Is(row)
    {
      TrackingTwice(t, Reading(call, page), f, row);
    }
    NothingListed(t);
    hide Listed;
    var shown := PageFrom(t, [], LiveIds(t), row, true);
    var hidden := PageFrom(t, [], LiveIds(t), row, false);
    TrackedIfShown(t, Reading(call, shown), f, row);
    TrackedIfShown(t, Reading(call, hidden), f, row);
  }

  /** With at most 500 live rows tracking the same thing twice is never an error. */
  lemma SmallTablesTrack(t: Table, call: Call, f: string -> string, row: Id)
    requires Sound(t) && Repeats(t, call, f, row) && IsPage(t, call.page) && |LiveIds(t)| <= PAGE
    ensures Step(t, call, f).1 == Is(row)
  {
    hide Step, Sound, IsPage, NotBehind, AheadOf, Text.Trim, Ahead;
    FewLive(t, row);
    TrackingTwice(t, call, f, row);
  }

  // ---------- A table too long for its listing ----------

  /** One character each, none of them a space. */
  function Mark(i: nat): string
    requires i <= PAGE
  {
    [(0x4e00 + i) as char]
  }

  function Proposing(i: nat): Call
    requires i <= PAGE
  {
    Propose(i, Mark(i), None, Plain, None, i)
  }

  function Proposals(n: nat): seq<Call>
    requires n <= PAGE + 1
  {
    seq(n, i requires 0 <= i < n => Proposing(i))
  }

  function Marked(i: nat): Commitment
    requires i <= PAGE
  {
    Commitment(i, Mark(i), Plain, None, Proposed, None, Mark(i), i, None)
  }

  function Long(n: nat): Table
    requires n <= PAGE + 1
  {
    map i: nat | i < n :: Marked(i)
  }

  lemma MarkIsTrim(i: nat)
    requires i <= PAGE
    ensures Text.Trim(Mark(i)) == Mark(i)
  {
    assert !Text.IsSpace(Mark(i)[0]);
  }

  lemma MarkIsFree(n: nat)
    requires n <= PAGE
    ensures n !in Long(n) && !Taken(Long(n), Marked(n))
  {
    forall i: nat | i < n
      ensures Mark(i) != Mark(n)
    {
      assert Mark(i)[0] != Mark(n)[0];
    }
  }

  lemma OneProposal(n: nat, f: string -> string)
    requires n <= PAGE && f(Mark(n)) == Mark(n)
    ensures Step(Long(n), Proposing(n), f).0 == Long(n + 1)
  {
    hide Text.Trim, Taken, Mark;
    MarkIsTrim(n);
    MarkIsFree(n);
    assert |Mark(n)| == 1 by { MarkIsOne(n); }
    assert Step(Long(n), Proposing(n), f).0 == Long(n)[n := Marked(n)];
    assert Long(n + 1) == Long(n)[n := Marked(n)];
  }

  lemma MarkIsOne(n: nat)
    requires n <= PAGE
    ensures |Mark(n)| == 1
  {
  }

  lemma {:induction false} LongIsReached(n: nat, f: string -> string)
    requires n <= PAGE + 1 && forall s :: f(s) == s
    ensures Run(map[], Proposals(n), f) == Long(n)
  {
    hide Step, Mark, Marked;
    if n > 0 {
      LongIsReached(n - 1, f);
      assert Proposals(n)[..n - 1] == Proposals(n - 1);
      OneProposal(n - 1, f);
    }
  }

  lemma OldestHasAllAhead()
    ensures |AheadOf(Long(PAGE + 1), 0)| >= PAGE
  {
    var t := Long(PAGE + 1);
    var others := seq(PAGE, i requires 0 <= i < PAGE => i + 1);
    DistinctCount(others);
    forall id | id in Members(others)
      ensures id in AheadOf(t, 0)
    {
      var k :| 0 <= k < |others| && others[k] == id;
    }
    NoMore(Members(others), AheadOf(t, 0));
  }

  /** After 501 proposals the oldest is on no listing: tracking it again is refused, whatever the database returns. */
  lemma TrackingCanFail(f: string -> string, page: seq<Id>, now: int)
    requires forall s :: f(s) == s
    requires IsPage(Run(map[], Proposals(PAGE + 1), f), page)
    ensures var t := Run(map[], Proposals(PAGE + 1), f);
            && 0 in t && t[0].status == Proposed && t[0].text == Mark(0)
            && Step(t, Create(PAGE + 1, Mark(0), None, Plain, None, page, now), f) == (t, Refused(Duplicate))
  {
    hide Step, Run, AheadOf, IsPage, Text.Trim, Sound;
    RunKeeps(Proposals(PAGE + 1), f);
    LongIsReached(PAGE + 1, f);
    OldestHasAllAhead();
    MarkIsTrim(0);
    TrackingTwice(Long(PAGE + 1), Create(PAGE + 1, Mark(0), None, Plain, None, page, now), f, 0);
  }

  lemma OnlyRow(t: Table, a: Id, b: Id)
    requires Sound(t) && a in t && b in t && SameLive(t[a], t[b])
    ensures a == b
  {
  }

  lemma NotTakenByOthers(t: Table, row: Id, c: Commitment)
    requires Sound(t) && row in t && t[row].status.Live() && c.id == row && c.fingerprint == t[row].fingerprint
    ensures !Taken(t, c)
  {
    forall id | id in t && id != row
      ensures !SameLive(t[id], c)
    {
      assert !SameLive(t[id], t[row]);
    }
  }

  /** What was tracked is tracked: creating the same text again changes nothing and gives the same row, as long as fewer
      than 500 live rows are ahead of that row or tie with it. */
  lemma TrackingAgain(t: Table, first: Call, second: Call, f: string -> string)
    requires Sound(t) && first.Create? && second.Create? && Step(t, first, f).1.Is?
    requires Text.Trim(second.text) == Text.Trim(first.text)
    requires second.id !in Step(t, first, f).0 && IsPage(Step(t, first, f).0, second.page)
    requires Step(t, first, f).1.id in Step(t, first, f).0 ==> |NotBehind(Step(t, first, f).0, Step(t, first, f).1.id)| < PAGE
    ensures Step(Step(t, first, f).0, second, f) == Step(t, first, f)
  {
    hide Text.Trim, Sound, IsPage, NotBehind, AheadOf, Step;
    var (after, answer) := Step(t, first, f);
    StepKeeps(t, first, f);
    TrackedRow(t, first, f);
    TrackingTwice(after, second, f, answer.id);
    OpenStays(after, second, f, answer.id);
  }

  /** Finding an open row leaves it as it is. */
  lemma OpenStays(t: Table, call: Call, f: string -> string, row: Id)
    requires Sound(t) && Repeats(t, call, f, row) && t[row].status == Open && Step(t, call, f).1 == Is(row)
    ensures Step(t, call, f).0 == t
  {
    hide Text.Trim, Sound, FindLive;
    var c := New(call.id, call.text, call.dueAt, call.kind, call.target, Open, call.now, f);
    assert SameLive(t[row], c);
    assert Taken(t, c);
    var found := FindLive(t, call.page, c.fingerprint);
    if found.Some? {
      OnlyRow(t, row, found.value);
    }
  }

  /** The row a creation answers with is open and says what was asked. */
  lemma TrackedRow(t: Table, call: Call, f: string -> string)
    requires Sound(t) && call.Create? && Step(t, call, f).1.Is?
    ensures var (after, answer) := Step(t, call, f);
            answer.id in after && after[answer.id].status == Open
            && after[answer.id].fingerprint == f(Text.Trim(call.text)) && ShortText(call.text)
  {
    hide Text.Trim, Sound, Taken, FindLive;
    var found := FindLive(t, call.page, f(Text.Trim(call.text)));
    if found.Some? {
      RowIsKept(t, found.value);
    }
  }

  /** A row a creation or a proposal adds holds what was asked. */
  lemma NewRowIs(t: Table, call: Call, f: string -> string)
    requires Sound(t) && (call.Create? || call.Propose?)
    requires call.id !in t && call.id in Step(t, call, f).0
    ensures var c := Step(t, call, f).0[call.id];
            && c.text == Text.Trim(call.text) && c.fingerprint == f(c.text) && c.dueAt == call.dueAt
            && c.target == call.target && c.kind == (if call.kind == NoKind then Plain else call.kind)
            && c.updatedAt == call.now && c.resolvedAt.None? && 1 <= |c.text| <= MAX_TEXT
    ensures Step(t, call, f).1 == Is(call.id)
  {
    hide Text.Trim, Taken, FindLive, Sound;
    var line := Text.Trim(call.text);
    if call.Create? && FindLive(t, call.page, f(line)).Some? {
      RowIsKept(t, FindLive(t, call.page, f(line)).value);
    }
  }

  /** An edit is made whole or not at all, and an edited proposal is open. */
  lemma EditIsWhole(t: Table, id: Id, text: string, dueAt: Option<int>, now: int, f: string -> string)
    requires Sound(t)
    ensures var (after, answer) := Edited(t, id, text, dueAt, now, f);
            && (answer.Refused? ==> after == t)
            && (!answer.Refused? ==>
                  && id in t && answer == Is(id)
                  && after[id].text == Text.Trim(text) && after[id].dueAt == dueAt
                  && after[id].status == (if t[id].status == Proposed then Open else t[id].status)
                  && forall other :: other in t && other != id ==> other in after && after[other] == t[other])
  {
    hide Text.Trim, Sound;
    if id in t && Text.Trim(text) != "" {
      RowIsKept(t, id);
      var c := t[id].(text := Text.Trim(text), fingerprint := f(Text.Trim(text)), dueAt := dueAt, updatedAt := now);
      if !Taken(t, c) && t[id].status == Proposed {
        var after := Written(t, c).0;
        EditedStillFree(t, c, after[id].(status := Open, updatedAt := now, resolvedAt := None));
      }
    }
  }

  lemma EditedStillFree(t: Table, c: Commitment, d: Commitment)
    requires !Taken(t, c) && c.status.Live() && d.id == c.id && d.fingerprint == c.fingerprint
    ensures !Taken(t[c.id := c], d)
  {
    var after := t[c.id := c];
    forall id | id in after && id != d.id
      ensures !SameLive(after[id], d)
    {
      assert !SameLive(t[id], c);
    }
  }
}
