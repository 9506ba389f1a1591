/** What each call on the open loops answers and writes, said from the row before it. */
module CommitmentsEffects {
  import opened Common
  import opened Commitments
  import L = CommitmentsLaws
  import Text

  predicate IsLive(status: Status) {
    status == Proposed || status == Open
  }

  /** Some other live loop says the same. */
  ghost predicate SaidAlready(t: Table, id: Id, fingerprint: string) {
    exists other :: other in t && other != id && IsLive(t[other].status) && t[other].fingerprint == fingerprint
  }

  lemma TakenIs(t: Table, c: Commitment)
    ensures Taken(t, c) <==> IsLive(c.status) && SaidAlready(t, c.id, c.fingerprint)
  {
    if IsLive(c.status) && SaidAlready(t, c.id, c.fingerprint) {
      var other :| other in t && other != c.id && IsLive(t[other].status) && t[other].fingerprint == c.fingerprint;
      assert SameLive(t[other], c);
    }
    if Taken(t, c) {
      var id :| id in t && id != c.id && SameLive(t[id], c);
      assert IsLive(t[id].status);
    }
  }

  predicate FitText(text: string) {
    1 <= |Text.Trim(text)| <= 240
  }

  function KindAsked(kind: Kind): Kind {
    match kind
    case Recon => Recon
    case _ => Plain
  }

  // ---------- Adding ----------

  predicate RowAs(c: Commitment, call: Call, status: Status, f: string -> string)
    requires call.Create? || call.Propose?
  {
    && c.id == call.id && c.text == Text.Trim(call.text) && c.fingerprint == f(c.text) && c.kind == KindAsked(call.kind)
    && c.target == call.target && c.dueAt == call.dueAt && c.status == status && c.updatedAt == call.now
    && c.resolvedAt == None
  }

  /** A proposal is added exactly when its text fits and neither its name nor what it says is taken. */
  lemma ProposeIs(t: Table, call: Call, f: string -> string)
    requires call.Propose?
    ensures var (after, answer) := Step(t, call, f);
            if !FitText(call.text) then after == t && answer == Refused(BadText)
            else if call.id in t || SaidAlready(t, call.id, f(Text.Trim(call.text))) then
              after == t && answer == Refused(Duplicate)
            else
              && answer == Is(call.id) && call.id in after && after == t[call.id := after[call.id]]
              && RowAs(after[call.id], call, Proposed, f)
  {
    hide Text.Trim, SaidAlready, Taken;
    TakenIs(t, New(call.id, call.text, call.dueAt, call.kind, call.target, Proposed, call.now, f));
  }

  /** A loop tracked anew is open; one that is live already is not written again, except that a proposal found is opened now.
      `TrackingTwice` says when it is found. */
  lemma CreateIs(t: Table, call: Call, f: string -> string)
    requires L.Sound(t) && call.Create?
    ensures var (after, answer) := Step(t, call, f);
            var said := f(Text.Trim(call.text));
            if !FitText(call.text) then after == t && answer == Refused(BadText)
            else if call.id !in t && !SaidAlready(t, call.id, said) then
              && answer == Is(call.id) && call.id in after && after == t[call.id := after[call.id]]
              && RowAs(after[call.id], call, Open, f)
            else if answer.Is? then
              && answer.id in t && IsLive(t[answer.id].status) && t[answer.id].fingerprint == said
              && after == (if t[answer.id].status == Open then t
                           else t[answer.id := t[answer.id].(status := Open, updatedAt := call.now, resolvedAt := None)])
            else after == t && answer == Refused(Duplicate)
  {
    hide Text.Trim, SaidAlready, Taken, FindLive, L.Sound;
    var c := New(call.id, call.text, call.dueAt, call.kind, call.target, Open, call.now, f);
    TakenIs(t, c);
    var found := FindLive(t, call.page, c.fingerprint);
    if found.Some? && t[found.value].status == Proposed {
      L.RowIsKept(t, found.value);
      FreeAlready(t, t[found.value], t[found.value].(status := Open, updatedAt := call.now, resolvedAt := None));
    }
  }

  /** What a live row says is said by no other live row, so it may be written live again. */
  lemma FreeAlready(t: Table, was: Commitment, c: Commitment)
    requires L.Sound(t) && was.id in t && t[was.id] == was && IsLive(was.status)
    requires c.id == was.id && c.fingerprint == was.fingerprint
    ensures !Taken(t, c)
  {
    forall id | id in t && id != c.id ensures !SameLive(t[id], c) {
      assert !SameLive(t[id], t[was.id]);
    }
  }

  // ---------- Moving ----------

  /** A proposal is accepted or dropped; an open loop done, dropped or left stale; a stale one opened, done or dropped; a done
      or dropped one only opened. */
  predicate MayMove(from: Status, to: Status) {
    || (from == Proposed && (to == Open || to == Dropped))
    || (from == Open && (to == Done || to == Dropped || to == Stale))
    || (from == Stale && (to == Open || to == Done || to == Dropped))
    || ((from == Done || from == Dropped) && to == Open)
  }

  /** A status is set where the move is one there is and no other live loop says the same as one brought back: the row is
      touched now, and resolved now exactly when it is done or dropped.  Setting the status there is changes nothing. */
  lemma SetStatusIs(t: Table, id: Id, to: Status, now: int, f: string -> string)
    requires id in t ==> t[id].id == id
    ensures var (after, answer) := Step(t, Call.SetStatus(id, to, now), f);
            if id !in t then after == t && answer == Refused(NotFound)
            else if t[id].status == to then after == t && answer == Is(id)
            else if !MayMove(t[id].status, to) then after == t && answer == Refused(BadTransition)
            else if IsLive(to) && SaidAlready(t, id, t[id].fingerprint) then after == t && answer == Refused(Duplicate)
            else
              && answer == Is(id)
              && after == t[id := t[id].(
                   status := to, updatedAt := now, resolvedAt := if to == Done || to == Dropped then Some(now) else None)]
  {
    hide SaidAlready, Taken;
    if id in t {
      TakenIs(t, t[id].(status := to, updatedAt := now, resolvedAt := if Resolves(to) then Some(now) else None));
    }
  }

  // ---------- Editing ----------

  /** An edit needs words and a loop there is, and, where that is live, that no other live loop says the new words: then the row
      has the words and the date, is touched now, and a proposal is open. */
  lemma EditIs(t: Table, id: Id, text: string, dueAt: Option<int>, now: int, f: string -> string)
    requires L.Sound(t)
    ensures var (after, answer) := Step(t, Call.Edit(id, text, dueAt, now), f);
            if Text.Trim(text) == "" then after == t && answer == Refused(BadText)
            else if id !in t then after == t && answer == Refused(NotFound)
            else if IsLive(t[id].status) && SaidAlready(t, id, f(Text.Trim(text))) then after == t && answer == Refused(Duplicate)
            else
              && answer == Is(id)
              && after == t[id := t[id].(
                   text := Text.Trim(text), fingerprint := f(Text.Trim(text)), dueAt := dueAt, updatedAt := now,
                   status := if t[id].status == Proposed then Open else t[id].status,
                   resolvedAt := if t[id].status == Proposed then None else t[id].resolvedAt)]
  {
    hide Text.Trim, SaidAlready, Taken, L.Sound;
    if id in t && Text.Trim(text) != "" {
      L.RowIsKept(t, id);
      var c := t[id].(text := Text.Trim(text), fingerprint := f(Text.Trim(text)), dueAt := dueAt, updatedAt := now);
      TakenIs(t, c);
      if !Taken(t, c) && c.status == Proposed {
        L.EditedStillFree(t, c, c.(status := Open, updatedAt := now, resolvedAt := None));
        assert t[id := c][id] == c;
      }
    }
  }

  /** An order is aimed, or at nothing, and of the kind asked, plain where none is; nothing else of it changes but when it was
      touched. */
  lemma AimIs(t: Table, id: Id, target: Option<Id>, kind: Kind, now: int, f: string -> string)
    ensures var (after, answer) := Step(t, Call.SetTarget(id, target, kind, now), f);
            if id !in t then after == t && answer == Refused(NotFound)
            else after == t[id := t[id].(target := target, kind := KindAsked(kind), updatedAt := now)] && answer == Is(id)
  {
  }

  /** Open loops last touched before the cutoff are stale afterwards, nothing else of them changes, and they are the ones
      answered; every other loop is as it was. */
  lemma StaleIs(t: Table, cutoff: int, f: string -> string)
    ensures var (after, answer) := Step(t, Call.MarkStale(cutoff), f);
            && after.Keys == t.Keys && answer.Moved?
            && (forall id :: id in answer.ids <==> id in t && t[id].status == Open && t[id].updatedAt < cutoff)
            && (forall id :: id in t ==> after[id] == if id in answer.ids then t[id].(status := Stale) else t[id])
  {
  }

  // ---------- The listing ----------

  /** Of two rows that may stand so, the earlier is a proposal if the later is one; of two alike in that, it is due no later,
      undated ones last; and of two due alike it was touched no earlier. */
  predicate MayPrecede(a: Commitment, b: Commitment) {
    && (b.status == Proposed ==> a.status == Proposed)
    && ((a.status == Proposed <==> b.status == Proposed) ==>
          && (b.dueAt.Some? ==> a.dueAt.Some? && a.dueAt.value <= b.dueAt.value)
          && (a.dueAt == b.dueAt ==> a.updatedAt >= b.updatedAt))
  }

  lemma PrecedesIff(a: Commitment, b: Commitment)
    ensures MayPrecede(a, b) <==> !Ahead(b, a)
  {
  }

  /** The listing holds live rows, each once, in order, all there are or 500 of them, and no row left out had to come before
      one listed. */
  lemma ListIs(t: Table, page: seq<Id>)
    requires IsPage(t, page)
    ensures forall k :: 0 <= k < |page| ==> page[k] in t && IsLive(t[page[k]].status)
    ensures forall i, j :: 0 <= i < j < |page| ==> page[i] != page[j] && MayPrecede(t[page[i]], t[page[j]])
    ensures |page| <= 500
    ensures forall id :: id in t && IsLive(t[id].status) && id !in page ==>
              |page| == 500 && forall k :: 0 <= k < |page| ==> MayPrecede(t[page[k]], t[id])
  {
    hide Ahead, MayPrecede;
    forall a, b ensures MayPrecede(a, b) <==> !Ahead(b, a) {
      PrecedesIff(a, b);
    }
    forall k | 0 <= k < |page| ensures page[k] in LiveIds(t) {
      assert page[k] in page;
    }
    if |page| < 500 {
      AllListed(t, page);
    }
    forall id | id in t && IsLive(t[id].status) ensures id in LiveIds(t) {
    }
  }

  lemma AllListed(t: Table, page: seq<Id>)
    requires IsPage(t, page) && |page| < 500
    ensures forall id :: id in LiveIds(t) ==> id in page
  {
    var listed := L.Members(page);
    L.DistinctCount(page);
    forall id | id in LiveIds(t) && id !in page ensures false {
      L.NoMore(listed + {id}, LiveIds(t));
    }
  }
}
