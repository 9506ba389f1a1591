/** What every run of the board keeps, and what happens when clocks are re-armed from several tabs at once. */
module BoardLaws {
  import opened Common
  import opened Clocks
  import opened Board
  import Text

  // ---------- What one call may do to the tasks there are ----------

  /** A task still as it was, except that an open one may have been resolved. */
  predicate Kept(was: Task, became: Task) {
    && became == was.(status := became.status, resolvedAt := became.resolvedAt)
    && (was.Resolved() ==> became == was)
  }

  predicate AllKept(a: seq<Task>, b: seq<Task>) {
    |a| <= |b| && forall i :: 0 <= i < |a| ==> Kept(a[i], b[i])
  }

  /** A resolved task has its moment; an open one has none, and its clock was within bounds when it was set. */
  predicate Proper(task: Task) {
    && MIN_MINUTES <= task.minutes <= MAX_MINUTES
    && (task.status == Open <==> task.resolvedAt.None?)
  }

  predicate AllProper(tasks: seq<Task>) {
    forall i :: 0 <= i < |tasks| ==> Proper(tasks[i])
  }

  /** Each task was numbered after the last one of its session. */
  predicate InSequence(tasks: seq<Task>) {
    forall i :: 0 <= i < |tasks| ==> NumberedNext(tasks, i)
  }

  predicate NumberedNext(tasks: seq<Task>, i: nat)
    requires i < |tasks|
  {
    tasks[i].number == NextNumber(tasks[..i], tasks[i].session)
  }

  predicate Good(t: Table) {
    AllProper(t.tasks) && InSequence(t.tasks)
  }

  predicate SameNames(a: seq<Task>, b: seq<Task>) {
    |a| == |b| && forall i :: 0 <= i < |a| ==> a[i].session == b[i].session && a[i].number == b[i].number
  }

  lemma {:induction false} NextNumberNeedsNames(a: seq<Task>, b: seq<Task>, session: Id)
    requires SameNames(a, b)
    ensures NextNumber(a, session) == NextNumber(b, session)
  {
    if a != [] {
      NextNumberNeedsNames(a[..|a| - 1], b[..|b| - 1], session);
    }
  }

  lemma NamesKeepSequence(a: seq<Task>, b: seq<Task>)
    requires SameNames(a, b) && InSequence(a)
    ensures InSequence(b)
  {
    forall i | 0 <= i < |b|
      ensures NumberedNext(b, i)
    {
      assert NumberedNext(a, i);
      NextNumberNeedsNames(a[..i], b[..i], b[i].session);
    }
  }

  lemma CreationKeeps(t: Table, task: Task)
    requires Good(t) && MIN_MINUTES <= task.minutes <= MAX_MINUTES && task.status == Open
    ensures Good(Created(t, task)) && AllKept(t.tasks, Created(t, task).tasks)
  {
    var b := Created(t, task).tasks;
    forall i | 0 <= i < |b|
      ensures NumberedNext(b, i)
    {
      if i < |t.tasks| {
        assert NumberedNext(t.tasks, i) && b[..i] == t.tasks[..i];
      } else {
        assert b[..i] == t.tasks;
      }
    }
  }

  lemma ResolvingKeeps(tasks: seq<Task>, i: nat, status: Status, now: int)
    requires i < |tasks| && AllProper(tasks) && InSequence(tasks) && status != Open
    requires tasks[i].status == Open || tasks[i].status == status
    ensures var b := tasks[i := Resolve(tasks[i], status, now)]; AllProper(b) && InSequence(b) && AllKept(tasks, b)
  {
    assert Proper(tasks[i]);
    NamesKeepSequence(tasks, tasks[i := Resolve(tasks[i], status, now)]);
  }

  lemma KeptOnward(a: seq<Task>, b: seq<Task>, c: seq<Task>)
    requires AllKept(a, b) && AllKept(b, c)
    ensures AllKept(a, c)
  {
    forall i | 0 <= i < |a|
      ensures Kept(a[i], c[i])
    {
      assert Kept(a[i], b[i]) && Kept(b[i], c[i]);
    }
  }

  lemma {:induction false} ReportKeeps(t: Table, session: Id, ids: seq<Id>, now: int)
    requires Good(t)
    ensures var r := ReportedAll(t, session, ids, now); Good(r) && AllKept(t.tasks, r.tasks)
  {
    if ids != [] {
      var n := |ids| - 1;
      var before := ReportedAll(t, session, ids[..n], now);
      ReportKeeps(t, session, ids[..n], now);
      if Reported(before.tasks, session, ids[n]) {
        ResolvingKeeps(before.tasks, ids[n], Done, now);
        KeptOnward(t.tasks, before.tasks, ReportedAll(t, session, ids, now).tasks);
      }
    }
  }

  predicate OpenOrDone(listed: seq<Task>, tasks: seq<Task>) {
    |listed| == |tasks| && forall i :: 0 <= i < |listed| && listed[i].status == Open ==> tasks[i].status != Abandoned
  }

  lemma {:induction false} DoneKeeps(t: Table, session: Id, done: seq<int>, now: int)
    requires Good(t)
    ensures var r := DoneAll(t.tasks, t, session, done, now);
            Good(r) && AllKept(t.tasks, r.tasks) && OpenOrDone(t.tasks, r.tasks)
  {
    if done != [] {
      var n := |done| - 1;
      var before := DoneAll(t.tasks, t, session, done[..n], now);
      DoneKeeps(t, session, done[..n], now);
      var i := Numbered(t.tasks, session, done[n]);
      if i < |t.tasks| && t.tasks[i].status == Open {
        ResolvingKeeps(before.tasks, i, Done, now);
        KeptOnward(t.tasks, before.tasks, DoneAll(t.tasks, t, session, done, now).tasks);
      }
    }
  }

  lemma {:induction false} OrdersKeep(
    t: Table, open: set<string>, session: Id, message: Id, orders: seq<Order>, loops: seq<Loop>, lower: Lowered, now: int)
    requires Good(t)
    ensures var r := OrderedAll(t, open, session, message, orders, loops, lower, now).0;
            Good(r) && AllKept(t.tasks, r.tasks) && r.closing == t.closing
  {
    if orders != [] {
      var n := |orders| - 1;
      var before := OrderedAll(t, open, session, message, orders[..n], loops, lower, now).0;
      OrdersKeep(t, open, session, message, orders[..n], loops, lower, now);
      var task := Ordered(session, message, orders[n], loops, now);
      CreationKeeps(before, task);
      KeptOnward(t.tasks, before.tasks, Created(before, task).tasks);
    }
  }

  /** Every call but a change leaves each task as it was, unless it resolves it; what is resolved stays. */
  lemma StepKeeps(t: Table, call: Call)
    requires Good(t) && !call.Change?
    ensures Good(Step(t, call)) && AllKept(t.tasks, Step(t, call).tasks)
  {
    hide Text.Trim, DoneAll, OrderedAll, ReportedAll, InSequence, NextNumber;
    match call
    case Add(session, text, minutes, now) =>
      CreationKeeps(t, NewTask(session, None, Text.Trim(text), minutes, None, now));
    case Complete(id, now) =>
      if id < |t.tasks| && t.tasks[id].status == Open {
        ResolvingKeeps(t.tasks, id, Done, now);
      }
    case Abandon(id, now) =>
      if id < |t.tasks| && t.tasks[id].status == Open {
        ResolvingKeeps(t.tasks, id, Abandoned, now);
      }
    case Report(session, ids, now) =>
      ReportKeeps(t, session, ids, now);
    case Apply(session, message, orders, done, loops, lower, now) =>
      DoneKeeps(t, session, done, now);
      var after := DoneAll(t.tasks, t, session, done, now);
      OrdersKeep(after, OpenKeys(t.tasks, session, lower), session, message, orders, loops, lower, now);
      KeptOnward(t.tasks, after.tasks, Step(t, call).tasks);
    case StandDown(session, now) =>
      StandDownKeeps(t.tasks, session, now);
  }

  lemma StandDownKeeps(tasks: seq<Task>, session: Id, now: int)
    requires AllProper(tasks) && InSequence(tasks)
    ensures var b := StoodDown(tasks, session, now); AllProper(b) && InSequence(b) && AllKept(tasks, b)
  {
    var b := StoodDown(tasks, session, now);
    NamesKeepSequence(tasks, b);
    forall i | 0 <= i < |tasks|
      ensures Proper(b[i]) && Kept(tasks[i], b[i])
    {
      assert Proper(tasks[i]);
    }
  }

  /** A change touches its own task only, and only while it is open; it may set the clock, never so that it has run out. */
  lemma ChangeKeeps(t: Table, id: Id, edit: Edit, now: int)
    requires Good(t)
    ensures var r := Edited(t, id, edit, now).0;
            && Good(r) && |r.tasks| == |t.tasks| && r.closing == t.closing
            && (forall i :: 0 <= i < |t.tasks| && (i != id || t.tasks[i].Resolved()) ==> r.tasks[i] == t.tasks[i])
            && (Edited(t, id, edit, now).1 == Fine ==>
                  if TouchesClock(edit) then !r.tasks[id].Overdue(now)
                  else r.tasks[id].deadline == t.tasks[id].deadline && r.tasks[id].minutes == t.tasks[id].minutes)
  {
    hide Text.Trim, InSequence, Wrap64;
    if id < |t.tasks| {
      assert Proper(t.tasks[id]);
      NamesKeepSequence(t.tasks, Edited(t, id, edit, now).0.tasks);
      if edit.minutes.Some? {
        assert Minutes(ClampMinutes(edit.minutes.value)) == ClampMinutes(edit.minutes.value) * MINUTE;
      }
    }
  }

  predicate TouchesClock(edit: Edit) {
    edit.minutes.Some? || edit.extend != 0
  }

  lemma StepIsGood(t: Table, call: Call)
    requires Good(t)
    ensures Good(Step(t, call))
  {
    hide Good, Edited;
    if call.Change? {
      ChangeKeeps(t, call.id, call.edit, call.now);
    } else {
      StepKeeps(t, call);
    }
  }

  lemma {:induction false} RunIsGood(calls: seq<Call>)
    ensures Good(Run(EMPTY, calls))
  {
    if calls != [] {
      hide Good, Step;
      RunIsGood(calls[..|calls| - 1]);
      StepIsGood(Run(EMPTY, calls[..|calls| - 1]), calls[|calls| - 1]);
    } else {
      assert InSequence([]);
    }
  }

  // ---------- Several tabs ----------

  /** The table and, for each tab re-arming clocks, the shots it has still to try. */
  datatype System = System(table: Table, queues: map<Id, seq<Shot>>)

  datatype Event = Do(call: Call) | List(tab: Id, session: Id, now: int) | Fire(tab: Id)

  const START := System(EMPTY, map[])

  predicate Loaded(s: System, tab: Id) {
    tab in s.queues && s.queues[tab] != []
  }

  /** A call takes effect at once; re-arming is a listing, then one conditional update at a time. */
  function Next(s: System, e: Event): System {
    match e
    case Do(call) => s.(table := Step(s.table, call))
    case List(tab, session, now) =>
      if Loaded(s, tab) then s else s.(queues := s.queues[tab := Aimed(s.table.tasks, session, now)])
    case Fire(tab) =>
      if !Loaded(s, tab) then s
      else
        var shot := s.queues[tab][0];
        System(Rearmed(s.table, shot.id, shot.now, shot.deadline).0, s.queues[tab := s.queues[tab][1..]])
  }

  function After(s: System, events: seq<Event>): System {
    if events == [] then s else Next(After(s, events[..|events| - 1]), events[|events| - 1])
  }

  /** The shot that re-armed a task at this event, if one did. */
  function Hit(s: System, e: Event): Option<Shot> {
    if !e.Fire? || !Loaded(s, e.tab) then None
    else
      var shot := s.queues[e.tab][0];
      if Rearmed(s.table, shot.id, shot.now, shot.deadline).1 then Some(shot) else None
  }

  predicate Late(shot: Shot) {
    shot.deadline >= shot.now + MIN_REARM
  }

  predicate AllLate(shots: seq<Shot>) {
    forall k :: 0 <= k < |shots| ==> Late(shots[k])
  }

  predicate Healthy(s: System) {
    Good(s.table) && forall tab :: tab in s.queues ==> AllLate(s.queues[tab])
  }

  lemma {:induction false} ShotsAreLate(tasks: seq<Task>, places: seq<nat>, now: int)
    requires forall k :: 0 <= k < |places| ==> places[k] < |tasks|
    ensures AllLate(Shots(tasks, places, now))
  {
    hide Pow2, Minutes;
    if places != [] {
      ShotsAreLate(tasks, places[..|places| - 1], now);
    }
  }

  lemma RearmKeeps(t: Table, shot: Shot)
    requires Good(t)
    ensures var r := Rearmed(t, shot.id, shot.now, shot.deadline);
            && Good(r.0) && |r.0.tasks| == |t.tasks|
            && (forall i :: 0 <= i < |t.tasks| && (i != shot.id || !r.1) ==> r.0.tasks[i] == t.tasks[i])
            && (r.1 ==>
                  && shot.id < |t.tasks| && t.tasks[shot.id].status == Open
                  && t.tasks[shot.id].deadline <= shot.now
                  && r.0.tasks[shot.id]
                     == t.tasks[shot.id].(expiries := t.tasks[shot.id].expiries + 1, deadline := shot.deadline))
  {
    if shot.id < |t.tasks| {
      assert Proper(t.tasks[shot.id]);
      NamesKeepSequence(t.tasks, Rearmed(t, shot.id, shot.now, shot.deadline).0.tasks);
    }
  }

  lemma NextIsHealthy(s: System, e: Event)
    requires Healthy(s)
    ensures Healthy(Next(s, e))
  {
    hide Good, Step, Rearmed, Late, Shots, Listed;
    match e
    case Do(call) => StepIsGood(s.table, call);
    case List(tab, session, now) => ShotsAreLate(s.table.tasks, Listed(s.table.tasks, session), now);
    case Fire(tab) =>
      if Loaded(s, tab) {
        assert AllLate(s.queues[tab]);
        RearmKeeps(s.table, s.queues[tab][0]);
      }
  }

  lemma {:induction false} AfterIsHealthy(s: System, events: seq<Event>)
    requires Healthy(s)
    ensures Healthy(After(s, events))
  {
    if events != [] {
      hide Healthy, Next;
      AfterIsHealthy(s, events[..|events| - 1]);
      NextIsHealthy(After(s, events[..|events| - 1]), events[|events| - 1]);
    }
  }

  lemma StartIsHealthy()
    ensures Healthy(START)
  {
    assert InSequence([]);
  }

  /** A re-arm that takes effect moves the deadline strictly on, past its own moment by five minutes at least, counts
      one miss, and touches nothing else. */
  lemma HitAdvances(s: System, e: Event)
    requires Healthy(s) && Hit(s, e).Some?
    ensures var shot := Hit(s, e).value;
            var was, became := s.table.tasks, Next(s, e).table.tasks;
            && shot.id < |was| == |became|
            && was[shot.id].Overdue(shot.now)
            && was[shot.id].deadline < became[shot.id].deadline && shot.now + MIN_REARM <= became[shot.id].deadline
            && became[shot.id] == was[shot.id].(expiries := was[shot.id].expiries + 1, deadline := shot.deadline)
            && forall i :: 0 <= i < |was| && i != shot.id ==> became[i] == was[i]
  {
    hide Good;
    var shot := s.queues[e.tab][0];
    assert AllLate(s.queues[e.tab]) && Late(shot);
    RearmKeeps(s.table, shot);
  }

  predicate SetsClockOf(e: Event, id: Id) {
    e.Do? && e.call.Change? && e.call.id == id && TouchesClock(e.call.edit)
  }

  /** Without a change to its clock, no event brings a task's deadline forward. */
  lemma ClockOnlyAdvances(s: System, e: Event, id: Id)
    requires Healthy(s) && id < |s.table.tasks| && !SetsClockOf(e, id)
    ensures id < |Next(s, e).table.tasks|
    ensures s.table.tasks[id].deadline <= Next(s, e).table.tasks[id].deadline
  {
    hide Good, Rearmed, Edited;
    match e
    case Do(call) =>
      if call.Change? {
        ChangeKeeps(s.table, call.id, call.edit, call.now);
        if Edited(s.table, call.id, call.edit, call.now).1 != Fine {
          RefusedChange(s.table, call.id, call.edit, call.now);
        }
      } else {
        hide Step;
        StepKeeps(s.table, call);
        assert Kept(s.table.tasks[id], Step(s.table, call).tasks[id]);
      }
    case List(tab, session, now) =>
    case Fire(tab) =>
      if Loaded(s, tab) {
        var shot := s.queues[tab][0];
        assert AllLate(s.queues[tab]) && Late(shot);
        RearmKeeps(s.table, shot);
      }
  }

  lemma RefusedChange(t: Table, id: Id, edit: Edit, now: int)
    requires Edited(t, id, edit, now).1 != Fine
    ensures Edited(t, id, edit, now).0 == t
  {
  }

  lemma {:induction false} ClockOnlyAdvancesOver(s: System, events: seq<Event>, id: Id)
    requires Healthy(s) && id < |s.table.tasks|
    requires forall k :: 0 <= k < |events| ==> !SetsClockOf(events[k], id)
    ensures id < |After(s, events).table.tasks|
    ensures s.table.tasks[id].deadline <= After(s, events).table.tasks[id].deadline
  {
    if events != [] {
      hide Healthy, Next, SetsClockOf;
      var n := |events| - 1;
      ClockOnlyAdvancesOver(s, events[..n], id);
      AfterIsHealthy(s, events[..n]);
      ClockOnlyAdvances(After(s, events[..n]), events[n], id);
    }
  }

  /** Two tabs racing one clock re-arm it once: whatever happens in between, short of setting its clock, two
      re-arms of one task that both take effect were asked for at moments at least five minutes apart. */
  lemma RearmsAreApart(before: seq<Event>, first: Event, between: seq<Event>, second: Event)
    requires Hit(After(START, before), first).Some?
    requires Hit(After(Next(After(START, before), first), between), second).Some?
    requires Hit(After(Next(After(START, before), first), between), second).value.id
             == Hit(After(START, before), first).value.id
    requires forall k :: 0 <= k < |between| ==> !SetsClockOf(between[k], Hit(After(START, before), first).value.id)
    ensures Hit(After(Next(After(START, before), first), between), second).value.now
            >= Hit(After(START, before), first).value.now + MIN_REARM
  {
    hide Healthy, Next, Hit, SetsClockOf, After;
    var s := After(START, before);
    StartIsHealthy();
    AfterIsHealthy(START, before);
    HitAdvances(s, first);
    NextIsHealthy(s, first);
    var id := Hit(s, first).value.id;
    ClockOnlyAdvancesOver(Next(s, first), between, id);
    AfterIsHealthy(Next(s, first), between);
    HitAdvances(After(Next(s, first), between), second);
  }

  /** A resolved task never changes again, whatever calls and re-arms interleave. */
  lemma ResolvedStays(s: System, e: Event, id: Id)
    requires Healthy(s) && id < |s.table.tasks| && s.table.tasks[id].Resolved()
    ensures id < |Next(s, e).table.tasks| && Next(s, e).table.tasks[id] == s.table.tasks[id]
  {
    hide Good, Rearmed, Edited;
    match e
    case Do(call) =>
      if call.Change? {
        ChangeKeeps(s.table, call.id, call.edit, call.now);
      } else {
        hide Step;
        StepKeeps(s.table, call);
        assert Kept(s.table.tasks[id], Step(s.table, call).tasks[id]);
      }
    case List(tab, session, now) =>
    case Fire(tab) =>
      if Loaded(s, tab) {
        RearmKeeps(s.table, s.queues[tab][0]);
      }
  }

  lemma {:induction false} ResolvedStaysOver(s: System, events: seq<Event>, id: Id)
    requires Healthy(s) && id < |s.table.tasks| && s.table.tasks[id].Resolved()
    ensures id < |After(s, events).table.tasks| && After(s, events).table.tasks[id] == s.table.tasks[id]
  {
    if events != [] {
      hide Healthy, Next;
      var n := |events| - 1;
      ResolvedStaysOver(s, events[..n], id);
      AfterIsHealthy(s, events[..n]);
      ResolvedStays(After(s, events[..n]), events[n], id);
    }
  }

  // ---------- Re-arming without interruption ----------

  function FiredAll(t: Table, shots: seq<Shot>): Table {
    if shots == [] then t
    else
      var before := FiredAll(t, shots[..|shots| - 1]);
      var shot := shots[|shots| - 1];
      Rearmed(before, shot.id, shot.now, shot.deadline).0
  }

  function Fires(tab: Id, n: nat): (r: seq<Event>)
    ensures |r| == n
  {
    seq(n, _ => Fire(tab))
  }

  lemma {:induction false} FiringInTurn(s: System, tab: Id, n: nat)
    requires tab in s.queues && n <= |s.queues[tab]|
    ensures var r := After(s, Fires(tab, n));
            && r.table == FiredAll(s.table, s.queues[tab][..n])
            && tab in r.queues && r.queues[tab] == s.queues[tab][n..]
  {
    if n > 0 {
      FiringInTurn(s, tab, n - 1);
      hide Rearmed;
      assert Fires(tab, n)[..n - 1] == Fires(tab, n - 1);
      assert s.queues[tab][..n][..n - 1] == s.queues[tab][..n - 1];
    }
  }

  predicate Rising(places: seq<nat>) {
    forall j, k :: 0 <= j < k < |places| ==> places[j] < places[k]
  }

  lemma {:induction false} ListedRise(tasks: seq<Task>, session: Id)
    ensures Rising(Listed(tasks, session))
    ensures forall i :: i in Listed(tasks, session) <==> 0 <= i < |tasks| && tasks[i].session == session
  {
    if tasks != [] {
      ListedRise(tasks[..|tasks| - 1], session);
    }
  }

  /** Only the listed tasks among these places, with their new clocks. */
  function ExpiredAt(tasks: seq<Task>, places: seq<nat>, now: int): (r: seq<Task>)
    ensures |r| == |tasks|
  {
    seq(|tasks|, i requires 0 <= i < |tasks| =>
      if i in places && tasks[i].Overdue(now) then Renewed(tasks[i], now) else tasks[i])
  }

  lemma ExpiredAtOneMore(tasks: seq<Task>, places: seq<nat>, next: nat, now: int)
    requires next < |tasks| && next !in places
    ensures ExpiredAt(tasks, places + [next], now)
            == if tasks[next].Overdue(now) then ExpiredAt(tasks, places, now)[next := Renewed(tasks[next], now)]
               else ExpiredAt(tasks, places, now)
    ensures ExpiredAt(tasks, places, now)[next] == tasks[next]
  {
    hide Renewed;
  }

  lemma ExpiredAtAll(tasks: seq<Task>, session: Id, now: int)
    ensures ExpiredAt(tasks, Listed(tasks, session), now) == Expired(tasks, session, now)
  {
    ListedRise(tasks, session);
  }

  lemma {:induction false} FiringExpires(t: Table, places: seq<nat>, now: int)
    requires Rising(places) && forall k :: 0 <= k < |places| ==> places[k] < |t.tasks|
    ensures FiredAll(t, Shots(t.tasks, places, now)) == t.(tasks := ExpiredAt(t.tasks, places, now))
  {
    if places != [] {
      hide Window;
      var n := |places| - 1;
      FiringExpires(t, places[..n], now);
      assert places == places[..n] + [places[n]];
      ExpiredAtOneMore(t.tasks, places[..n], places[n], now);
      var before := Shots(t.tasks, places[..n], now);
      if t.tasks[places[n]].Overdue(now) {
        var shot := Shot(places[n], now, Renewed(t.tasks[places[n]], now).deadline);
        assert Shots(t.tasks, places, now) == before + [shot];
        assert (before + [shot])[..|before|] == before;
      } else {
        assert Shots(t.tasks, places, now) == before;
      }
    } else {
      assert ExpiredAt(t.tasks, [], now) == t.tasks;
    }
  }

  /** Uninterrupted, a listing and its shots renew exactly the session's late tasks, and use up the queue. */
  lemma ExpireInOneGo(s: System, tab: Id, session: Id, now: int)
    requires !Loaded(s, tab)
    ensures var shots := Aimed(s.table.tasks, session, now);
            var r := After(Next(s, List(tab, session, now)), Fires(tab, |shots|));
            && r.table == s.table.(tasks := Expired(s.table.tasks, session, now))
            && !Loaded(r, tab)
  {
    var shots := Aimed(s.table.tasks, session, now);
    var listed := Next(s, List(tab, session, now));
    FiringInTurn(listed, tab, |shots|);
    assert shots[..|shots|] == shots;
    ListedRise(s.table.tasks, session);
    FiringExpires(s.table, Listed(s.table.tasks, session), now);
    ExpiredAtAll(s.table.tasks, session, now);
  }

  /** Afterwards nothing of the session is overdue at that moment, and only what was overdue has changed. */
  lemma ExpireClears(tasks: seq<Task>, session: Id, now: int)
    ensures var r := Expired(tasks, session, now);
            && (forall i :: 0 <= i < |r| && r[i].session == session ==> !r[i].Overdue(now))
            && (forall i :: 0 <= i < |r| ==>
                  if tasks[i].session == session && tasks[i].Overdue(now)
                  then r[i].expiries == tasks[i].expiries + 1 && r[i].deadline >= now + MIN_REARM
                  else r[i] == tasks[i])
  {
    hide Pow2, Minutes;
  }

  // ---------- Numbers ----------

  lemma {:induction false} NumbersCount(tasks: seq<Task>, session: Id)
    requires InSequence(tasks)
    ensures NextNumber(tasks, session) == |Listed(tasks, session)| + 1
    ensures forall k :: 0 <= k < |Listed(tasks, session)| ==> tasks[Listed(tasks, session)[k]].number == k + 1
  {
    if tasks != [] {
      var n := |tasks| - 1;
      assert InSequence(tasks[..n]) by {
        forall i | 0 <= i < n
          ensures NumberedNext(tasks[..n], i)
        {
          assert NumberedNext(tasks, i) && tasks[..n][..i] == tasks[..i];
        }
      }
      NumbersCount(tasks[..n], session);
      assert NumberedNext(tasks, n);
    }
  }

  /** Over every run the k-th task of a session is task k. */
  lemma NumbersAreRanks(calls: seq<Call>, session: Id)
    ensures var tasks := Run(EMPTY, calls).tasks;
            forall k :: 0 <= k < |Listed(tasks, session)| ==> tasks[Listed(tasks, session)[k]].number == k + 1
  {
    hide Run;
    RunIsGood(calls);
    NumbersCount(Run(EMPTY, calls).tasks, session);
  }

  // ---------- Reports and orders ----------

  /** A report completes the session's open tasks it names and touches nothing else. */
  lemma {:induction false} ReportIs(t: Table, session: Id, ids: seq<Id>, now: int)
    requires Good(t)
    ensures var r := ReportedAll(t, session, ids, now).tasks;
            && |r| == |t.tasks|
            && forall i :: 0 <= i < |r| ==>
                 r[i] == if i in ids && Reported(t.tasks, session, i) then Resolve(t.tasks[i], Done, now) else t.tasks[i]
  {
    if ids != [] {
      var n := |ids| - 1;
      ReportIs(t, session, ids[..n], now);
      assert ids == ids[..n] + [ids[n]];
    }
  }

  lemma {:induction false} ToldOfKept(a: seq<Task>, b: seq<Task>, session: Id, ids: seq<Id>)
    requires |a| == |b|
    requires forall k :: 0 <= k < |ids| && ids[k] < |a| ==>
               a[ids[k]] == b[ids[k]] || (a[ids[k]].session != session && b[ids[k]].session != session)
    ensures Told(a, session, ids) == Told(b, session, ids)
  {
    if ids != [] {
      ToldOfKept(a, b, session, ids[..|ids| - 1]);
    }
  }

  /** What a report tells of its first names does not change as it goes on. */
  lemma ToldSoFar(t: Table, session: Id, ids: seq<Id>, id: Id, now: int)
    requires Good(t)
    ensures Told(ReportedAll(t, session, ids, now).tasks, session, ids)
            == Told(ReportedAll(t, session, ids + [id], now).tasks, session, ids)
  {
    ReportIs(t, session, ids, now);
    ReportIs(t, session, ids + [id], now);
    ToldOfKept(ReportedAll(t, session, ids, now).tasks, ReportedAll(t, session, ids + [id], now).tasks, session, ids);
  }

  /** The tasks from `from` on are open orders of the session whose texts, lowered, are new and all different. */
  predicate AllNew(tasks: seq<Task>, from: nat, open: set<string>, session: Id, lower: Lowered) {
    && (forall i :: from <= i < |tasks| ==>
          tasks[i].session == session && tasks[i].status == Open && lower(tasks[i].text) !in open)
    && (forall i, j :: from <= i < j < |tasks| ==> lower(tasks[i].text) != lower(tasks[j].text))
  }

  function Texts(tasks: seq<Task>, from: nat, lower: Lowered): set<string> {
    set i | from <= i < |tasks| :: lower(tasks[i].text)
  }

  lemma TextsOneMore(tasks: seq<Task>, task: Task, from: nat, lower: Lowered)
    requires from <= |tasks|
    ensures Texts(tasks + [task], from, lower) == Texts(tasks, from, lower) + {lower(task.text)}
  {
    var all := tasks + [task];
    assert all[|tasks|] == task;
    forall i | from <= i < |tasks|
      ensures lower(all[i].text) in Texts(tasks, from, lower) && lower(tasks[i].text) in Texts(all, from, lower)
    {
      assert all[i] == tasks[i];
    }
  }

  lemma NewOneMore(tasks: seq<Task>, task: Task, from: nat, open: set<string>, session: Id, lower: Lowered)
    requires from <= |tasks| && AllNew(tasks, from, open, session, lower)
    requires task.session == session && task.status == Open && lower(task.text) !in open + Texts(tasks, from, lower)
    ensures AllNew(tasks + [task], from, open, session, lower)
    ensures Texts(tasks + [task], from, lower) == Texts(tasks, from, lower) + {lower(task.text)}
  {
    TextsOneMore(tasks, task, from, lower);
    var all := tasks + [task];
    forall i | from <= i < |tasks|
      ensures all[i] == tasks[i] && lower(tasks[i].text) in Texts(tasks, from, lower)
    {
    }
  }

  lemma {:induction false} OrdersOnce(
    t: Table, open: set<string>, session: Id, message: Id, orders: seq<Order>, loops: seq<Loop>, lower: Lowered, now: int)
    ensures var (r, keys) := OrderedAll(t, open, session, message, orders, loops, lower, now);
            && |t.tasks| <= |r.tasks| && r.tasks[..|t.tasks|] == t.tasks
            && AllNew(r.tasks, |t.tasks|, open, session, lower)
            && keys == open + Texts(r.tasks, |t.tasks|, lower)
            && forall k :: 0 <= k < |orders| ==> Key(orders[k].text, lower) == "" || Key(orders[k].text, lower) in keys
  {
    if orders != [] {
      hide Text.Trim, NextNumber, LoopFor, AllNew, Texts;
      var n := |orders| - 1;
      OrdersOnce(t, open, session, message, orders[..n], loops, lower, now);
      var (before, keys) := OrderedAll(t, open, session, message, orders[..n], loops, lower, now);
      var (after, _) := OrderedAll(t, open, session, message, orders, loops, lower, now);
      if |after.tasks| > |before.tasks| {
        assert after.tasks[..|t.tasks|] == before.tasks[..|t.tasks|];
        NewOneMore(before.tasks, after.tasks[|before.tasks|], |t.tasks|, open, session, lower);
      }
    }
  }

  /** A turn puts each order on the board once: no order it adds says what an open task of the session said when the
      turn began or what another added order says, and every order with a text is then accounted for. */
  lemma ApplyAddsOnce(
    t: Table, session: Id, message: Id, orders: seq<Order>, done: seq<int>, loops: seq<Loop>, lower: Lowered, now: int)
    requires Good(t)
    ensures var r := Applied(t, session, message, orders, done, loops, lower, now).tasks;
            && |t.tasks| <= |r|
            && AllNew(r, |t.tasks|, OpenKeys(t.tasks, session, lower), session, lower)
            && forall k :: 0 <= k < |orders| && Key(orders[k].text, lower) != "" ==>
                 Key(orders[k].text, lower) in OpenKeys(t.tasks, session, lower) + Texts(r, |t.tasks|, lower)
  {
    hide Key, OpenKeys, Good;
    DoneKeeps(t, session, done, now);
    OrdersOnce(DoneAll(t.tasks, t, session, done, now), OpenKeys(t.tasks, session, lower), session, message, orders, loops,
               lower, now);
  }

  // ---------- Loops closed ----------

  function One(task: Task, loop: Id): nat {
    if task.status == Done && task.commitment == Some(loop) then 1 else 0
  }

  /** How many done tasks finish the loop. */
  function DoneWith(tasks: seq<Task>, loop: Id): nat {
    if tasks == [] then 0 else DoneWith(tasks[..|tasks| - 1], loop) + One(tasks[|tasks| - 1], loop)
  }

  /** How often the loop was asked to close. */
  function AskedFor(closing: seq<Id>, loop: Id): nat {
    if closing == [] then 0
    else AskedFor(closing[..|closing| - 1], loop) + (if closing[|closing| - 1] == loop then 1 else 0)
  }

  /** By how much the loop was asked to close more often than it was finished. */
  function Excess(t: Table, loop: Id): int {
    AskedFor(t.closing, loop) - DoneWith(t.tasks, loop)
  }

  lemma {:induction false} DoneWithUpdate(tasks: seq<Task>, i: nat, task: Task, loop: Id)
    requires i < |tasks|
    ensures DoneWith(tasks[i := task], loop) == DoneWith(tasks, loop) - One(tasks[i], loop) + One(task, loop)
  {
    var n := |tasks| - 1;
    hide One;
    if i < n {
      assert tasks[i := task][..n] == tasks[..n][i := task];
      DoneWithUpdate(tasks[..n], i, task, loop);
    } else {
      assert tasks[i := task][..n] == tasks[..n];
    }
  }

  lemma ExcessAfterAsking(t: Table, i: nat, task: Task, loop: Id)
    requires i < |t.tasks|
    ensures Excess(Table(t.tasks[i := task], t.closing + Asked(t.tasks[i])), loop)
            == Excess(t, loop) + (if t.tasks[i].commitment == Some(loop) then 1 else 0)
               + One(t.tasks[i], loop) - One(task, loop)
  {
    hide One;
    DoneWithUpdate(t.tasks, i, task, loop);
    if t.tasks[i].commitment.Some? {
      assert (t.closing + Asked(t.tasks[i]))[..|t.closing|] == t.closing;
    } else {
      assert t.closing + Asked(t.tasks[i]) == t.closing;
    }
  }

  lemma ExcessAfterUpdate(t: Table, i: nat, task: Task, loop: Id)
    requires i < |t.tasks| && One(task, loop) == One(t.tasks[i], loop)
    ensures Excess(t.(tasks := t.tasks[i := task]), loop) == Excess(t, loop)
  {
    DoneWithUpdate(t.tasks, i, task, loop);
  }

  lemma {:induction false} ReportSquares(t: Table, session: Id, ids: seq<Id>, now: int, loop: Id)
    ensures Excess(ReportedAll(t, session, ids, now), loop) == Excess(t, loop)
  {
    if ids != [] {
      hide Excess;
      var n := |ids| - 1;
      ReportSquares(t, session, ids[..n], now, loop);
      var before := ReportedAll(t, session, ids[..n], now);
      if Reported(before.tasks, session, ids[n]) {
        ExcessAfterAsking(before, ids[n], Resolve(before.tasks[ids[n]], Done, now), loop);
      }
    }
  }

  lemma {:induction false} OrdersSquare(
    t: Table, open: set<string>, session: Id, message: Id, orders: seq<Order>, loops: seq<Loop>, lower: Lowered, now: int,
    loop: Id)
    ensures Excess(OrderedAll(t, open, session, message, orders, loops, lower, now).0, loop) == Excess(t, loop)
  {
    if orders != [] {
      hide NextNumber, Key, LoopFor;
      var n := |orders| - 1;
      OrdersSquare(t, open, session, message, orders[..n], loops, lower, now, loop);
      var before := OrderedAll(t, open, session, message, orders[..n], loops, lower, now).0;
      var made := Created(before, Ordered(session, message, orders[n], loops, now));
      assert made.tasks[..|before.tasks|] == before.tasks;
    }
  }

  lemma {:induction false} StandDownSquares(tasks: seq<Task>, session: Id, now: int, loop: Id)
    ensures DoneWith(StoodDown(tasks, session, now), loop) == DoneWith(tasks, loop)
  {
    if tasks != [] {
      var n := |tasks| - 1;
      StandDownSquares(tasks[..n], session, now, loop);
      var after := StoodDown(tasks, session, now);
      assert after[..n] == StoodDown(tasks[..n], session, now);
      assert One(after[n], loop) == One(tasks[n], loop);
      hide One, StoodDown;
    }
  }

  /** The place of the open task with a loop that the k-th number names; the length of the table where it names none. */
  function Names(listed: seq<Task>, session: Id, number: int): (i: nat)
    ensures i <= |listed|
  {
    var i := Numbered(listed, session, number);
    if i < |listed| && listed[i].status == Open && listed[i].commitment.Some? then i else |listed|
  }

  /** Some open task with a loop is named twice. */
  predicate NamesTwice(listed: seq<Task>, session: Id, done: seq<int>) {
    exists j, k :: 0 <= j < k < |done| && Names(listed, session, done[j]) == Names(listed, session, done[k]) < |listed|
  }

  /** A listed open task with a loop is done exactly when one of the numbers names it. */
  predicate DoneAsNamed(listed: seq<Task>, tasks: seq<Task>, session: Id, done: seq<int>) {
    && |listed| == |tasks|
    && (forall i :: 0 <= i < |listed| && listed[i].status == Open && listed[i].commitment.Some? ==>
          && tasks[i].commitment == listed[i].commitment
          && (tasks[i].status == Done <==> exists k :: 0 <= k < |done| && Names(listed, session, done[k]) == i)
          && (tasks[i].status == Done || tasks[i].status == Open))
    && (forall i :: 0 <= i < |listed| && listed[i].commitment.None? ==> tasks[i].commitment.None?)
  }

  lemma {:induction false} DoneNamed(t: Table, session: Id, done: seq<int>, now: int)
    ensures DoneAsNamed(t.tasks, DoneAll(t.tasks, t, session, done, now).tasks, session, done)
  {
    if done != [] {
      var n := |done| - 1;
      DoneNamed(t, session, done[..n], now);
      var before := DoneAll(t.tasks, t, session, done[..n], now).tasks;
      var after := DoneAll(t.tasks, t, session, done, now).tasks;
      forall i | 0 <= i < |t.tasks| && t.tasks[i].status == Open && t.tasks[i].commitment.Some?
        ensures after[i].status == Done <==> exists k :: 0 <= k < |done| && Names(t.tasks, session, done[k]) == i
      {
        if before[i].status == Done {
          var k :| 0 <= k < n && Names(t.tasks, session, done[..n][k]) == i;
          assert Names(t.tasks, session, done[k]) == i;
        }
        if after[i].status != Done {
          forall k | 0 <= k < |done|
            ensures Names(t.tasks, session, done[k]) != i
          {
            if k < n {
              assert done[..n][k] == done[k];
            }
          }
        } else if before[i].status != Done {
          assert Names(t.tasks, session, done[n]) == i;
        }
      }
    }
  }

  lemma DoneOneMore(t: Table, session: Id, done: seq<int>, number: int, now: int)
    ensures var before := DoneAll(t.tasks, t, session, done, now);
            var i := Numbered(t.tasks, session, number);
            DoneAll(t.tasks, t, session, done + [number], now)
            == if i < |t.tasks| && t.tasks[i].status == Open
               then Table(before.tasks[i := Resolve(before.tasks[i], Done, now)], before.closing + Asked(t.tasks[i]))
               else before
  {
    assert (done + [number])[..|done|] == done;
  }

  lemma NumberOneMore(t: Table, session: Id, done: seq<int>, number: int, now: int, loop: Id)
    ensures var before := DoneAll(t.tasks, t, session, done, now);
            var after := DoneAll(t.tasks, t, session, done + [number], now);
            var i := Names(t.tasks, session, number);
            if i < |t.tasks| && t.tasks[i].commitment == Some(loop)
            then Excess(after, loop) == Excess(before, loop) + if before.tasks[i].status == Done then 1 else 0
            else Excess(after, loop) == Excess(before, loop)
  {
    DoneNamed(t, session, done, now);
    DoneOneMore(t, session, done, number, now);
    var before := DoneAll(t.tasks, t, session, done, now);
    var i := Numbered(t.tasks, session, number);
    hide Excess, DoneAll, Numbered;
    if i < |t.tasks| && t.tasks[i].status == Open {
      assert before.tasks[i].commitment == t.tasks[i].commitment;
      ExcessAfterAsking(before, i, Resolve(before.tasks[i], Done, now), loop);
    }
  }

  /** Marking the numbers done never asks too little, and asks as often as it finishes exactly when it is given no open
      task with a loop twice. */
  lemma {:induction false} DoneSquaresIff(t: Table, session: Id, done: seq<int>, now: int)
    ensures forall loop: Id :: Excess(DoneAll(t.tasks, t, session, done, now), loop) >= Excess(t, loop)
    ensures (forall loop: Id :: Excess(DoneAll(t.tasks, t, session, done, now), loop) == Excess(t, loop))
            <==> !NamesTwice(t.tasks, session, done)
  {
    if done != [] {
      hide Excess, Names;
      var n := |done| - 1;
      var front := done[..n];
      assert done == front + [done[n]];
      DoneSquaresIff(t, session, front, now);
      DoneNamed(t, session, front, now);
      var before := DoneAll(t.tasks, t, session, front, now);
      forall loop: Id
        ensures var after := DoneAll(t.tasks, t, session, done, now);
                var i := Names(t.tasks, session, done[n]);
                if i < |t.tasks| && t.tasks[i].commitment == Some(loop)
                then Excess(after, loop) == Excess(before, loop) + if before.tasks[i].status == Done then 1 else 0
                else Excess(after, loop) == Excess(before, loop)
      {
        NumberOneMore(t, session, front, done[n], now, loop);
      }
      TwiceOneMore(t.tasks, session, front, done[n]);
    }
  }

  lemma TwiceOneMore(listed: seq<Task>, session: Id, front: seq<int>, number: int)
    ensures NamesTwice(listed, session, front + [number])
            <==> NamesTwice(listed, session, front)
                 || (Names(listed, session, number) < |listed|
                     && exists k :: 0 <= k < |front| && Names(listed, session, front[k]) == Names(listed, session, number))
  {
    hide Names;
    var all := front + [number];
    if NamesTwice(listed, session, front) {
      var j, k :| 0 <= j < k < |front|
                  && Names(listed, session, front[j]) == Names(listed, session, front[k]) < |listed|;
      assert all[j] == front[j] && all[k] == front[k];
    }
    if Names(listed, session, number) < |listed|
       && exists k :: 0 <= k < |front| && Names(listed, session, front[k]) == Names(listed, session, number) {
      var k :| 0 <= k < |front| && Names(listed, session, front[k]) == Names(listed, session, number);
      assert all[k] == front[k] && all[|front|] == number;
    }
    if NamesTwice(listed, session, all) {
      var j, k :| 0 <= j < k < |all| && Names(listed, session, all[j]) == Names(listed, session, all[k]) < |listed|;
      assert all[j] == front[j];
      if k < |front| {
        assert all[k] == front[k];
      }
    }
  }

  /** Recording a turn asks each loop to close as often as it finishes a task with it, exactly when the numbers it is
      given name no open task with a loop twice.  Those read out of an answer never do: `NumbersAreReadOnce`. */
  lemma ApplySquaresIff(t: Table, call: Call)
    requires call.Apply?
    ensures (forall loop: Id :: Excess(Step(t, call), loop) == Excess(t, loop))
            <==> !NamesTwice(t.tasks, call.session, call.done)
  {
    hide Excess, NamesTwice, DoneAll, OrderedAll;
    DoneSquaresIff(t, call.session, call.done, call.now);
    forall loop: Id
      ensures Excess(Step(t, call), loop) == Excess(DoneAll(t.tasks, t, call.session, call.done, call.now), loop)
    {
      OrdersSquare(DoneAll(t.tasks, t, call.session, call.done, call.now), OpenKeys(t.tasks, call.session, call.lower),
                   call.session, call.message, call.orders, call.loops, call.lower, call.now, loop);
    }
  }

  /** A turn's numbers, none twice: all that reading an answer can give. */
  predicate ReadOnce(call: Call) {
    call.Apply? ==> NoneTwice(call.done)
  }

  lemma NoneNamedTwice(listed: seq<Task>, session: Id, done: seq<int>)
    requires NoneTwice(done)
    ensures !NamesTwice(listed, session, done)
  {
  }

  /** The numbers read out of an answer are positive, all those said, each once and in the order first said; so no task is
      named twice. */
  lemma {:induction false} NumbersAreReadOnce(said: seq<Option<int>>)
    ensures NoneTwice(Flagged(said))
    ensures forall n: int :: n in Flagged(said) <==> n > 0 && Some(n) in said
    ensures forall j, k :: 0 <= j < k < |Flagged(said)| ==> SaidBefore(said, Flagged(said)[j], Flagged(said)[k])
  {
    if said != [] {
      var n := |said| - 1;
      var before := Flagged(said[..n]);
      assert said == said[..n] + [said[n]];
      NumbersAreReadOnce(said[..n]);
      forall j, k | 0 <= j < k < |Flagged(said)|
        ensures SaidBefore(said, Flagged(said)[j], Flagged(said)[k])
      {
        if k < |before| {
          assert SaidBefore(said[..n], before[j], before[k]);
          var i :| 0 <= i <= n && Some(before[j]) in said[..n][..i] && Some(before[k]) !in said[..n][..i];
          assert said[..n][..i] == said[..i];
        } else {
          assert before[j] in before && Some(before[j]) in said[..n];
        }
      }
    }
  }

  /** By some point of the answer the one had been said and the other not. */
  predicate SaidBefore(said: seq<Option<int>>, first: int, second: int) {
    exists i :: 0 <= i <= |said| && Some(first) in said[..i] && Some(second) !in said[..i]
  }

  lemma StepSquares(t: Table, call: Call, loop: Id)
    requires ReadOnce(call)
    ensures Excess(Step(t, call), loop) == Excess(t, loop)
  {
    hide Text.Trim, NextNumber, DoneAll, OrderedAll, ReportedAll, Excess, StoodDown, NamesTwice, Edited, NoneTwice;
    match call
    case Add(session, text, minutes, now) =>
      var task := Created(t, NewTask(session, None, Text.Trim(text), minutes, None, now)).tasks[|t.tasks|];
      ExcessAfterCreation(t, task, loop);
    case Change(id, edit, now) =>
      ChangeSquares(t, id, edit, now, loop);
    case Complete(id, now) =>
      if id < |t.tasks| && t.tasks[id].status == Open {
        ExcessAfterAsking(t, id, Resolve(t.tasks[id], Done, now), loop);
      }
    case Abandon(id, now) =>
      if id < |t.tasks| && t.tasks[id].status == Open {
        ExcessAfterUpdate(t, id, Resolve(t.tasks[id], Abandoned, now), loop);
      }
    case Report(session, ids, now) => ReportSquares(t, session, ids, now, loop);
    case Apply(session, message, orders, done, loops, lower, now) =>
      NoneNamedTwice(t.tasks, session, done);
      ApplySquaresIff(t, call);
    case StandDown(session, now) =>
      StandDownKeepsExcess(t, session, now, loop);
  }

  lemma ChangeSquares(t: Table, id: Id, edit: Edit, now: int, loop: Id)
    ensures Excess(Edited(t, id, edit, now).0, loop) == Excess(t, loop)
  {
    hide Text.Trim, Excess;
    if Edited(t, id, edit, now).1 == Fine {
      ExcessAfterUpdate(t, id, Edited(t, id, edit, now).0.tasks[id], loop);
    } else {
      RefusedChange(t, id, edit, now);
    }
  }

  lemma StandDownKeepsExcess(t: Table, session: Id, now: int, loop: Id)
    ensures Excess(t.(tasks := StoodDown(t.tasks, session, now)), loop) == Excess(t, loop)
  {
    StandDownSquares(t.tasks, session, now, loop);
  }

  lemma ExcessAfterCreation(t: Table, task: Task, loop: Id)
    requires task.status == Open
    ensures Excess(t.(tasks := t.tasks + [task]), loop) == Excess(t, loop)
  {
    assert (t.tasks + [task])[..|t.tasks|] == t.tasks;
  }

  /** Over every run whose turns were read out of answers, each loop has been asked to close once for each done task with
      it. */
  lemma {:induction false} LoopsCloseOnce(calls: seq<Call>, loop: Id)
    requires forall k :: 0 <= k < |calls| ==> ReadOnce(calls[k])
    ensures var t := Run(EMPTY, calls); AskedFor(t.closing, loop) == DoneWith(t.tasks, loop)
  {
    if calls != [] {
      hide ReadOnce, Step;
      var n := |calls| - 1;
      LoopsCloseOnce(calls[..n], loop);
      StepSquares(Run(EMPTY, calls[..n]), calls[n], loop);
    }
  }
}
