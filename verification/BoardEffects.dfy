/** What each call on the board comes to: the tasks it makes, the fields it sets, and when their clocks run out. */
module BoardEffects {
  import opened Common
  import opened Clocks
  import opened Board
  import opened BoardLaws
  import Text

  // ---------- New tasks and their clocks ----------

  const SIXTY_SECONDS := 60 * 1_000_000_000

  /** The minutes asked for, or the nearer of one minute and four hours. */
  function Within(minutes: int): int {
    if minutes < 1 then 1 else if minutes > 240 then 240 else minutes
  }

  /** A task put on the board just now: open, never missed, and due when its minutes are up. */
  predicate Fresh(task: Task, session: Id, text: string, minutes: int, now: int) {
    && task.session == session && task.text == text
    && task.status == Open && task.expiries == 0 && task.resolvedAt.None?
    && task.minutes == Within(minutes) && task.deadline == now + Within(minutes) * SIXTY_SECONDS
  }

  lemma NewTaskIsFresh(t: Table, session: Id, message: Option<Id>, text: string, minutes: int, commitment: Option<Id>, now: int)
    ensures var r := Created(t, NewTask(session, message, text, minutes, commitment, now)).tasks;
            && |r| == |t.tasks| + 1 && r[..|t.tasks|] == t.tasks
            && Fresh(r[|t.tasks|], session, text, minutes, now)
            && r[|t.tasks|].message == message && r[|t.tasks|].commitment == commitment
  {
    hide NextNumber, Wrap64;
    assert Minutes(ClampMinutes(minutes)) == ClampMinutes(minutes) * MINUTE;
  }

  /** An order by hand is put on the board unless it says nothing; it belongs to no message and no loop. */
  lemma AddIs(t: Table, session: Id, text: string, minutes: int, now: int)
    ensures var (r, answer) := Added(t, session, text, minutes, now);
            if Text.Trim(text) == "" then r == t && answer == Refused(EmptyText)
            else
              && answer == Fine && r.closing == t.closing
              && |r.tasks| == |t.tasks| + 1 && r.tasks[..|t.tasks|] == t.tasks
              && Fresh(r.tasks[|t.tasks|], session, Text.Trim(text), minutes, now)
              && r.tasks[|t.tasks|].message.None? && r.tasks[|t.tasks|].commitment.None?
  {
    hide Text.Trim, Created, NewTask, Fresh;
    if Text.Trim(text) != "" {
      NewTaskIsFresh(t, session, None, Text.Trim(text), minutes, None, now);
      AddingAsksNothing(t, NewTask(session, None, Text.Trim(text), minutes, None, now));
    }
  }

  lemma AddingAsksNothing(t: Table, task: Task)
    ensures Created(t, task).closing == t.closing
  {
  }

  /** The loop an order names by its number: the last one offered under it. */
  predicate Names(loops: seq<Loop>, number: int, loop: Option<Id>) {
    if loop.Some? then
      exists k :: 0 <= k < |loops| && loops[k] == Loop(number, loop.value)
                  && forall j :: k < j < |loops| ==> loops[j].number != number
    else forall k :: 0 <= k < |loops| ==> loops[k].number != number
  }

  lemma {:induction false} LoopForNames(loops: seq<Loop>, number: int)
    ensures Names(loops, number, LoopFor(loops, number))
  {
    if loops != [] {
      LoopForNames(loops[..|loops| - 1], number);
    }
  }

  /** A task put on the board for one of the orders of a turn. */
  predicate FromOrder(task: Task, session: Id, message: Id, orders: seq<Order>, loops: seq<Loop>, now: int) {
    exists k :: 0 <= k < |orders| && IsOrdered(task, session, message, orders[k], loops, now)
  }

  predicate IsOrdered(task: Task, session: Id, message: Id, order: Order, loops: seq<Loop>, now: int) {
    && Fresh(task, session, Text.Trim(order.text), order.minutes, now)
    && task.message == Some(message) && Names(loops, order.loop, task.commitment)
  }

  predicate AllOrdered(tasks: seq<Task>, from: nat, session: Id, message: Id, orders: seq<Order>, loops: seq<Loop>, now: int) {
    forall i :: from <= i < |tasks| ==> FromOrder(tasks[i], session, message, orders, loops, now)
  }

  lemma OrderedBefore(tasks: seq<Task>, from: nat, session: Id, message: Id, orders: seq<Order>, order: Order,
                      loops: seq<Loop>, now: int)
    requires AllOrdered(tasks, from, session, message, orders, loops, now)
    ensures AllOrdered(tasks, from, session, message, orders + [order], loops, now)
  {
    hide IsOrdered;
    forall i | from <= i < |tasks|
      ensures FromOrder(tasks[i], session, message, orders + [order], loops, now)
    {
      var k :| 0 <= k < |orders| && IsOrdered(tasks[i], session, message, orders[k], loops, now);
      assert (orders + [order])[k] == orders[k];
    }
  }

  lemma OneMoreOrdered(t: Table, from: nat, session: Id, message: Id, orders: seq<Order>, order: Order, loops: seq<Loop>,
                       now: int)
    requires AllOrdered(t.tasks, from, session, message, orders, loops, now) && from <= |t.tasks|
    ensures AllOrdered(Created(t, Ordered(session, message, order, loops, now)).tasks, from, session, message,
                       orders + [order], loops, now)
  {
    hide Text.Trim, Created, NewTask, Fresh, LoopFor, Names;
    var text := Text.Trim(order.text);
    var r := Created(t, Ordered(session, message, order, loops, now)).tasks;
    NewTaskIsFresh(t, session, Some(message), text, order.minutes, LoopFor(loops, order.loop), now);
    LoopForNames(loops, order.loop);
    OrderedBefore(t.tasks, from, session, message, orders, order, loops, now);
    assert IsOrdered(r[|t.tasks|], session, message, (orders + [order])[|orders|], loops, now);
    forall i | from <= i < |r|
      ensures FromOrder(r[i], session, message, orders + [order], loops, now)
    {
      assert i < |t.tasks| ==> r[i] == t.tasks[i];
    }
  }

  lemma {:induction false} OrdersAre(
    t: Table, open: set<string>, session: Id, message: Id, orders: seq<Order>, loops: seq<Loop>, lower: Lowered, now: int)
    ensures var r := OrderedAll(t, open, session, message, orders, loops, lower, now).0;
            && |t.tasks| <= |r.tasks| && r.tasks[..|t.tasks|] == t.tasks
            && AllOrdered(r.tasks, |t.tasks|, session, message, orders, loops, now)
  {
    hide AllOrdered, Text.Trim, Created, Ordered;
    if orders == [] {
      assert AllOrdered(t.tasks, |t.tasks|, session, message, orders, loops, now) by { NoneOrdered(t, session, message, loops, now); }
    } else {
      var n := |orders| - 1;
      OrdersAre(t, open, session, message, orders[..n], loops, lower, now);
      var (before, keys) := OrderedAll(t, open, session, message, orders[..n], loops, lower, now);
      assert orders == orders[..n] + [orders[n]];
      OrderedBefore(before.tasks, |t.tasks|, session, message, orders[..n], orders[n], loops, now);
      if Key(orders[n].text, lower) != "" && Key(orders[n].text, lower) !in keys {
        OneMoreOrdered(before, |t.tasks|, session, message, orders[..n], orders[n], loops, now);
        CreatedGrows(before, Ordered(session, message, orders[n], loops, now), |t.tasks|);
      }
    }
  }

  lemma NoneOrdered(t: Table, session: Id, message: Id, loops: seq<Loop>, now: int)
    ensures AllOrdered(t.tasks, |t.tasks|, session, message, [], loops, now)
  {
  }

  lemma CreatedGrows(t: Table, task: Task, n: nat)
    requires n <= |t.tasks|
    ensures |Created(t, task).tasks| == |t.tasks| + 1 && Created(t, task).tasks[..n] == t.tasks[..n]
  {
  }

  /** Whatever a turn puts on the board is one of its orders with its own text, minutes and loop, and a whole clock. */
  lemma ApplyOrders(
    t: Table, session: Id, message: Id, orders: seq<Order>, done: seq<int>, loops: seq<Loop>, lower: Lowered, now: int)
    ensures var r := Applied(t, session, message, orders, done, loops, lower, now).tasks;
            |t.tasks| <= |r| && AllOrdered(r, |t.tasks|, session, message, orders, loops, now)
  {
    hide AllOrdered, OrderedAll, DoneAll, OpenKeys;
    OrdersAre(DoneAll(t.tasks, t, session, done, now), OpenKeys(t.tasks, session, lower), session, message, orders, loops,
              lower, now);
  }

  // ---------- A clock that nothing touches ----------

  /** An event that changes the task's clock or words: an accepted change of it, or a shot that re-arms it. */
  predicate Resets(s: System, e: Event, id: Id) {
    (e.Do? && e.call.Change? && e.call.id == id) || (Hit(s, e).Some? && Hit(s, e).value.id == id)
  }

  lemma StaysOpenAsSet(s: System, e: Event, id: Id)
    requires Healthy(s) && id < |s.table.tasks| && !Resets(s, e, id)
    ensures id < |Next(s, e).table.tasks|
    ensures Next(s, e).table.tasks[id].status == Open ==> Next(s, e).table.tasks[id] == s.table.tasks[id]
  {
    hide Good, Step, Rearmed, Edited, Listed, Shots;
    match e
    case Do(call) =>
      if call.Change? {
        ChangeIsStep(s.table, call);
        ChangeKeeps(s.table, call.id, call.edit, call.now);
      } else {
        StepKeeps(s.table, call);
        assert Kept(s.table.tasks[id], Step(s.table, call).tasks[id]);
        OpenIsUnresolved(s.table, id);
        OpenIsUnresolved(Step(s.table, call), id);
      }
    case List(_, _, _) =>
    case Fire(tab) =>
      if Loaded(s, tab) {
        RearmKeeps(s.table, s.queues[tab][0]);
      }
  }

  lemma ChangeIsStep(t: Table, call: Call)
    requires call.Change?
    ensures Step(t, call) == Edited(t, call.id, call.edit, call.now).0
  {
    hide Edited;
  }

  lemma OpenIsUnresolved(t: Table, id: Id)
    requires Good(t) && id < |t.tasks|
    ensures t.tasks[id].status == Open <==> t.tasks[id].resolvedAt.None?
  {
    hide InSequence;
    assert Proper(t.tasks[id]);
  }

  /** As long as a task is open and nothing has reset it, it is as it was, so it is late exactly from its deadline on. */
  lemma {:induction false} LateFromItsDeadline(s: System, events: seq<Event>, id: Id, later: int)
    requires Healthy(s) && id < |s.table.tasks| && s.table.tasks[id].status == Open
    requires forall k :: 0 <= k < |events| ==> !Resets(After(s, events[..k]), events[k], id)
    ensures Healthy(After(s, events)) && id < |After(s, events).table.tasks|
    ensures var task := After(s, events).table.tasks[id];
            task.status == Open ==> task == s.table.tasks[id] && (task.Overdue(later) <==> later >= s.table.tasks[id].deadline)
  {
    hide Healthy, Next, Resets;
    if events != [] {
      var n := |events| - 1;
      forall k | 0 <= k < n
        ensures !Resets(After(s, events[..n][..k]), events[..n][k], id)
      {
        assert events[..n][..k] == events[..k];
      }
      LateFromItsDeadline(s, events[..n], id, later);
      var before := After(s, events[..n]);
      NextIsHealthy(before, events[n]);
      StaysOpenAsSet(before, events[n], id);
      if before.table.tasks[id].Resolved() {
        ResolvedStays(before, events[n], id);
      }
    }
  }

  // ---------- The other calls ----------

  /** The clock a change sets: a fresh one counts from now; moving it, fresh or not, never leaves it closer than a
      minute. */
  predicate Reset(was: Task, became: Task, edit: Edit, now: int) {
    var minutes := if edit.minutes.Some? then Within(edit.minutes.value) else was.minutes;
    var base := if edit.minutes.Some? then now + minutes * SIXTY_SECONDS else was.deadline;
    && became.minutes == minutes
    && became.deadline == if edit.extend == 0 then base
                          else if base + Minutes(edit.extend) < now + SIXTY_SECONDS then now + SIXTY_SECONDS
                          else base + Minutes(edit.extend)
  }

  predicate CanChange(t: Table, id: Id, edit: Edit) {
    id < |t.tasks| && t.tasks[id].status == Open && (edit.text.Some? ==> Text.Trim(edit.text.value) != "")
  }

  /** A change takes exactly when the task is there and open and no blank text is asked for; it sets the words and the
      clock, and nothing else of that task or any other. */
  lemma ChangeIs(t: Table, id: Id, edit: Edit, now: int)
    ensures var (r, answer) := Edited(t, id, edit, now);
            && (answer == Fine <==> CanChange(t, id, edit))
            && (answer != Fine ==> r == t)
            && (answer == Fine ==>
                  var was, became := t.tasks[id], r.tasks[id];
                  && r == t.(tasks := t.tasks[id := became])
                  && became == was.(text := became.text, minutes := became.minutes, deadline := became.deadline)
                  && became.text == (if edit.text.Some? then Text.Trim(edit.text.value) else was.text)
                  && Reset(was, became, edit, now))
  {
    hide Text.Trim, Wrap64;
    if edit.minutes.Some? {
      assert Minutes(ClampMinutes(edit.minutes.value)) == ClampMinutes(edit.minutes.value) * MINUTE;
    }
  }

  /** Completing: an open task is done, from now, and asks for its loop; a done one is left alone; an abandoned one is
      refused. */
  lemma CompleteIs(t: Table, id: Id, now: int)
    requires Good(t)
    ensures var (r, answer) := Completed(t, id, now);
            if id >= |t.tasks| then r == t && answer == Refused(NotFound)
            else if t.tasks[id].status == Done then r == t && answer == Fine
            else if t.tasks[id].status == Abandoned then r == t && answer == Refused(BadTransition)
            else
              && answer == Fine
              && r.tasks == t.tasks[id := t.tasks[id].(status := Done, resolvedAt := Some(now))]
              && r.closing == if t.tasks[id].commitment.Some? then t.closing + [t.tasks[id].commitment.value] else t.closing
  {
    hide InSequence;
    if id < |t.tasks| {
      assert Proper(t.tasks[id]);
    }
  }

  /** Striking off: an open task is abandoned, from now; anything else is refused. */
  lemma AbandonIs(t: Table, id: Id, now: int)
    requires Good(t)
    ensures var (r, answer) := Struck(t, id, now);
            if id >= |t.tasks| then r == t && answer == Refused(NotFound)
            else if t.tasks[id].status != Open then r == t && answer == Refused(BadTransition)
            else
              && answer == Fine
              && r == t.(tasks := t.tasks[id := t.tasks[id].(status := Abandoned, resolvedAt := Some(now))])
  {
    hide InSequence;
    if id < |t.tasks| {
      assert Proper(t.tasks[id]);
    }
  }

  /** Standing down abandons what the session has open, from now, and asks for no loop. */
  lemma StandDownIs(t: Table, session: Id, now: int)
    requires Good(t)
    ensures var r := Step(t, StandDown(session, now));
            && r.closing == t.closing && |r.tasks| == |t.tasks|
            && forall i :: 0 <= i < |t.tasks| ==>
                 r.tasks[i] == if t.tasks[i].session == session && t.tasks[i].status == Open
                               then t.tasks[i].(status := Abandoned, resolvedAt := Some(now)) else t.tasks[i]
  {
    hide InSequence;
    forall i | 0 <= i < |t.tasks|
      ensures Proper(t.tasks[i])
    {
    }
  }

  /** Reporting completes, from now, the open tasks of the session that are named, and touches no other. */
  lemma ReportDoes(t: Table, session: Id, ids: seq<Id>, now: int)
    requires Good(t)
    ensures var r := ReportedAll(t, session, ids, now).tasks;
            && |r| == |t.tasks|
            && forall i :: 0 <= i < |r| ==>
                 r[i] == if i in ids && t.tasks[i].session == session && t.tasks[i].status == Open
                         then t.tasks[i].(status := Done, resolvedAt := Some(now)) else t.tasks[i]
  {
    hide InSequence, ReportedAll;
    ReportIs(t, session, ids, now);
    forall i | 0 <= i < |t.tasks|
      ensures Proper(t.tasks[i])
    {
    }
  }

  /** It tells, in the order named, the tasks named that are the session's and done. */
  lemma ToldAre(tasks: seq<Task>, session: Id, ids: seq<Id>, id: Id)
    ensures Told(tasks, session, []) == []
    ensures Told(tasks, session, ids + [id])
            == Told(tasks, session, ids)
               + if id < |tasks| && tasks[id].session == session && tasks[id].status == Done then [tasks[id]] else []
  {
    assert (ids + [id])[..|ids|] == ids;
  }

  /** What a turn puts on the board says nothing that an open task of the session said when the turn began. */
  lemma NothingTwice(
    t: Table, session: Id, message: Id, orders: seq<Order>, done: seq<int>, loops: seq<Loop>, lower: Lowered, now: int,
    i: nat, j: nat)
    requires Good(t) && |t.tasks| <= i < |Applied(t, session, message, orders, done, loops, lower, now).tasks|
    requires j < |t.tasks| && t.tasks[j].session == session && t.tasks[j].status == Open
    ensures lower(Applied(t, session, message, orders, done, loops, lower, now).tasks[i].text) != lower(t.tasks[j].text)
  {
    hide Good, Applied, Texts, Key;
    ApplyAddsOnce(t, session, message, orders, done, loops, lower, now);
    assert lower(t.tasks[j].text) in OpenKeys(t.tasks, session, lower);
  }

  /** And an order that says something is left out only if such a task, or one put there with it, says it already. */
  lemma NothingLeftOut(
    t: Table, session: Id, message: Id, orders: seq<Order>, done: seq<int>, loops: seq<Loop>, lower: Lowered, now: int,
    k: nat)
    requires Good(t) && k < |orders| && lower(Text.Trim(orders[k].text)) != ""
    ensures var r := Applied(t, session, message, orders, done, loops, lower, now).tasks;
            || (exists j :: 0 <= j < |t.tasks| && t.tasks[j].session == session && t.tasks[j].status == Open
                            && lower(t.tasks[j].text) == lower(Text.Trim(orders[k].text)))
            || (exists i :: |t.tasks| <= i < |r| && lower(r[i].text) == lower(Text.Trim(orders[k].text)))
  {
    hide Good, Applied, Text.Trim;
    ApplyAddsOnce(t, session, message, orders, done, loops, lower, now);
    var key := lower(Text.Trim(orders[k].text));
    assert Key(orders[k].text, lower) == key;
  }

  /** A late task gets one miss more and, from now, its minutes halved once for every miss, whole nanoseconds, but five
      minutes at least. */
  lemma RenewedIs(task: Task, now: int)
    requires 1 <= task.minutes <= 240 && task.expiries >= 0
    ensures var half := task.minutes * SIXTY_SECONDS / Pow2(task.expiries + 1);
            Renewed(task, now)
            == task.(expiries := task.expiries + 1,
                     deadline := now + if half < 5 * SIXTY_SECONDS then 5 * SIXTY_SECONDS else half)
  {
    hide Pow2, Wrap64;
    assert Minutes(task.minutes) == task.minutes * MINUTE;
  }

  /** Letting a session's clocks run out renews exactly its open tasks at or past their deadline. */
  lemma ExpireIs(tasks: seq<Task>, session: Id, now: int, i: nat)
    requires i < |tasks|
    ensures |Expired(tasks, session, now)| == |tasks|
    ensures Expired(tasks, session, now)[i]
            == if tasks[i].session == session && tasks[i].status == Open && tasks[i].deadline <= now
               then Renewed(tasks[i], now) else tasks[i]
  {
    hide Renewed;
  }

  lemma {:induction false} NextIsBeyond(tasks: seq<Task>, session: Id, i: nat)
    requires i < |tasks| && tasks[i].session == session
    ensures tasks[i].number < NextNumber(tasks, session)
  {
    var n := |tasks| - 1;
    if i < n {
      NextIsBeyond(tasks[..n], session, i);
    }
  }

  lemma NumbersDiffer(tasks: seq<Task>, i: nat, j: nat)
    requires InSequence(tasks) && i < j < |tasks| && tasks[i].session == tasks[j].session
    ensures tasks[i].number < tasks[j].number
  {
    assert NumberedNext(tasks, j);
    NextIsBeyond(tasks[..j], tasks[j].session, i);
  }

  lemma {:induction false} NumberedThere(tasks: seq<Task>, session: Id, number: int)
    ensures Numbered(tasks, session, number) == |tasks|
            ==> forall i :: 0 <= i < |tasks| ==> tasks[i].session != session || tasks[i].number != number
  {
    if tasks != [] { NumberedThere(tasks[..|tasks| - 1], session, number); }
  }

  lemma NumberedIs(tasks: seq<Task>, session: Id, number: int, i: nat)
    requires InSequence(tasks) && i < |tasks|
    ensures Numbered(tasks, session, number) == i <==> tasks[i].session == session && tasks[i].number == number
  {
    hide InSequence, Numbered;
    var k := Numbered(tasks, session, number);
    NumberedThere(tasks, session, number);
    if k < |tasks| && k != i && tasks[i].session == session && tasks[i].number == number {
      if k < i {
        NumbersDiffer(tasks, k, i);
      } else {
        NumbersDiffer(tasks, i, k);
      }
    }
  }

  /** The numbers a turn reports done complete, from now, the session's tasks with those numbers that were open when the
      turn began; every other task there was stays as it was. */
  lemma {:induction false} DoneIs(t: Table, session: Id, done: seq<int>, now: int, i: nat)
    requires Good(t) && i < |t.tasks|
    ensures var r := DoneAll(t.tasks, t, session, done, now).tasks;
            r[i] == if t.tasks[i].session == session && t.tasks[i].status == Open && t.tasks[i].number in done
                    then t.tasks[i].(status := Done, resolvedAt := Some(now)) else t.tasks[i]
  {
    assert Proper(t.tasks[i]);
    if done != [] {
      var n := |done| - 1;
      assert done == done[..n] + [done[n]];
      DoneIs(t, session, done[..n], now, i);
      NumberedIs(t.tasks, session, done[n], i);
      hide InSequence, Numbered;
    }
  }

  lemma TurnDoes(
    t: Table, session: Id, message: Id, orders: seq<Order>, done: seq<int>, loops: seq<Loop>, lower: Lowered, now: int, i: nat)
    requires Good(t) && i < |t.tasks|
    ensures var r := Applied(t, session, message, orders, done, loops, lower, now).tasks;
            && i < |r|
            && r[i] == if t.tasks[i].session == session && t.tasks[i].status == Open && t.tasks[i].number in done
                       then t.tasks[i].(status := Done, resolvedAt := Some(now)) else t.tasks[i]
  {
    hide DoneAll, OrderedAll, OpenKeys, Good, AllOrdered;
    DoneIs(t, session, done, now, i);
    var before := DoneAll(t.tasks, t, session, done, now);
    OrdersAre(before, OpenKeys(t.tasks, session, lower), session, message, orders, loops, lower, now);
    var r := Applied(t, session, message, orders, done, loops, lower, now).tasks;
    assert r[..|before.tasks|][i] == before.tasks[i];
  }
}
