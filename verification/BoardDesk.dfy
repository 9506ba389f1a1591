/** The board as the program runs it: rows read, changed and written back, one at a time. */
module BoardDesk {
  import opened Common
  import opened Clocks
  import opened Board
  import opened BoardLaws
  import Text

  class Desk {
    var tasks: seq<Task>
    var closing: seq<Id>

    function Value(): Table
      reads this
    {
      Table(tasks, closing)
    }

    constructor ()
      ensures Value() == EMPTY
    {
      tasks, closing := [], [];
    }

    /** Numbers a task after its session's last one. */
    method Create(task: Task)
      modifies this
      ensures Value() == Created(old(Value()), task)
    {
      var last := 0;
      for i := 0 to |tasks|
        invariant last + 1 == NextNumber(tasks[..i], task.session)
      {
        assert tasks[..i + 1][..i] == tasks[..i];
        if tasks[i].session == task.session && tasks[i].number > last {
          last := tasks[i].number;
        }
      }
      assert tasks[..|tasks|] == tasks;
      tasks := tasks + [task.(number := last + 1, expiries := 0, resolvedAt := None)];
    }

    method Add(session: Id, text: string, minutes: int, now: int) returns (answer: Answer)
      modifies this
      ensures (Value(), answer) == Added(old(Value()), session, text, minutes, now)
    {
      var line := Text.Trim(text);
      if line == "" {
        return Refused(EmptyText);
      }
      var m := ClampMinutes(minutes);
      Create(Task(session, None, 0, line, m, now + Minutes(m), Open, 0, None, None));
      return Fine;
    }

    method Change(id: Id, edit: Edit, now: int) returns (answer: Answer)
      modifies this
      ensures (Value(), answer) == Edited(old(Value()), id, edit, now)
    {
      if id >= |tasks| {
        return Refused(NotFound);
      }
      var t := tasks[id];
      if t.Resolved() {
        return Refused(BadTransition);
      }
      if edit.text.Some? {
        var line := Text.Trim(edit.text.value);
        if line == "" {
          return Refused(EmptyText);
        }
        t := t.(text := line);
      }
      if edit.minutes.Some? {
        var m := ClampMinutes(edit.minutes.value);
        t := t.(minutes := m, deadline := now + Minutes(m));
      }
      if edit.extend != 0 {
        t := t.(deadline := t.deadline + Minutes(edit.extend));
        var floor := now + MINUTE;
        if t.deadline < floor {
          t := t.(deadline := floor);
        }
      }
      tasks := tasks[id := t];
      return Fine;
    }

    method Complete(id: Id, now: int) returns (answer: Answer)
      modifies this
      ensures (Value(), answer) == Completed(old(Value()), id, now)
    {
      if id >= |tasks| {
        return Refused(NotFound);
      }
      match tasks[id].status
      case Done =>
        return Fine;
      case Abandoned =>
        return Refused(BadTransition);
      case Open =>
        closing := closing + Asked(tasks[id]);
        tasks := tasks[id := Resolve(tasks[id], Done, now)];
        return Fine;
    }

    method Abandon(id: Id, now: int) returns (answer: Answer)
      modifies this
      ensures (Value(), answer) == Struck(old(Value()), id, now)
    {
      if id >= |tasks| {
        return Refused(NotFound);
      }
      if tasks[id].Resolved() {
        return Refused(BadTransition);
      }
      tasks := tasks[id := Resolve(tasks[id], Abandoned, now)];
      return Fine;
    }

    method Rearm(id: Id, now: int, deadline: int) returns (ok: bool)
      modifies this
      ensures (Value(), ok) == Rearmed(old(Value()), id, now, deadline)
    {
      if id >= |tasks| || !tasks[id].Overdue(now) {
        return false;
      }
      tasks := tasks[id := tasks[id].(expiries := tasks[id].expiries + 1, deadline := deadline)];
      return true;
    }

    /** Re-arms the session's late tasks and tells of exactly those, in number order. */
    method Expire(session: Id, now: int) returns (expired: seq<Task>)
      modifies this
      ensures Value() == old(Value()).(tasks := Expired(old(tasks), session, now))
      ensures Picks(expired, tasks, LatePlaces(old(tasks), session, now))
    {
      hide Window, Renewed, LatePlaces;
      ghost var was := tasks;
      var listed := tasks;
      expired := [];
      ghost var late: seq<nat> := [];
      LateUpTo(was, session, now, 0);
      ghost var renewed := Expired(was, session, now);
      for i := 0 to |listed|
        invariant closing == old(closing) && listed == was && |tasks| == |was|
        invariant tasks == Expired(was[..i], session, now) + was[i..]
        invariant late == LatePlaces(was[..i], session, now)
        invariant Picks(expired, renewed, late)
      {
        hide Expired, Picks;
        var t := listed[i];
        ExpiredUpTo(was, session, now, i);
        LateUpTo(was, session, now, i + 1);
        if t.session != session || !t.Overdue(now) {
          continue;
        }
        var window := RearmWindow(t.minutes, t.expiries + 1);
        RenewedIs(t, now);
        var ok := Rearm(i, now, now + window);
        if ok {
          PicksOneMore(expired, renewed, late, i);
          expired := expired + [tasks[i]];
        }
        late := late + [i];
      }
      assert was[..|was|] == was && was[|was|..] == [];
    }

    /** Completes the session's tasks named, and tells of every named one that is now done. */
    method Report(session: Id, ids: seq<Id>, now: int) returns (out: seq<Task>)
      requires Good(Value())
      modifies this
      ensures Value() == Step(old(Value()), Call.Report(session, ids, now))
      ensures out == Told(tasks, session, ids)
    {
      ghost var was := Value();
      out := [];
      for k := 0 to |ids|
        invariant Good(was) && Value() == ReportedAll(was, session, ids[..k], now)
        invariant out == Told(tasks, session, ids[..k])
      {
        hide Good, ReportedAll, Told;
        assert ids[..k + 1] == ids[..k] + [ids[k]];
        ReportOneMore(was, session, ids[..k], ids[k], now);
        var id := ids[k];
        if id >= |tasks| {
          continue;
        }
        if tasks[id].session != session {
          continue;
        }
        var answer := Complete(id, now);
        if answer != Fine {
          continue;
        }
        out := out + [tasks[id]];
      }
      assert ids[..|ids|] == ids;
    }

    /** Abandons whatever the session still has open. */
    method StandDown(session: Id, now: int)
      modifies this
      ensures Value() == Step(old(Value()), Call.StandDown(session, now))
    {
      ghost var was := tasks;
      for i := 0 to |tasks|
        invariant closing == old(closing) && |tasks| == |was|
        invariant tasks == StoodDown(was, session, now)[..i] + was[i..]
      {
        StoodDownUpTo(was, session, now, i);
        hide StoodDown, Resolve;
        if tasks[i].session != session || tasks[i].status != Open {
          continue;
        }
        tasks := tasks[i := Resolve(tasks[i], Abandoned, now)];
      }
    }

    /** Records a turn: the numbers it reports done, then the orders not on the board yet. */
    method Apply(
        session: Id, message: Id, orders: seq<Order>, done: seq<int>, loops: seq<Loop>, lower: Lowered, now: int)
      requires Good(Value())
      modifies this
      ensures Value() == Step(old(Value()), Call.Apply(session, message, orders, done, loops, lower, now))
    {
      hide Good, NextNumber, DoneAll, OrderedAll, Numbered, Text.Trim, LoopFor, ClampMinutes, Minutes;
      ghost var was := Value();
      var listed := tasks;
      var bySeq, open := Index(listed, session, lower);
      NothingApplied(was, open, session, message, done, orders, loops, lower, now);
      for k := 0 to |done|
        invariant Value() == DoneAll(listed, was, session, done[..k], now)
      {
        assert done[..k + 1] == done[..k] + [done[k]];
        DoneOneMore(was, session, done[..k], done[k], now);
        if done[k] !in bySeq || listed[bySeq[done[k]]].status != Open {
          continue;
        }
        var i := bySeq[done[k]];
        tasks := tasks[i := Resolve(tasks[i], Done, now)];
        closing := closing + Asked(listed[i]);
      }
      assert done[..|done|] == done;
      ghost var marked := Value();
      ghost var before := open;
      for k := 0 to |orders|
        invariant (Value(), open) == OrderedAll(marked, before, session, message, orders[..k], loops, lower, now)
      {
        assert orders[..k + 1] == orders[..k] + [orders[k]];
        OrderOneMore(marked, before, session, message, orders[..k], orders[k], loops, lower, now);
        var key := lower(Text.Trim(orders[k].text));
        if key == "" || key in open {
          continue;
        }
        open := open + {key};
        var commitment := FindLoop(loops, orders[k].loop);
        var m := ClampMinutes(orders[k].minutes);
        Create(Task(session, Some(message), 0, Text.Trim(orders[k].text), m, now + Minutes(m), Open, 0, commitment, None));
      }
      assert orders[..|orders|] == orders;
    }
  }

  lemma ReportOneMore(t: Table, session: Id, ids: seq<Id>, id: Id, now: int)
    requires Good(t)
    ensures var before, after := ReportedAll(t, session, ids, now), ReportedAll(t, session, ids + [id], now);
            && after == (if Reported(before.tasks, session, id) then Completed(before, id, now).0 else before)
            && Told(after.tasks, session, ids + [id])
               == Told(before.tasks, session, ids)
                  + if id < |after.tasks| && after.tasks[id].session == session && after.tasks[id].status == Done
                    then [after.tasks[id]] else []
  {
    hide Good;
    ToldSoFar(t, session, ids, id, now);
    assert (ids + [id])[..|ids|] == ids;
  }

  /** The tasks at these places, in order. */
  ghost predicate Picks(out: seq<Task>, tasks: seq<Task>, places: seq<nat>) {
    |out| == |places| && forall k :: 0 <= k < |places| ==> places[k] < |tasks| && out[k] == tasks[places[k]]
  }

  lemma PicksOneMore(out: seq<Task>, tasks: seq<Task>, places: seq<nat>, i: nat)
    requires Picks(out, tasks, places) && i < |tasks|
    ensures Picks(out + [tasks[i]], tasks, places + [i])
  {
  }

  lemma NothingApplied(
    t: Table, open: set<string>, session: Id, message: Id, done: seq<int>, orders: seq<Order>, loops: seq<Loop>,
    lower: Lowered, now: int)
    ensures DoneAll(t.tasks, t, session, done[..0], now) == t
    ensures forall u: Table :: OrderedAll(u, open, session, message, orders[..0], loops, lower, now) == (u, open)
  {
  }

  lemma OrderOneMore(
    t: Table, open: set<string>, session: Id, message: Id, orders: seq<Order>, order: Order, loops: seq<Loop>,
    lower: Lowered, now: int)
    ensures var (before, keys) := OrderedAll(t, open, session, message, orders, loops, lower, now);
            var key := Key(order.text, lower);
            OrderedAll(t, open, session, message, orders + [order], loops, lower, now)
            == if key == "" || key in keys then (before, keys)
               else (Created(before, Ordered(session, message, order, loops, now)), keys + {key})
  {
    assert (orders + [order])[..|orders|] == orders;
  }

  lemma RenewedIs(t: Task, now: int)
    ensures Renewed(t, now) == t.(expiries := t.expiries + 1, deadline := now + Window(t.minutes, t.expiries + 1))
  {
  }

  lemma LateUpTo(tasks: seq<Task>, session: Id, now: int, i: nat)
    requires i <= |tasks|
    ensures i == 0 ==> LatePlaces(tasks[..i], session, now) == []
    ensures i > 0 ==>
              LatePlaces(tasks[..i], session, now)
              == LatePlaces(tasks[..i - 1], session, now)
                 + if tasks[i - 1].session == session && tasks[i - 1].Overdue(now) then [i - 1] else []
  {
    if i > 0 {
      assert tasks[..i][..i - 1] == tasks[..i - 1];
    }
  }

  lemma StoodDownUpTo(tasks: seq<Task>, session: Id, now: int, i: nat)
    requires i < |tasks|
    ensures var done := StoodDown(tasks, session, now);
            && done[..i + 1] + tasks[i + 1..] == (done[..i] + tasks[i..])[i := done[i]]
            && (done[..i] + tasks[i..])[i] == tasks[i]
            && done[i] == (if tasks[i].session == session && tasks[i].status == Open then Resolve(tasks[i], Abandoned, now)
                           else tasks[i])
            && (done[i] == tasks[i] ==> done[..i + 1] + tasks[i + 1..] == done[..i] + tasks[i..])
  {
    hide Resolve;
  }

  lemma ExpiredUpTo(tasks: seq<Task>, session: Id, now: int, i: nat)
    requires i < |tasks|
    ensures var next := if tasks[i].session == session && tasks[i].Overdue(now) then Renewed(tasks[i], now) else tasks[i];
            && Expired(tasks[..i + 1], session, now) + tasks[i + 1..]
               == (Expired(tasks[..i], session, now) + tasks[i..])[i := next]
            && (Expired(tasks[..i], session, now) + tasks[i..])[i] == tasks[i]
            && Expired(tasks, session, now)[i] == next
  {
    hide Renewed;
  }

  /** The session's tasks by number, and the texts of the open ones. */
  method Index(listed: seq<Task>, session: Id, lower: Lowered) returns (bySeq: map<int, nat>, open: set<string>)
    ensures open == OpenKeys(listed, session, lower)
    ensures Indexes(bySeq, listed, session)
  {
    bySeq, open := map[], {};
    for i := 0 to |listed|
      invariant open == OpenKeys(listed[..i], session, lower)
      invariant Indexes(bySeq, listed[..i], session)
    {
      hide *;
      assert listed[..i + 1] == listed[..i] + [listed[i]];
      KeysOneMore(listed[..i], listed[i], session, lower);
      IndexesOneMore(bySeq, listed[..i], listed[i], session);
      if listed[i].session != session {
        continue;
      }
      bySeq := bySeq[listed[i].number := i];
      if listed[i].status == Open {
        open := open + {lower(listed[i].text)};
      }
    }
    assert listed[..|listed|] == listed;
  }

  ghost predicate Indexes(bySeq: map<int, nat>, tasks: seq<Task>, session: Id) {
    forall n: int :: if n in bySeq then bySeq[n] == Numbered(tasks, session, n) < |tasks|
                     else Numbered(tasks, session, n) == |tasks|
  }

  lemma IndexesOneMore(bySeq: map<int, nat>, tasks: seq<Task>, task: Task, session: Id)
    requires Indexes(bySeq, tasks, session)
    ensures Indexes(if task.session == session then bySeq[task.number := |tasks|] else bySeq, tasks + [task], session)
  {
    hide Numbered;
    NumberedOneMore(tasks, task, session);
  }

  lemma NumberedOneMore(tasks: seq<Task>, task: Task, session: Id)
    ensures forall n: int :: Numbered(tasks + [task], session, n)
                             == if task.session == session && task.number == n then |tasks|
                                else if Numbered(tasks, session, n) == |tasks| then |tasks| + 1
                                else Numbered(tasks, session, n)
  {
    assert (tasks + [task])[..|tasks|] == tasks;
  }

  lemma KeysOneMore(tasks: seq<Task>, task: Task, session: Id, lower: Lowered)
    ensures OpenKeys(tasks + [task], session, lower)
            == OpenKeys(tasks, session, lower)
               + if task.session == session && task.status == Open then {lower(task.text)} else {}
  {
    var all := tasks + [task];
    assert all[|tasks|] == task;
    forall i | 0 <= i < |tasks|
      ensures all[i] == tasks[i]
    {
    }
    forall key
      ensures key in OpenKeys(all, session, lower)
              <==> key in OpenKeys(tasks, session, lower)
                   || (task.session == session && task.status == Open && key == lower(task.text))
    {
      if key in OpenKeys(tasks, session, lower) {
        var i :| 0 <= i < |tasks| && tasks[i].session == session && tasks[i].status == Open && key == lower(tasks[i].text);
        assert all[i] == tasks[i];
      }
    }
  }

  method FindLoop(loops: seq<Loop>, number: int) returns (found: Option<Id>)
    ensures found == LoopFor(loops, number)
  {
    found := None;
    for k := 0 to |loops|
      invariant found == LoopFor(loops[..k], number)
    {
      assert loops[..k + 1][..k] == loops[..k];
      if loops[k].number == number {
        found := Some(loops[k].id);
      }
    }
    assert loops[..|loops|] == loops;
  }

  /** Keeps the numbers an answer reports done; `said` has what could be read between the commas. */
  method ReadNumbers(said: seq<Option<int>>) returns (done: seq<int>)
    ensures done == Flagged(said)
  {
    done := [];
    for i := 0 to |said|
      invariant done == Flagged(said[..i])
    {
      assert said[..i + 1][..i] == said[..i];
      if said[i].Some? && said[i].value > 0 && said[i].value !in done {
        done := done + [said[i].value];
      }
    }
    assert said[..|said|] == said;
  }
}
