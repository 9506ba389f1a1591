/** The beast board, where every order has a deadline.  A task's identifier is its place in the table; moments are
    counted in nanoseconds and come with the call. */
module Board {
  import opened Common
  import opened Clocks
  import Sequences
  import Text

  type Id = nat

  datatype Status = Open | Done | Abandoned

  datatype Task = Task(
    session: Id, message: Option<Id>, number: nat, text: string, minutes: int, deadline: int, status: Status,
    expiries: int, commitment: Option<Id>, resolvedAt: Option<int>)
  {
    predicate Resolved() {
      status != Open
    }

    /** Still open at or after its deadline. */
    predicate Overdue(now: int) {
      status == Open && deadline <= now
    }
  }

  datatype Order = Order(text: string, minutes: int, loop: int)

  datatype Loop = Loop(number: int, id: Id)

  datatype Edit = Edit(text: Option<string>, minutes: Option<int>, extend: int)

  /** The table, and the open loops it has asked to be closed, in order. */
  datatype Table = Table(tasks: seq<Task>, closing: seq<Id>)

  datatype Error = NotFound | BadTransition | EmptyText

  datatype Answer = Fine | Refused(error: Error)

  type Lowered = string -> string

  datatype Call =
    | Add(session: Id, text: string, minutes: int, now: int)
    | Change(id: Id, edit: Edit, now: int)
    | Complete(id: Id, now: int)
    | Abandon(id: Id, now: int)
    | Report(session: Id, ids: seq<Id>, now: int)
    | Apply(session: Id, message: Id, orders: seq<Order>, done: seq<int>, loops: seq<Loop>, lower: Lowered, now: int)
    | StandDown(session: Id, now: int)

  const EMPTY := Table([], [])

  // ---------- The table ----------

  /** One more than the last number of the session. */
  function NextNumber(tasks: seq<Task>, session: Id): (n: nat)
    ensures n >= 1
  {
    if tasks == [] then 1
    else
      var n := NextNumber(tasks[..|tasks| - 1], session);
      var last := tasks[|tasks| - 1];
      if last.session == session && last.number >= n then last.number + 1 else n
  }

  function Created(t: Table, task: Task): Table {
    t.(tasks := t.tasks + [task.(number := NextNumber(t.tasks, task.session), expiries := 0, resolvedAt := None)])
  }

  /** The places of a session's tasks, in number order. */
  function Listed(tasks: seq<Task>, session: Id): (r: seq<nat>)
    ensures forall k :: 0 <= k < |r| ==> r[k] < |tasks| && tasks[r[k]].session == session
  {
    if tasks == [] then []
    else
      Listed(tasks[..|tasks| - 1], session)
      + (if tasks[|tasks| - 1].session == session then [|tasks| - 1] else [])
  }

  function Resolve(task: Task, status: Status, now: int): Task {
    task.(status := status, resolvedAt := if task.resolvedAt.Some? then task.resolvedAt else Some(now))
  }

  function NewTask(session: Id, message: Option<Id>, text: string, minutes: int, commitment: Option<Id>, now: int): Task {
    Task(session, message, 0, text, ClampMinutes(minutes), now + Minutes(ClampMinutes(minutes)), Open, 0, commitment, None)
  }

  // ---------- One task at a time ----------

  function Added(t: Table, session: Id, text: string, minutes: int, now: int): (Table, Answer) {
    if Text.Trim(text) == "" then (t, Refused(EmptyText))
    else (Created(t, NewTask(session, None, Text.Trim(text), minutes, None, now)), Fine)
  }

  /** A new clock counts from now; a moved one is never left closer than a minute. */
  function Reclocked(task: Task, edit: Edit, now: int): Task {
    var restarted := if edit.minutes.None? then task
                     else
                       var m := ClampMinutes(edit.minutes.value);
                       task.(minutes := m, deadline := now + Minutes(m));
    if edit.extend == 0 then restarted
    else restarted.(deadline := Max(restarted.deadline + Minutes(edit.extend), now + MINUTE))
  }

  function Edited(t: Table, id: Id, edit: Edit, now: int): (Table, Answer) {
    if id >= |t.tasks| then (t, Refused(NotFound))
    else if t.tasks[id].Resolved() then (t, Refused(BadTransition))
    else if edit.text.Some? && Text.Trim(edit.text.value) == "" then (t, Refused(EmptyText))
    else
      var task := Reclocked(t.tasks[id], edit, now);
      (t.(tasks := t.tasks[id := if edit.text.Some? then task.(text := Text.Trim(edit.text.value)) else task]), Fine)
  }

  function Asked(task: Task): seq<Id> {
    if task.commitment.Some? then [task.commitment.value] else []
  }

  /** Reporting a task done twice changes nothing; an abandoned one cannot be. */
  function Completed(t: Table, id: Id, now: int): (Table, Answer) {
    if id >= |t.tasks| then (t, Refused(NotFound))
    else
      match t.tasks[id].status
      case Done => (t, Fine)
      case Abandoned => (t, Refused(BadTransition))
      case Open => (Table(t.tasks[id := Resolve(t.tasks[id], Done, now)], t.closing + Asked(t.tasks[id])), Fine)
  }

  function Struck(t: Table, id: Id, now: int): (Table, Answer) {
    if id >= |t.tasks| then (t, Refused(NotFound))
    else if t.tasks[id].Resolved() then (t, Refused(BadTransition))
    else (t.(tasks := t.tasks[id := Resolve(t.tasks[id], Abandoned, now)]), Fine)
  }

  /** The conditional update: only a task still open and still late is re-armed. */
  function Rearmed(t: Table, id: Id, now: int, deadline: int): (Table, bool) {
    if id >= |t.tasks| || !t.tasks[id].Overdue(now) then (t, false)
    else (t.(tasks := t.tasks[id := t.tasks[id].(expiries := t.tasks[id].expiries + 1, deadline := deadline)]), true)
  }

  // ---------- A session at a time ----------

  function StoodDown(tasks: seq<Task>, session: Id, now: int): (r: seq<Task>)
    ensures |r| == |tasks|
  {
    seq(|tasks|, i requires 0 <= i < |tasks| =>
      if tasks[i].session == session && tasks[i].status == Open then Resolve(tasks[i], Abandoned, now) else tasks[i])
  }

  predicate Reported(tasks: seq<Task>, session: Id, id: Id) {
    id < |tasks| && tasks[id].session == session && tasks[id].status == Open
  }

  /** Each named task of the session, in turn, is completed. */
  function ReportedAll(t: Table, session: Id, ids: seq<Id>, now: int): Table {
    if ids == [] then t
    else
      var before := ReportedAll(t, session, ids[..|ids| - 1], now);
      if Reported(before.tasks, session, ids[|ids| - 1]) then Completed(before, ids[|ids| - 1], now).0 else before
  }

  /** The named tasks of the session that are done, in the order named. */
  function Told(tasks: seq<Task>, session: Id, ids: seq<Id>): seq<Task> {
    if ids == [] then []
    else
      var id := ids[|ids| - 1];
      Told(tasks, session, ids[..|ids| - 1])
      + (if id < |tasks| && tasks[id].session == session && tasks[id].status == Done then [tasks[id]] else [])
  }

  /** What decides whether an order is on the board already. */
  function Key(text: string, lower: Lowered): string {
    lower(Text.Trim(text))
  }

  function OpenKeys(tasks: seq<Task>, session: Id, lower: Lowered): set<string> {
    set i | 0 <= i < |tasks| && tasks[i].session == session && tasks[i].status == Open :: lower(tasks[i].text)
  }

  /** The last loop with the order's number. */
  function LoopFor(loops: seq<Loop>, number: int): Option<Id> {
    if loops == [] then None
    else if loops[|loops| - 1].number == number then Some(loops[|loops| - 1].id)
    else LoopFor(loops[..|loops| - 1], number)
  }

  function Ordered(session: Id, message: Id, order: Order, loops: seq<Loop>, now: int): Task {
    NewTask(session, Some(message), Text.Trim(order.text), order.minutes, LoopFor(loops, order.loop), now)
  }

  /** Orders not on the board yet are put there, each once. */
  function OrderedAll(
    t: Table, open: set<string>, session: Id, message: Id, orders: seq<Order>, loops: seq<Loop>, lower: Lowered, now: int)
    : (r: (Table, set<string>))
  {
    if orders == [] then (t, open)
    else
      var (before, keys) := OrderedAll(t, open, session, message, orders[..|orders| - 1], loops, lower, now);
      var order := orders[|orders| - 1];
      var key := Key(order.text, lower);
      if key == "" || key in keys then (before, keys)
      else (Created(before, Ordered(session, message, order, loops, now)), keys + {key})
  }

  /** The place of the session's task with a number, as it was listed; the length where there is none. */
  function Numbered(tasks: seq<Task>, session: Id, number: int): (i: nat)
    ensures i <= |tasks|
    ensures i < |tasks| ==> tasks[i].session == session && tasks[i].number == number
  {
    if tasks == [] then 0
    else if tasks[|tasks| - 1].session == session && tasks[|tasks| - 1].number == number then |tasks| - 1
    else
      var i := Numbered(tasks[..|tasks| - 1], session, number);
      if i == |tasks| - 1 then |tasks| else i
  }

  /** The numbers reported done in an answer, each once; what could not be read as a number is missing. */
  function Flagged(said: seq<Option<int>>): seq<int> {
    if said == [] then []
    else
      var before := Flagged(said[..|said| - 1]);
      var n := said[|said| - 1];
      if n.Some? && n.value > 0 && n.value !in before then before + [n.value] else before
  }

  predicate NoneTwice(done: seq<int>) {
    forall j, k :: 0 <= j < k < |done| ==> done[j] != done[k]
  }

  /** Each number reported done, where it named an open task when the board was listed.  A number given twice would be
      written twice, and ask for its loop twice. */
  function DoneAll(listed: seq<Task>, t: Table, session: Id, done: seq<int>, now: int): (r: Table)
    requires |t.tasks| == |listed|
    ensures |r.tasks| == |listed|
  {
    if done == [] then t
    else
      var before := DoneAll(listed, t, session, done[..|done| - 1], now);
      var i := Numbered(listed, session, done[|done| - 1]);
      if i < |listed| && listed[i].status == Open then
        Table(before.tasks[i := Resolve(before.tasks[i], Done, now)], before.closing + Asked(listed[i]))
      else before
  }

  function Applied(
    t: Table, session: Id, message: Id, orders: seq<Order>, done: seq<int>, loops: seq<Loop>, lower: Lowered, now: int): Table
  {
    OrderedAll(DoneAll(t.tasks, t, session, done, now), OpenKeys(t.tasks, session, lower), session, message, orders, loops,
               lower, now).0
  }

  // ---------- The clocks that ran out ----------

  /** A task with the clock it gets for missing its deadline once more. */
  function Renewed(task: Task, now: int): Task {
    task.(expiries := task.expiries + 1, deadline := now + Window(task.minutes, task.expiries + 1))
  }

  /** One re-arm to try: what the listing of the board came to. */
  datatype Shot = Shot(id: Id, now: int, deadline: int)

  /** The shots for the places listed, skipping what is not overdue. */
  function Shots(tasks: seq<Task>, places: seq<nat>, now: int): seq<Shot>
    requires forall k :: 0 <= k < |places| ==> places[k] < |tasks|
  {
    if places == [] then []
    else
      var last := places[|places| - 1];
      Shots(tasks, places[..|places| - 1], now)
      + (if tasks[last].Overdue(now) then [Shot(last, now, Renewed(tasks[last], now).deadline)] else [])
  }

  function Aimed(tasks: seq<Task>, session: Id, now: int): seq<Shot> {
    Shots(tasks, Listed(tasks, session), now)
  }

  /** Every late task of the session with its new clock. */
  function Expired(tasks: seq<Task>, session: Id, now: int): (r: seq<Task>)
    ensures |r| == |tasks|
  {
    seq(|tasks|, i requires 0 <= i < |tasks| =>
      if tasks[i].session == session && tasks[i].Overdue(now) then Renewed(tasks[i], now) else tasks[i])
  }

  /** The places of a session's late tasks, in number order. */
  function LatePlaces(tasks: seq<Task>, session: Id, now: int): (r: seq<nat>)
    ensures forall k :: 0 <= k < |r| ==> r[k] < |tasks|
    ensures forall i :: i in r <==> 0 <= i < |tasks| && tasks[i].session == session && tasks[i].Overdue(now)
    ensures forall j, k :: 0 <= j < k < |r| ==> r[j] < r[k]
  {
    if tasks == [] then []
    else
      var n := |tasks| - 1;
      assert tasks == tasks[..n] + [tasks[n]];
      var front := LatePlaces(tasks[..n], session, now);
      if tasks[n].session == session && tasks[n].Overdue(now) then front + [n] else front
  }

  // ---------- One step ----------

  function Step(t: Table, call: Call): Table {
    match call
    case Add(session, text, minutes, now) => Added(t, session, text, minutes, now).0
    case Change(id, edit, now) => Edited(t, id, edit, now).0
    case Complete(id, now) => Completed(t, id, now).0
    case Abandon(id, now) => Struck(t, id, now).0
    case Report(session, ids, now) => ReportedAll(t, session, ids, now)
    case Apply(session, message, orders, done, loops, lower, now) =>
      Applied(t, session, message, orders, done, loops, lower, now)
    case StandDown(session, now) => t.(tasks := StoodDown(t.tasks, session, now))
  }

  function Run(t: Table, calls: seq<Call>): Table {
    if calls == [] then t else Step(Run(t, calls[..|calls| - 1]), calls[|calls| - 1])
  }
}
