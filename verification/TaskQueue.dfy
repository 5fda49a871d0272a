/** packages/agent-runtime/src/task-queue.ts: one ordered list standing for four FIFO lanes. */
module TaskQueue {
  import opened Wrappers

  datatype Priority = Critical | High | Normal | Low

  function Weight(p: Priority): nat {
    match p
    case Critical => 0
    case High => 1
    case Normal => 2
    case Low => 3
  }

  /** The first is to be taken up before the second, whenever both wait. */
  predicate MoreUrgent(a: Priority, b: Priority) {
    match b
    case Critical => false
    case High => a.Critical?
    case Normal => a.Critical? || a.High?
    case Low => !a.Low?
  }

  datatype TaskStatus = Pending | Planning | Queued | Running | Completed | Failed | Cancelled

  datatype TaskId = TaskId(text: string)

  datatype Task = Task(
    id: TaskId, priority: Priority, status: TaskStatus, attempts: nat, maxAttempts: int,
    timeout: int, startedAt: Option<int>, error: Option<string>)

  type Tasks = map<TaskId, Task>

  // --- the four lanes ----------------------------------------------------------------------

  ghost predicate Known(order: seq<TaskId>, tasks: Tasks) {
    forall id :: id in order ==> id in tasks
  }

  /** The ids of one weight, in order. */
  ghost function Lane(order: seq<TaskId>, tasks: Tasks, w: nat): seq<TaskId> {
    if order == [] then [] else OwnLane(order[0], tasks, w) + Lane(order[1..], tasks, w)
  }

  /** The lane of this weight, if the id were the only one. */
  ghost function OwnLane(id: TaskId, tasks: Tasks, w: nat): seq<TaskId> {
    if id in tasks && Weight(tasks[id].priority) == w then [id] else []
  }

  function Without(order: seq<TaskId>, id: TaskId): (r: seq<TaskId>)
    ensures forall x :: x in r <==> x in order && x != id
  {
    if order == [] then []
    else
      assert order == [order[0]] + order[1..];
      (if order[0] == id then [] else [order[0]]) + Without(order[1..], id)
  }

  ghost predicate ByWeight(order: seq<TaskId>, tasks: Tasks)
    requires Known(order, tasks)
  {
    forall i, j :: 0 <= i < j < |order| ==> Weight(tasks[order[i]].priority) <= Weight(tasks[order[j]].priority)
  }

  lemma {:induction false} LaneConcat(a: seq<TaskId>, b: seq<TaskId>, tasks: Tasks, w: nat)
    ensures Lane(a + b, tasks, w) == Lane(a, tasks, w) + Lane(b, tasks, w)
    decreases |a|
  {
    if a == [] {
      assert a + b == b;
    } else {
      LaneConcat(a[1..], b, tasks, w);
      LaneOnTop(a[0], a[1..] + b, tasks, w);
      Regroup([a[0]], a[1..], b);
      assert [a[0]] + a[1..] == a;
    }
  }

  lemma LaneOnTop(id: TaskId, rest: seq<TaskId>, tasks: Tasks, w: nat)
    ensures Lane([id] + rest, tasks, w) == OwnLane(id, tasks, w) + Lane(rest, tasks, w)
  {
    assert ([id] + rest)[1..] == rest;
  }

  lemma {:induction false} LaneEmpty(order: seq<TaskId>, tasks: Tasks, w: nat)
    requires forall id :: id in order && id in tasks ==> Weight(tasks[id].priority) != w
    ensures Lane(order, tasks, w) == []
  {
    if order != [] {
      assert order[0] in order;
      LaneEmpty(order[1..], tasks, w);
    }
  }

  lemma {:induction false} LaneWithout(order: seq<TaskId>, tasks: Tasks, id: TaskId, w: nat)
    requires Known(order, tasks)
    ensures Known(Without(order, id), tasks)
    ensures Lane(Without(order, id), tasks, w) == Without(Lane(order, tasks, w), id)
  {
    if order != [] {
      LaneWithout(order[1..], tasks, id, w);
      var head := if Weight(tasks[order[0]].priority) == w then [order[0]] else [];
      assert order == [order[0]] + order[1..];
      if order[0] == id {
        WithoutConcat(head, Lane(order[1..], tasks, w), id);
        assert Without(head, id) == [];
        assert Without(order, id) == Without(order[1..], id);
      } else {
        var rest := Without(order[1..], id);
        assert ([order[0]] + rest)[1..] == rest;
        WithoutConcat(head, Lane(order[1..], tasks, w), id);
        assert Without(head, id) == head;
      }
    }
  }

  lemma {:induction false} WithoutConcat(a: seq<TaskId>, b: seq<TaskId>, id: TaskId)
    ensures Without(a + b, id) == Without(a, id) + Without(b, id)
  {
    if a == [] {
      assert a + b == b;
    } else {
      assert (a + b)[1..] == a[1..] + b;
      WithoutConcat(a[1..], b, id);
    }
  }

  lemma {:induction false} LaneSameTasks(order: seq<TaskId>, a: Tasks, b: Tasks, w: nat)
    requires Known(order, a) && Known(order, b) && forall id :: id in order ==> a[id].priority == b[id].priority
    ensures Lane(order, a, w) == Lane(order, b, w)
  {
    if order != [] {
      assert order[0] in order;
      LaneSameTasks(order[1..], a, b, w);
    }
  }

  lemma {:induction false} WithoutIsPlain(order: seq<TaskId>, id: TaskId)
    requires id !in order
    ensures Without(order, id) == order
  {
    if order != [] {
      WithoutIsPlain(order[1..], id);
      assert order == [order[0]] + order[1..];
    }
  }

  /** Splicing out the only occurrence. */
  lemma {:induction false} SpliceIsWithout(order: seq<TaskId>, at: nat)
    requires NoDuplicates(order) && at < |order|
    ensures order[..at] + order[at + 1..] == Without(order, order[at])
    decreases |order|
  {
    var rest := order[1..];
    if at == 0 {
      WithoutIsPlain(rest, order[0]);
      assert order[..at] + order[at + 1..] == rest;
    } else {
      SpliceIsWithout(rest, at - 1);
      assert order[..at] + order[at + 1..] == [order[0]] + (rest[..at - 1] + rest[at..]);
    }
  }

  lemma SubsequenceKept(order: seq<TaskId>, tasks: Tasks, at: nat)
    requires NoDuplicates(order) && Known(order, tasks) && ByWeight(order, tasks) && at < |order|
    ensures NoDuplicates(order[..at] + order[at + 1..]) && Known(order[..at] + order[at + 1..], tasks)
    ensures ByWeight(order[..at] + order[at + 1..], tasks)
  {
    var r := order[..at] + order[at + 1..];
    forall i | 0 <= i < |r| ensures r[i] == order[if i < at then i else i + 1] {}
    forall id | id in r ensures id in tasks {
      var i :| 0 <= i < |r| && r[i] == id;
      assert order[if i < at then i else i + 1] in order;
    }
  }

  /** Inserting behind everything at least as urgent appends to the task's own lane alone. */
  lemma InsertIntoLane(r: seq<TaskId>, tasks: Tasks, task: Task, at: nat, w: nat)
    requires Known(r, tasks) && task.id !in r && at <= |r|
    requires Known(r, tasks[task.id := task]) && ByWeight(r, tasks[task.id := task])
    requires forall i :: 0 <= i < at ==> Weight(tasks[task.id := task][r[i]].priority) <= Weight(task.priority)
    requires at < |r| ==> Weight(tasks[task.id := task][r[at]].priority) > Weight(task.priority)
    ensures Known(r[..at] + [task.id] + r[at..], tasks[task.id := task])
    ensures Lane(r[..at] + [task.id] + r[at..], tasks[task.id := task], w)
         == Lane(r, tasks, w) + (if w == Weight(task.priority) then [task.id] else [])
  {
    var now := tasks[task.id := task];
    LaneSameTasks(r, tasks, now, w);
    LaneSplices(r, task.id, now, at, w);
    if w == Weight(task.priority) {
      NoLaneBehind(r, now, at, w);
    }
  }

  lemma LaneSplices(r: seq<TaskId>, id: TaskId, tasks: Tasks, at: nat, w: nat)
    requires at <= |r|
    ensures Lane(r, tasks, w) == Lane(r[..at], tasks, w) + Lane(r[at..], tasks, w)
    ensures Lane(r[..at] + [id] + r[at..], tasks, w) ==
      Lane(r[..at], tasks, w) + OwnLane(id, tasks, w) + Lane(r[at..], tasks, w)
  {
    assert r == r[..at] + r[at..];
    LaneConcat(r[..at], r[at..], tasks, w);
    LaneAround(r[..at], id, r[at..], tasks, w);
  }

  lemma LaneAround(a: seq<TaskId>, id: TaskId, b: seq<TaskId>, tasks: Tasks, w: nat)
    ensures Lane(a + [id] + b, tasks, w) == Lane(a, tasks, w) + OwnLane(id, tasks, w) + Lane(b, tasks, w)
  {
    LaneConcat(a, [id] + b, tasks, w);
    LaneOnTop(id, b, tasks, w);
    Regroup(a, [id], b);
  }

  lemma Regroup(a: seq<TaskId>, b: seq<TaskId>, c: seq<TaskId>)
    ensures a + b + c == a + (b + c)
  {
  }

  /** Behind a heavier task nothing of this weight follows. */
  lemma NoLaneBehind(r: seq<TaskId>, tasks: Tasks, at: nat, w: nat)
    requires Known(r, tasks) && ByWeight(r, tasks) && at <= |r|
    requires at < |r| ==> Weight(tasks[r[at]].priority) > w
    ensures Lane(r[at..], tasks, w) == []
  {
    forall id | id in r[at..] ensures id in tasks && Weight(tasks[id].priority) != w {
      var i :| 0 <= i < |r[at..]| && r[at..][i] == id;
      assert r[at + i] == id && r[at + i] in r && r[at..][0] == r[at];
    }
    LaneEmpty(r[at..], tasks, w);
  }

  /** Nothing of a lighter weight stands behind the first task. */
  lemma {:induction false} LighterLanesEmpty(order: seq<TaskId>, tasks: Tasks, w: nat)
    requires Known(order, tasks) && ByWeight(order, tasks)
    requires order != [] ==> w < Weight(tasks[order[0]].priority)
    ensures Lane(order, tasks, w) == []
  {
    LaneEmpty(order, tasks, w);
  }

  function OnTopIf(on: bool, x: TaskId, rest: seq<TaskId>): seq<TaskId> { if on then [x] + rest else rest }

  /** One more task in front of four joined lanes, when the lanes before its own are empty. */
  lemma FrontJoins(x: TaskId, w: nat, a: seq<TaskId>, b: seq<TaskId>, c: seq<TaskId>, d: seq<TaskId>)
    requires w < 4 && (w > 0 ==> a == []) && (w > 1 ==> b == []) && (w > 2 ==> c == [])
    ensures [x] + (a + b + c + d) ==
      OnTopIf(w == 0, x, a) + OnTopIf(w == 1, x, b) + OnTopIf(w == 2, x, c) + OnTopIf(w == 3, x, d)
  {
  }

  /** The four lanes joined, most urgent first. */
  ghost function AllLanes(order: seq<TaskId>, tasks: Tasks): seq<TaskId> {
    Lane(order, tasks, 0) + Lane(order, tasks, 1) + Lane(order, tasks, 2) + Lane(order, tasks, 3)
  }

  lemma AllLanesFront(order: seq<TaskId>, tasks: Tasks)
    requires order != [] && NoDuplicates(order) && Known(order, tasks) && ByWeight(order, tasks)
    ensures [order[0]] + AllLanes(order[1..], tasks) == AllLanes(order, tasks)
  {
    var x, w, rest := order[0], Weight(tasks[order[0]].priority), order[1..];
    FirstOfLane(order, tasks, 0);
    FirstOfLane(order, tasks, 1);
    FirstOfLane(order, tasks, 2);
    FirstOfLane(order, tasks, 3);
    FrontJoins(x, w, Lane(rest, tasks, 0), Lane(rest, tasks, 1), Lane(rest, tasks, 2), Lane(rest, tasks, 3));
  }

  /** The one ordered list is its four lanes in a row. */
  lemma {:induction false} OrderIsLanes(order: seq<TaskId>, tasks: Tasks)
    requires NoDuplicates(order) && Known(order, tasks) && ByWeight(order, tasks)
    ensures order == AllLanes(order, tasks)
  {
    if order != [] {
      OrderIsLanes(order[1..], tasks);
      AllLanesFront(order, tasks);
      assert order == [order[0]] + order[1..];
    }
  }

  lemma FirstOfLane(order: seq<TaskId>, tasks: Tasks, w: nat)
    requires order != [] && NoDuplicates(order) && Known(order, tasks) && ByWeight(order, tasks)
    ensures var first := Weight(tasks[order[0]].priority);
      && (w < first ==> Lane(order, tasks, w) == [] && Lane(order[1..], tasks, w) == [])
      && Lane(order, tasks, w) == OnTopIf(first == w, order[0], Lane(order[1..], tasks, w))
  {
    if w < Weight(tasks[order[0]].priority) {
      LighterLanesEmpty(order, tasks, w);
      LaneEmpty(order[1..], tasks, w);
    }
  }

  /** Lanes more urgent than the task's were empty, its own lost its front, the others are as before. */
  ghost predicate LaneTaken(t: Task, w: nat, before: seq<TaskId>, after: seq<TaskId>) {
    && (w < Weight(t.priority) ==> before == [])
    && before == (if w == Weight(t.priority) then [t.id] else []) + after
  }

  ghost function WaitingIn(order: seq<TaskId>, tasks: Tasks): Tasks {
    map id | id in order && id in tasks :: tasks[id]
  }

  lemma DequeueWaiting(before: seq<TaskId>, was: Tasks)
    requires before != [] && NoDuplicates(before) && Known(before, was)
    ensures before[0] in WaitingIn(before, was) && WaitingIn(before, was)[before[0]] == was[before[0]]
    ensures WaitingIn(before[1..], was - {before[0]}) == WaitingIn(before, was) - {before[0]}
  {
    assert before == [before[0]] + before[1..];
    assert before[0] !in before[1..];
  }

  lemma DequeueLanes(before: seq<TaskId>, was: Tasks, w: nat)
    requires before != [] && NoDuplicates(before) && Known(before, was) && ByWeight(before, was)
    ensures Known(before[1..], was - {before[0]})
    ensures was[before[0]].id == before[0] ==>
      LaneTaken(was[before[0]], w, Lane(before, was, w), Lane(before[1..], was - {before[0]}, w))
  {
    FirstOfLane(before, was, w);
    forall x | x in before[1..] ensures x in was && x != before[0] {
      var i :| 0 <= i < |before[1..]| && before[1..][i] == x;
      assert before[i + 1] == x;
    }
    LaneSameTasks(before[1..], was, was - {before[0]}, w);
  }

  /** `id` has left its lane and what is waiting; the rest is as it was. */
  ghost predicate Lost(order: seq<TaskId>, tasks: Tasks, r: seq<TaskId>, now: Tasks, id: TaskId) {
    && Known(order, tasks) && Known(r, now) && WaitingIn(r, now) == WaitingIn(order, tasks) - {id}
    && forall w: nat :: Lane(r, now, w) == Without(Lane(order, tasks, w), id)
  }

  /** The task stands at the back of its own lane; the other lanes are as they were. */
  ghost predicate Gained(order: seq<TaskId>, tasks: Tasks, r: seq<TaskId>, now: Tasks, t: Task) {
    && Known(order, tasks) && Known(r, now) && WaitingIn(r, now) == WaitingIn(order, tasks)[t.id := t]
    && forall w: nat :: Lane(r, now, w) == Lane(order, tasks, w) + (if w == Weight(t.priority) then [t.id] else [])
  }

  /** Wherever the id stood, the task now stands at the back of its own lane. */
  ghost predicate Requeued(order: seq<TaskId>, tasks: Tasks, r: seq<TaskId>, now: Tasks, t: Task) {
    && Known(order, tasks) && Known(r, now) && WaitingIn(r, now) == WaitingIn(order, tasks)[t.id := t]
    && forall w: nat ::
         Lane(r, now, w) == Without(Lane(order, tasks, w), t.id) + (if w == Weight(t.priority) then [t.id] else [])
  }

  lemma LoseThenGain(order: seq<TaskId>, tasks: Tasks, mid: seq<TaskId>, between: Tasks, r: seq<TaskId>, now: Tasks,
                     t: Task)
    requires Lost(order, tasks, mid, between, t.id) && Gained(mid, between, r, now, t)
    ensures Requeued(order, tasks, r, now, t)
  {
  }

  /** Lanes more urgent than the task's are empty, its own has lost its front, the others are as they were. */
  ghost predicate FrontTaken(order: seq<TaskId>, tasks: Tasks, r: seq<TaskId>, now: Tasks, t: Task) {
    && Known(order, tasks) && Known(r, now)
    && forall w: nat :: LaneTaken(t, w, Lane(order, tasks, w), Lane(r, now, w))
  }

  lemma DequeueHands(order: seq<TaskId>, tasks: Tasks)
    requires order != [] && NoDuplicates(order) && Known(order, tasks) && ByWeight(order, tasks)
      && tasks[order[0]].id == order[0]
    ensures FrontTaken(order, tasks, order[1..], tasks - {order[0]}, tasks[order[0]])
  {
    forall w: nat ensures Known(order[1..], tasks - {order[0]})
      && LaneTaken(tasks[order[0]], w, Lane(order, tasks, w), Lane(order[1..], tasks - {order[0]}, w)) {
      DequeueLanes(order, tasks, w);
    }
  }

  lemma HeadIsLost(order: seq<TaskId>, tasks: Tasks)
    requires order != [] && NoDuplicates(order) && Known(order, tasks) && ByWeight(order, tasks)
    ensures Lost(order, tasks, order[1..], tasks - {order[0]}, order[0])
    ensures forall x :: x in order[1..] <==> x in order && x != order[0]
  {
    SpliceKeeps(order, tasks, 0);
    assert order[..0] + order[1..] == order[1..];
    assert order[1..] == Without(order, order[0]);
    DroppedIsLost(order, tasks, order[1..], order[0]);
  }

  /** An id that waits no longer may be dropped from the map. */
  lemma DroppedIsLost(order: seq<TaskId>, tasks: Tasks, r: seq<TaskId>, id: TaskId)
    requires Lost(order, tasks, r, tasks, id) && id !in r
    ensures Lost(order, tasks, r, tasks - {id}, id)
  {
    var now := tasks - {id};
    assert WaitingIn(r, now) == WaitingIn(r, tasks);
    forall w: nat ensures Lane(r, now, w) == Without(Lane(order, tasks, w), id) { LaneSameTasks(r, tasks, now, w); }
  }

  lemma InsertGains(r: seq<TaskId>, tasks: Tasks, task: Task, at: nat)
    requires NoDuplicates(r) && Known(r, tasks) && ByWeight(r, tasks) && task.id !in r && at <= |r|
    requires forall i :: 0 <= i < at ==> Weight(tasks[task.id := task][r[i]].priority) <= Weight(task.priority)
    requires at < |r| ==> Weight(tasks[task.id := task][r[at]].priority) > Weight(task.priority)
    ensures var longer, now := r[..at] + [task.id] + r[at..], tasks[task.id := task];
      && NoDuplicates(longer) && Known(longer, now) && ByWeight(longer, now)
      && (forall x :: x in longer <==> x in r || x == task.id) && Gained(r, tasks, longer, now, task)
  {
    UnqueuedMakesNoDifference(r, tasks, task.id, task);
    InsertKeepsOrder(r, tasks[task.id := task], task.id, at);
    forall w: nat { InsertIntoLane(r, tasks, task, at, w); }
  }

  /** Splicing an id out takes it from its lane and from what is waiting, and from nowhere else. */
  lemma SpliceKeeps(order: seq<TaskId>, tasks: Tasks, at: nat)
    requires NoDuplicates(order) && Known(order, tasks) && ByWeight(order, tasks) && at < |order|
    ensures var r := order[..at] + order[at + 1..];
      && NoDuplicates(r) && Known(r, tasks) && ByWeight(r, tasks) && r == Without(order, order[at])
      && Lost(order, tasks, r, tasks, order[at])
  {
    SubsequenceKept(order, tasks, at);
    SpliceIsWithout(order, at);
    WithoutIsLost(order, tasks, order[at]);
  }

  lemma WithoutIsLost(order: seq<TaskId>, tasks: Tasks, id: TaskId)
    requires Known(order, tasks)
    ensures Lost(order, tasks, Without(order, id), tasks, id)
  {
    forall w: nat { LaneWithout(order, tasks, id, w); }
  }

  lemma AbsentIsLost(order: seq<TaskId>, tasks: Tasks, id: TaskId)
    requires Known(order, tasks) && id !in order
    ensures Lost(order, tasks, order, tasks, id)
  {
    WithoutIsPlain(order, id);
    WithoutIsLost(order, tasks, id);
  }

  /** What is remembered of an id that is not queued makes no difference. */
  lemma UnqueuedMakesNoDifference(order: seq<TaskId>, tasks: Tasks, id: TaskId, t: Task)
    requires Known(order, tasks) && ByWeight(order, tasks) && id !in order
    ensures Known(order, tasks[id := t]) && ByWeight(order, tasks[id := t])
    ensures WaitingIn(order, tasks[id := t]) == WaitingIn(order, tasks)
    ensures forall w: nat :: Lane(order, tasks[id := t], w) == Lane(order, tasks, w)
  {
    forall i | 0 <= i < |order| ensures tasks[id := t][order[i]] == tasks[order[i]] { assert order[i] in order; }
    forall w: nat { LaneSameTasks(order, tasks[id := t], tasks, w); }
  }

  lemma LostAndForgotten(order: seq<TaskId>, tasks: Tasks, r: seq<TaskId>, id: TaskId, t: Task)
    requires Lost(order, tasks, r, tasks, id) && ByWeight(r, tasks) && id !in r
    ensures Lost(order, tasks, r, tasks[id := t], id) && ByWeight(r, tasks[id := t])
  {
    UnqueuedMakesNoDifference(r, tasks, id, t);
  }

  // --- who is next -------------------------------------------------------------------------

  /** `arrived` holds what waits in the order of arrival, whatever its priority. */
  ghost predicate SameLanes(arrived: seq<TaskId>, order: seq<TaskId>, tasks: Tasks) {
    && NoDuplicates(arrived) && (forall id :: id in arrived <==> id in order)
    && forall w: nat :: Lane(arrived, tasks, w) == Lane(order, tasks, w)
  }

  /** Nothing more urgent waits, and nothing as urgent arrived earlier. */
  ghost predicate IsNext(arrived: seq<TaskId>, tasks: Tasks, id: TaskId)
    requires Known(arrived, tasks)
  {
    && id in arrived
    && (forall x :: x in arrived ==> !MoreUrgent(tasks[x].priority, tasks[id].priority))
    && exists i :: 0 <= i < |arrived| && arrived[i] == id
         && forall j :: 0 <= j < i ==> tasks[arrived[j]].priority != tasks[id].priority
  }

  lemma {:induction false} InLane(order: seq<TaskId>, tasks: Tasks, id: TaskId, w: nat)
    ensures id in Lane(order, tasks, w) <==> id in order && id in tasks && Weight(tasks[id].priority) == w
  {
    if order != [] {
      assert order == [order[0]] + order[1..];
      InLane(order[1..], tasks, id, w);
    }
  }

  /** The front of a lane is the first of its weight to have arrived. */
  lemma {:induction false} FrontOfLane(order: seq<TaskId>, tasks: Tasks, w: nat) returns (i: nat)
    requires Lane(order, tasks, w) != []
    ensures i < |order| && order[i] == Lane(order, tasks, w)[0] && order[i] in tasks
    ensures Weight(tasks[order[i]].priority) == w
    ensures forall j :: 0 <= j < i && order[j] in tasks ==> Weight(tasks[order[j]].priority) != w
  {
    if order[0] in tasks && Weight(tasks[order[0]].priority) == w {
      i := 0;
    } else {
      i := FrontOfLane(order[1..], tasks, w);
      i := i + 1;
    }
  }

  lemma HeadIsNext(arrived: seq<TaskId>, order: seq<TaskId>, tasks: Tasks)
    requires order != [] && NoDuplicates(order) && Known(order, tasks) && ByWeight(order, tasks)
    requires SameLanes(arrived, order, tasks)
    ensures Known(arrived, tasks) && IsNext(arrived, tasks, order[0])
  {
    var id := order[0];
    var w := Weight(tasks[id].priority);
    FirstOfLane(order, tasks, w);
    var i := FrontOfLane(arrived, tasks, w);
    assert arrived[i] == id;
    forall x | x in arrived ensures !MoreUrgent(tasks[x].priority, tasks[id].priority) {
      InLane(arrived, tasks, x, Weight(tasks[x].priority));
      FirstOfLane(order, tasks, Weight(tasks[x].priority));
    }
  }

  /** A queue sorted by weight is sorted by urgency. */
  lemma SortedByUrgency(order: seq<TaskId>, tasks: Tasks, i: nat, j: nat)
    requires Known(order, tasks) && ByWeight(order, tasks) && i < j < |order|
    ensures !MoreUrgent(tasks[order[j]].priority, tasks[order[i]].priority)
  {
  }

  lemma WithoutKeepsDistinct(order: seq<TaskId>, id: TaskId)
    requires NoDuplicates(order)
    ensures NoDuplicates(Without(order, id))
  {
    if i :| 0 <= i < |order| && order[i] == id {
      SpliceIsWithout(order, i);
    } else {
      WithoutIsPlain(order, id);
    }
  }

  lemma LosingKeepsLanes(arrived: seq<TaskId>, order: seq<TaskId>, tasks: Tasks, r: seq<TaskId>, now: Tasks, id: TaskId)
    requires SameLanes(arrived, order, tasks) && Lost(order, tasks, r, now, id)
    requires forall x :: x in r <==> x in order && x != id
    ensures SameLanes(Without(arrived, id), r, now)
  {
    WithoutKeepsDistinct(arrived, id);
    forall w: nat ensures Lane(Without(arrived, id), now, w) == Lane(r, now, w) {
      LaneWithout(arrived, tasks, id, w);
      forall x | x in Without(arrived, id) ensures now[x] == tasks[x] {
        assert x in WaitingIn(r, now) && WaitingIn(r, now)[x] == WaitingIn(order, tasks)[x];
      }
      LaneSameTasks(Without(arrived, id), tasks, now, w);
    }
  }

  lemma ForgettingKeepsLanes(arrived: seq<TaskId>, order: seq<TaskId>, tasks: Tasks, id: TaskId, t: Task)
    requires SameLanes(arrived, order, tasks) && Known(order, tasks) && id !in order
    ensures SameLanes(arrived, order, tasks[id := t])
  {
    var now := tasks[id := t];
    forall w: nat ensures Lane(arrived, now, w) == Lane(order, now, w) {
      LaneSameTasks(arrived, tasks, now, w);
      LaneSameTasks(order, tasks, now, w);
    }
  }

  lemma GainingKeepsLanes(arrived: seq<TaskId>, order: seq<TaskId>, tasks: Tasks, r: seq<TaskId>, now: Tasks, t: Task)
    requires SameLanes(arrived, order, tasks) && Gained(order, tasks, r, now, t) && t.id !in order
    requires forall x :: x in r <==> x in order || x == t.id
    ensures SameLanes(arrived + [t.id], r, now)
  {
    assert NoDuplicates(arrived + [t.id]);
    forall w: nat ensures Lane(arrived + [t.id], now, w) == Lane(r, now, w) {
      forall x | x in arrived ensures now[x] == tasks[x] {
        assert x in WaitingIn(r, now) && WaitingIn(r, now)[x] == WaitingIn(order, tasks)[x];
      }
      LaneSameTasks(arrived, tasks, now, w);
      LaneConcat(arrived, [t.id], now, w);
      LaneOnTop(t.id, [], now, w);
      assert t.id in WaitingIn(r, now) && now[t.id] == t;
    }
  }

  // --- the queue ---------------------------------------------------------------------------

  class TaskQueue {
    var tasks: Tasks
    var order: seq<TaskId>
    ghost var arrived: seq<TaskId>

    constructor ()
      ensures Valid() && order == [] && tasks == map[] && arrived == []
    {
      tasks := map[];
      order := [];
      arrived := [];
    }

    /**
     * Duplicate-free and sorted by weight, each lane in the order of arrival; the map may remember
     * cancelled tasks as well.
     */
    ghost predicate Valid()
      reads this
    {
      && NoDuplicates(order) && Known(order, tasks) && ByWeight(order, tasks)
      && SameLanes(arrived, order, tasks)
      && forall id :: id in order ==> tasks[id].id == id
    }

    /** The tasks that will still be handed out. */
    ghost function Waiting(): Tasks
      reads this
      requires Valid()
    {
      WaitingIn(order, tasks)
    }

    method IndexOf(id: TaskId) returns (at: int)
      ensures -1 <= at < |order|
      ensures at == -1 ==> id !in order
      ensures at >= 0 ==> order[at] == id
    {
      for i := 0 to |order|
        invariant forall j :: 0 <= j < i ==> order[j] != id
      {
        if order[i] == id {
          return i;
        }
      }
      return -1;
    }

    /** Splices an id out of the order. */
    method Remove(at: nat)
      requires Valid() && at < |order|
      modifies this`order, this`arrived
      ensures Valid() && order == Without(old(order), old(order[at]))
        && arrived == Without(old(arrived), old(order[at]))
        && Lost(old(order), tasks, order, tasks, old(order[at]))
    {
      SpliceKeeps(order, tasks, at);
      LosingKeepsLanes(arrived, order, tasks, Without(order, order[at]), tasks, order[at]);
      arrived := Without(arrived, order[at]);
      order := order[..at] + order[at + 1..];
    }

    /** A task joins the back of its own lane; a known id first leaves wherever it stood. */
    method Enqueue(task: Task)
      requires Valid()
      modifies this
      ensures Valid() && tasks == old(tasks)[task.id := task] && Waiting() == old(Waiting())[task.id := task]
      ensures Requeued(old(order), old(tasks), order, tasks, task)
      ensures arrived == Without(old(arrived), task.id) + [task.id]
    {
      WithoutIsPlain(Without(arrived, task.id), task.id);
      var existing := IndexOf(task.id);
      if existing != -1 {
        Remove(existing);
      } else {
        AbsentIsLost(order, tasks, task.id);
        WithoutIsPlain(arrived, task.id);
      }
      ghost var mid := order;
      Insert(task);
      LoseThenGain(old(order), old(tasks), mid, old(tasks), order, tasks, task);
    }

    method Insert(task: Task)
      requires Valid() && task.id !in order
      modifies this
      ensures Valid() && tasks == old(tasks)[task.id := task] && Gained(old(order), old(tasks), order, tasks, task)
      ensures arrived == old(arrived) + [task.id]
    {
      ghost var before := tasks;
      tasks := tasks[task.id := task];
      var weight := Weight(task.priority);
      var at := 0;
      while at < |order| && Weight(tasks[order[at]].priority) <= weight
        invariant 0 <= at <= |order|
        invariant forall i :: 0 <= i < at ==> Weight(tasks[order[i]].priority) <= weight
      {
        at := at + 1;
      }
      InsertGains(order, before, task, at);
      GainingKeepsLanes(arrived, order, before, order[..at] + [task.id] + order[at..], tasks, task);
      arrived := arrived + [task.id];
      order := order[..at] + [task.id] + order[at..];
    }

    /** Takes the oldest task of the most urgent lane that holds any. */
    method Dequeue() returns (task: Option<Task>)
      requires Valid()
      modifies this
      ensures Valid()
      ensures task.None? <==> old(order) == []
      ensures task.None? ==> order == old(order) && tasks == old(tasks)
      ensures task.Some? ==>
        var t := task.value;
        && t.id in old(Waiting()) && t == old(Waiting())[t.id] && Waiting() == old(Waiting()) - {t.id}
        && tasks == old(tasks) - {t.id} && old(order) == [t.id] + order
        && FrontTaken(old(order), old(tasks), order, tasks, t)
      ensures task.Some? ==> IsNext(old(arrived), old(tasks), task.value.id)
      ensures arrived == if task.Some? then Without(old(arrived), task.value.id) else old(arrived)
    {
      if order == [] {
        return None;
      }
      var id := order[0];
      assert id in order;
      DequeueWaiting(order, tasks);
      DequeueHands(order, tasks);
      HeadIsNext(arrived, order, tasks);
      assert order == [id] + order[1..];
      HeadIsLost(order, tasks);
      LosingKeepsLanes(arrived, order, tasks, order[1..], tasks - {id}, id);
      arrived := Without(arrived, id);
      order := order[1..];
      task := Some(tasks[id]);
      tasks := tasks - {id};
    }

    /** A queued task leaves its lane for good; anything else is not touched. */
    method Cancel(id: TaskId) returns (cancelled: bool)
      requires Valid()
      modifies this
      ensures Valid() && cancelled == (id in old(order)) && (cancelled <==> id in old(Waiting()))
      ensures !cancelled ==> order == old(order) && tasks == old(tasks)
      ensures cancelled ==>
        id !in order && id in tasks && tasks == old(tasks)[id := tasks[id]]
          && tasks[id] == old(tasks[id]).(status := Cancelled)
      ensures Waiting() == old(Waiting()) - {id} && Lost(old(order), old(tasks), order, tasks, id)
      ensures arrived == Without(old(arrived), id)
    {
      var at := IndexOf(id);
      if at == -1 {
        AbsentIsLost(order, tasks, id);
        WithoutIsPlain(arrived, id);
        return false;
      }
      Remove(at);
      ghost var cancelledTask := tasks[id].(status := Cancelled);
      LostAndForgotten(old(order), tasks, order, id, cancelledTask);
      ForgettingKeepsLanes(arrived, order, tasks, id, cancelledTask);
      tasks := tasks[id := tasks[id].(status := Cancelled)];
      return true;
    }
  }

  lemma InsertKeepsOrder(r: seq<TaskId>, tasks: Tasks, id: TaskId, at: nat)
    requires NoDuplicates(r) && Known(r, tasks) && ByWeight(r, tasks) && id !in r && id in tasks && at <= |r|
    requires forall i :: 0 <= i < at ==> Weight(tasks[r[i]].priority) <= Weight(tasks[id].priority)
    requires at < |r| ==> Weight(tasks[r[at]].priority) > Weight(tasks[id].priority)
    ensures var longer := r[..at] + [id] + r[at..];
      NoDuplicates(longer) && Known(longer, tasks) && ByWeight(longer, tasks)
        && forall x :: x in longer <==> x in r || x == id
  {
    var longer := r[..at] + [id] + r[at..];
    assert r == r[..at] + r[at..];
    forall i | 0 <= i < |longer| ensures longer[i] == if i < at then r[i] else if i == at then id else r[i - 1] {}
    forall i, j | 0 <= i < j < |longer|
      ensures longer[i] != longer[j]
      ensures Weight(tasks[longer[i]].priority) <= Weight(tasks[longer[j]].priority)
    {
      if i < at && j > at { assert r[i] != r[j - 1]; }
      if i == at { assert r[at] in r && r[j - 1] in r; }
      if j == at { assert r[i] in r; }
    }
  }
}
