/**
 * packages/agent-runtime/src/scheduler.ts: bounded workers over the task queue, and the submissions of
 * packages/agent-runtime/src/runtime-service.ts that feed them.
 */
module Scheduler {
  import opened Wrappers
  import opened TaskQueue
  import opened TaskBooks

  class Scheduler {
    const queue: TaskQueue
    const maxConcurrency: int
    var planning: Tasks
    var running: Tasks
    var isRunning: bool
    var completedCount: nat
    var failedCount: nat

    ghost var submitted: seq<TaskId>
    ghost var ended: Tasks
    ghost var starts: seq<TaskId>
    ghost var history: seq<Books>
    ghost var moves: seq<BookMove>

    constructor (queue: TaskQueue, maxConcurrency: int)
      requires queue.Valid() && queue.order == []
      ensures Valid() && this.queue == queue && this.maxConcurrency == maxConcurrency && !isRunning && moves == []
    {
      this.queue := queue;
      this.maxConcurrency := maxConcurrency;
      planning, running, isRunning, completedCount, failedCount := map[], map[], false, 0, 0;
      submitted, ended, starts, history, moves := [], map[], [], [EMPTY], [];
    }

    ghost function View(): Books
      reads this, queue
      requires queue.Valid()
    {
      Books(submitted, planning, queue.Waiting(), running, ended, starts)
    }

    /** The state is where its history leads, the workers are bounded, and the counters agree. */
    ghost predicate Valid()
      reads this, queue
    {
      && queue.Valid() && IsHistory(history, moves) && history[|moves|] == View()
      && (running == map[] || |running| <= maxConcurrency)
      && completedCount == |WithStatus(ended, Completed)| && failedCount == |WithStatus(ended, Failed)|
    }

    ghost method Log(m: BookMove)
      requires IsHistory(history, moves) && Permitted(history[|moves|], m)
      modifies this`history, this`moves
      ensures IsHistory(history, moves) && moves == old(moves) + [m]
        && history[|moves|] == Entered(old(history[|moves|]), m)
    {
      HistoryExtends(history, moves, m);
      history := history + [Entered(history[|moves|], m)];
      moves := moves + [m];
    }

    method Start()
      requires Valid()
      modifies this`isRunning
      ensures Valid() && isRunning && View() == old(View())
    {
      isRunning := true;
    }

    /** The first half of a submit: a stopped runtime refuses it, otherwise the plan is awaited. */
    method Submit(task: Task) returns (accepted: bool)
      requires Valid() && task.id !in submitted && task.attempts == 0
      modifies this`submitted, this`planning, this`history, this`moves
      ensures Valid() && accepted == isRunning
      ensures moves == if accepted then old(moves) + [Plan(task)] else old(moves)
      ensures accepted ==> planning == old(planning)[task.id := task.(status := Planning)]
    {
      if !isRunning {
        return false;
      }
      planning := planning[task.id := task.(status := Planning)];
      submitted := submitted + [task.id];
      Log(Plan(task));
      return true;
    }

    /** The second half, once the plan is there: the task is queued, whether or not the scheduler still runs. */
    method Planned(id: TaskId)
      requires Valid() && id in planning
      modifies this`planning, this`history, this`moves, queue
      ensures Valid() && planning == old(planning) - {id} && moves == old(moves) + [Queue(id)]
    {
      PlanningFacts(history, moves, View(), id);
      queue.Enqueue(planning[id].(status := Queued));
      planning := planning - {id};
      Log(Queue(id));
    }

    /** Cancelling reaches queued tasks only here; the queue forgets to hand them out. */
    method CancelQueued(id: TaskId) returns (cancelled: bool)
      requires Valid()
      modifies this`ended, this`history, this`moves, queue
      ensures Valid() && cancelled == (id in old(View()).queued)
      ensures moves == if cancelled then old(moves) + [End(id, Cancelled, None)] else old(moves)
    {
      ghost var b := View();
      cancelled := queue.Cancel(id);
      if cancelled {
        RecordCancelled(b, id);
      }
    }

    /** Enters a task that has just left the queue as cancelled. */
    ghost method RecordCancelled(b: Books, id: TaskId)
      requires queue.Valid() && IsHistory(history, moves) && history[|moves|] == b && id in b.queued
      requires View() == b.(queued := b.queued - {id}) && (running == map[] || |running| <= maxConcurrency)
      requires completedCount == |WithStatus(ended, Completed)| && failedCount == |WithStatus(ended, Failed)|
      modifies this`ended, this`history, this`moves
      ensures Valid() && moves == old(moves) + [End(id, Cancelled, None)]
    {
      QueuedFacts(history, moves, b, id);
      CloseBooks(b.queued[id].(status := Cancelled));
      Log(End(id, Cancelled, None));
    }

    /** Enters a task that has come to its end into the record. */
    ghost method CloseBooks(t: Task)
      requires t.id !in ended
      modifies this`ended
      ensures ended == old(ended)[t.id := t]
      ensures |WithStatus(ended, Completed)| ==
        |WithStatus(old(ended), Completed)| + (if t.status.Completed? then 1 else 0)
      ensures |WithStatus(ended, Failed)| == |WithStatus(old(ended), Failed)| + (if t.status.Failed? then 1 else 0)
    {
      OneMoreWithStatus(ended, t, Completed);
      OneMoreWithStatus(ended, t, Failed);
      ended := ended[t.id := t];
    }

    /** Accepts a result for a running task; once stopping, every result is refused. */
    method SubmitResult(id: TaskId) returns (accepted: bool)
      requires Valid()
      modifies this`running, this`completedCount, this`ended, this`history, this`moves
      ensures Valid() && accepted == (isRunning && id in old(running))
      ensures moves == if accepted then old(moves) + [End(id, Completed, None)] else old(moves)
      ensures completedCount == old(completedCount) + if accepted then 1 else 0
    {
      if !isRunning || id !in running {
        return false;
      }
      RunningFacts(history, moves, View(), id);
      CloseBooks(running[id].(status := Completed));
      running := running - {id};
      completedCount := completedCount + 1;
      Log(End(id, Completed, None));
      return true;
    }

    /** A failed attempt: back to the queue while attempts remain, otherwise the end. */
    method FailTask(id: TaskId, error: string) returns (accepted: bool)
      requires Valid()
      modifies this`running, this`failedCount, this`ended, this`history, this`moves, queue
      ensures Valid() && accepted == (isRunning && id in old(running))
      ensures running == if accepted then old(running) - {id} else old(running)
      ensures moves == if !accepted then old(moves)
        else old(moves) + [FailMove(old(running)[id], error)]
      ensures accepted ==>
        var t := old(running)[id];
        if t.attempts < t.maxAttempts
        then moves == old(moves) + [Retry(id, error)] && failedCount == old(failedCount)
        else moves == old(moves) + [End(id, Failed, Some(error))] && failedCount == old(failedCount) + 1
      ensures accepted ==>
        QueueAfterFailure(old(queue.order), old(queue.tasks), queue.order, queue.tasks, old(running)[id], error)
    {
      if !isRunning || id !in running {
        return false;
      }
      RunningFacts(history, moves, View(), id);
      if running[id].attempts < running[id].maxAttempts {
        SendBack(id, error);
      } else {
        EndFailed(id, error);
      }
      return true;
    }

    method SendBack(id: TaskId, error: string)
      requires Valid() && id in running && running[id].attempts < running[id].maxAttempts
      modifies this`running, this`history, this`moves, queue
      ensures Valid() && running == old(running) - {id} && moves == old(moves) + [Retry(id, error)]
      ensures Requeued(old(queue.order), old(queue.tasks), queue.order, queue.tasks, Reset(old(running)[id], error))
    {
      RunningFacts(history, moves, View(), id);
      queue.Enqueue(Reset(running[id], error));
      running := running - {id};
      Log(Retry(id, error));
    }

    method EndFailed(id: TaskId, error: string)
      requires Valid() && id in running
      modifies this`running, this`failedCount, this`ended, this`history, this`moves
      ensures Valid() && running == old(running) - {id} && moves == old(moves) + [End(id, Failed, Some(error))]
      ensures failedCount == old(failedCount) + 1
    {
      RunningFacts(history, moves, View(), id);
      CloseBooks(running[id].(status := Failed, error := Some(error)));
      running := running - {id};
      failedCount := failedCount + 1;
      Log(End(id, Failed, Some(error)));
    }

    /** Fails every running task that has outlived its timeout, and no other. */
    method FailOverdue(seen: Clock)
      requires Valid() && isRunning
      modifies this`running, this`failedCount, this`ended, this`history, this`moves, queue
      ensures Valid() && isRunning
      ensures RoundDone(old(running), seen, running, old(queue.order), old(queue.tasks), queue.order, old(moves), moves)
    {
      var todo := set id | id in running && Overdue(running[id], seen(id));
      ghost var was, first, order, tasks := running, moves, queue.order, queue.tasks;
      while todo != {}
        invariant Valid() && isRunning
          && InRound(was, seen, todo, running, first, moves, order, tasks, queue.order, queue.tasks)
        decreases |todo|
      {
        var id :| id in todo;
        FailOneOverdue(id, seen, todo, was, first, order, tasks);
        todo := todo - {id};
      }
      LanesMakeOrder(order, tasks, was, moves[|first|..], queue.order, queue.tasks);
    }

    method FailOneOverdue(id: TaskId, seen: Clock, ghost todo: set<TaskId>, ghost was: Tasks,
                          ghost first: seq<BookMove>,
                          ghost order: seq<TaskId>, ghost tasks: Tasks)
      requires Valid() && isRunning && id in todo
      requires InRound(was, seen, todo, running, first, moves, order, tasks, queue.order, queue.tasks)
      modifies this`running, this`failedCount, this`ended, this`history, this`moves, queue
      ensures Valid() && isRunning
        && InRound(was, seen, todo - {id}, running, first, moves, order, tasks, queue.order, queue.tasks)
    {
      RoundIdRuns(was, seen, todo, running, first, moves, order, tasks, queue.order, queue.tasks, id);
      RunningFacts(history, moves, View(), id);
      ghost var runningBefore, before, mid, between := running, moves, queue.order, queue.tasks;
      var _ := FailTask(id, TIMED_OUT);
      RoundOneMore(was, seen, todo, runningBefore, first, before, order, tasks, mid, between, queue.order, queue.tasks,
                   id);
    }

    /** Starts the task at the head of the queue. */
    method StartNext(begun: Clock) returns (started: bool)
      requires Valid() && |running| < maxConcurrency
      modifies this`running, this`starts, this`history, this`moves, queue
      ensures Valid() && started == (old(queue.order) != [])
      ensures |running| == |old(running)| + (if started then 1 else 0)
      ensures started ==>
        old(queue.order) == [old(queue.order)[0]] + queue.order
          && moves == old(moves) + [Begin(old(queue.order)[0], begun(old(queue.order)[0]))]
      ensures !started ==> queue.order == [] && moves == old(moves)
      ensures started ==>
        StartedNext(old(queue.arrived), old(queue.tasks), old(running), running, old(queue.order)[0],
                    begun(old(queue.order)[0]))
      ensures started ==> queue.tasks == old(queue.tasks) - {old(queue.order)[0]}
      ensures !started ==> running == old(running) && queue.tasks == old(queue.tasks)
    {
      ghost var b := View();
      var next := queue.Dequeue();
      match next
      case None =>
        return false;
      case Some(task) =>
        QueuedFacts(history, moves, b, task.id);
        running := running[task.id := Started(task, begun(task.id))];
        starts := starts + [task.id];
        Log(Begin(task.id, begun(task.id)));
        return true;
    }

    /** Hands out the head of the queue until the workers are full or the queue is empty. */
    method FillWorkers(begun: Clock)
      requires Valid()
      modifies this`running, this`starts, this`history, this`moves, queue
      ensures Valid() && (|running| >= maxConcurrency || queue.order == [])
      ensures HandedSome(old(queue.order), queue.order, old(moves), moves, begun)
      ensures NoneLeftMoreUrgent(old(running), running, queue.order, queue.tasks)
    {
      ghost var n: nat := 0;
      while |running| < maxConcurrency
        invariant Valid() && Handed(n, old(queue.order), queue.order, old(moves), moves, begun)
        invariant NoneLeftMoreUrgent(old(running), running, queue.order, queue.tasks)
        decreases maxConcurrency - |running|
      {
        ghost var before, was, tasks, kept, arrived := queue.order, moves, queue.tasks, running, queue.arrived;
        var started := StartNext(begun);
        if !started {
          break;
        }
        HandedOne(n, old(queue.order), before, queue.order, old(moves), was, begun);
        StartingNextKeepsUrgency(old(running), kept, before, tasks, arrived, running, queue.order,
                                 begun(before[0]));
        n := n + 1;
      }
    }

    /**
     * One poll: overdue tasks fail, then free workers take from the head of the queue. The clock is
     * read for each task when its turn comes.
     */
    method Poll(seen: Clock, begun: Clock)
      requires Valid()
      modifies this`running, this`failedCount, this`ended, this`starts, this`history, this`moves, queue
      ensures Valid()
      ensures !isRunning ==> moves == old(moves)
      ensures isRunning ==> (|running| >= maxConcurrency || queue.order == [])
      ensures isRunning ==>
        Polled(old(running), seen, begun, old(queue.order), old(queue.tasks), queue.order, old(moves), moves)
      ensures isRunning ==> NoneLeftMoreUrgent(old(running), running, queue.order, queue.tasks)
    {
      if isRunning {
        PollRunning(seen, begun);
      }
    }

    method PollRunning(seen: Clock, begun: Clock)
      requires Valid() && isRunning
      modifies this`running, this`failedCount, this`ended, this`starts, this`history, this`moves, queue
      ensures Valid() && isRunning && (|running| >= maxConcurrency || queue.order == [])
      ensures Polled(old(running), seen, begun, old(queue.order), old(queue.tasks), queue.order, old(moves), moves)
      ensures NoneLeftMoreUrgent(old(running), running, queue.order, queue.tasks)
    {
      ghost var was, order, tasks, before := running, queue.order, queue.tasks, moves;
      FailOverdue(seen);
      FillAfterRound(seen, begun, was, order, tasks, before);
    }

    /** The second half of a poll. */
    method FillAfterRound(ghost seen: Clock, begun: Clock, ghost was: Tasks, ghost order: seq<TaskId>,
                          ghost tasks: Tasks, ghost before: seq<BookMove>)
      requires Valid() && RoundDone(was, seen, running, order, tasks, queue.order, before, moves)
      modifies this`running, this`starts, this`history, this`moves, queue
      ensures Valid() && (|running| >= maxConcurrency || queue.order == [])
      ensures Polled(was, seen, begun, order, tasks, queue.order, before, moves)
      ensures NoneLeftMoreUrgent(was, running, queue.order, queue.tasks)
    {
      ghost var kept, failed, middle := running, moves, queue.order;
      FillWorkers(begun);
      NoneLeftMoreUrgentSince(was, kept, running, queue.order, queue.tasks);
      PollIsRoundAndHand(was, seen, begun, order, tasks, middle, queue.order, before, kept, failed, moves);
    }

    /** Cancels the task at the head of the queue. */
    method DrainOne()
      requires Valid() && !isRunning && queue.order != []
      modifies this`ended, this`history, this`moves, queue
      ensures Valid() && old(queue.order) == [old(queue.order)[0]] + queue.order
      ensures moves == old(moves) + [End(old(queue.order)[0], Cancelled, None)]
    {
      ghost var b := View();
      var next := queue.Dequeue();
      RecordCancelled(b, next.value.id);
    }

    /** Cancels everything still queued, in order. */
    method Drain()
      requires Valid() && !isRunning
      modifies this`ended, this`history, this`moves, queue
      ensures Valid() && queue.order == [] && moves == old(moves) + Drains(old(queue.order))
    {
      ghost var n: nat := 0;
      while queue.order != []
        invariant Valid() && Drained(n, old(queue.order), queue.order, old(moves), moves)
        decreases |queue.order|
      {
        ghost var before, was := queue.order, moves;
        DrainOne();
        DrainedOne(n, old(queue.order), before, queue.order, old(moves), was);
        n := n + 1;
      }
      assert old(queue.order)[..n] == old(queue.order);
    }

    /** Fails one task that is still running. */
    method ForceFailOne(id: TaskId)
      requires Valid() && !isRunning && id in running
      modifies this`running, this`failedCount, this`ended, this`history, this`moves
      ensures Valid() && running == old(running) - {id} && running.Keys == old(running.Keys) - {id}
      ensures moves == old(moves) + [End(id, Failed, Some(SHUTDOWN))]
    {
      EndFailed(id, SHUTDOWN);
    }

    /** Fails whatever is still running at the end of the grace period. */
    method ForceFail()
      requires Valid() && !isRunning
      modifies this`running, this`failedCount, this`ended, this`history, this`moves
      ensures Valid() && running == map[]
      ensures Dealt(old(running.Keys), {}, old(moves), moves, id => End(id, Failed, Some(SHUTDOWN)))
    {
      ghost var move := id => End(id, Failed, Some(SHUTDOWN));
      while running != map[]
        invariant Valid() && running.Keys <= old(running.Keys)
        invariant Dealt(old(running.Keys), running.Keys, old(moves), moves, move)
        decreases |running|
      {
        ghost var was, still := moves, running.Keys;
        var id :| id in running;
        ForceFailOne(id);
        DealtOne(old(running.Keys), still, old(moves), was, move, id);
      }
    }

    /** The first half of a stop, before it waits: no more work is taken on, and the queue is drained. */
    method BeginStop()
      requires Valid()
      modifies this`isRunning, this`ended, this`history, this`moves, queue
      ensures Valid() && !isRunning && queue.order == [] && View().queued == map[]
        && moves == old(moves) + Drains(old(queue.order))
      ensures planning == old(planning) && running == old(running)
      ensures planning == map[] <==>
        forall more :: StopsAs(View(), more) ==> EveryTaskEnded(Continued(View(), more).value)
    {
      isRunning := false;
      Drain();
      HistoryBalances(history, moves);
      StopEndsAllExactly(View());
    }

    /** The second half, after the grace period: whatever still runs is given up. */
    method EndStop()
      requires Valid() && !isRunning
      modifies this`running, this`failedCount, this`ended, this`history, this`moves
      ensures Valid() && running == map[]
      ensures Dealt(old(running.Keys), {}, old(moves), moves, id => End(id, Failed, Some(SHUTDOWN)))
      ensures EveryTaskEnded(View()) <==> planning == map[] && View().queued == map[]
    {
      ForceFail();
      HistoryBalances(history, moves);
      AllEndedExactly(View());
    }

    /** A stop during which nothing else happens ends every task exactly if no submit is still planning. */
    method Stop()
      requires Valid()
      modifies this`isRunning, this`running, this`failedCount, this`ended, this`history, this`moves, queue
      ensures Valid() && !isRunning && queue.order == [] && running == map[]
      ensures Dealt(old(running.Keys), {}, old(moves) + Drains(old(queue.order)), moves, id =>
        End(id, Failed, Some(SHUTDOWN)))
      ensures EveryTaskEnded(View()) <==> old(planning) == map[]
    {
      BeginStop();
      EndStop();
    }
  }
}
