/** Where every submitted task stands: the moves of the runtime and its scheduler, and what every history keeps. */
module TaskBooks {
  import opened Wrappers
  import opened TaskQueue

  // --- where every submitted task is -------------------------------------------------------

  /** The shelves tasks stand on, and a log of every start. */
  datatype Books = Books(
    submitted: seq<TaskId>, planning: Tasks, queued: Tasks, running: Tasks, ended: Tasks, starts: seq<TaskId>)

  /** How often a task may start: its allowance, but at least once. */
  function StartLimit(t: Task): nat {
    if t.maxAttempts > 1 then t.maxAttempts else 1
  }

  function Count(starts: seq<TaskId>, id: TaskId): nat {
    if starts == [] then 0 else Count(starts[..|starts| - 1], id) + (if starts[|starts| - 1] == id then 1 else 0)
  }

  predicate Terminal(s: TaskStatus) { s.Completed? || s.Failed? || s.Cancelled? }

  /** The task stands on one shelf and no other. */
  ghost predicate Alone(b: Books, id: TaskId) {
    && (id in b.planning ==> id !in b.queued && id !in b.running && id !in b.ended)
    && (id in b.queued ==> id !in b.running && id !in b.ended)
    && (id in b.running ==> id !in b.ended)
  }

  ghost predicate PlanningFits(b: Books, id: TaskId)
    requires id in b.planning
  {
    var t := b.planning[id];
    t.id == id && t.status.Planning? && Count(b.starts, id) == t.attempts == 0 && Alone(b, id) && id in b.submitted
  }

  ghost predicate QueuedFits(b: Books, id: TaskId)
    requires id in b.queued
  {
    var t := b.queued[id];
    t.id == id && Count(b.starts, id) == t.attempts < StartLimit(t) && Alone(b, id) && id in b.submitted
  }

  ghost predicate RunningFits(b: Books, id: TaskId)
    requires id in b.running
  {
    var t := b.running[id];
    t.id == id && t.status.Running? && 1 <= Count(b.starts, id) == t.attempts <= StartLimit(t) && Alone(b, id)
      && id in b.submitted
  }

  ghost predicate EndedFits(b: Books, id: TaskId)
    requires id in b.ended
  {
    var t := b.ended[id];
    t.id == id && Terminal(t.status) && Count(b.starts, id) == t.attempts <= StartLimit(t) && Alone(b, id)
      && id in b.submitted
  }

  ghost predicate Shelved(b: Books, id: TaskId) {
    id in b.planning || id in b.queued || id in b.running || id in b.ended
  }

  /** Every submitted task is on exactly one shelf, with its starts counted and bounded. */
  ghost predicate Balanced(b: Books) {
    && NoDuplicates(b.submitted)
    && (forall id :: id in b.submitted ==> Shelved(b, id))
    && (forall id :: id in b.planning ==> PlanningFits(b, id))
    && (forall id :: id in b.queued ==> QueuedFits(b, id))
    && (forall id :: id in b.running ==> RunningFits(b, id))
    && (forall id :: id in b.ended ==> EndedFits(b, id))
    && (forall id :: id in b.starts ==> id in b.submitted)
  }

  function Started(t: Task, now: int): Task {
    t.(status := Running, startedAt := Some(now), attempts := t.attempts + 1)
  }

  ghost function Submitting(b: Books, t: Task): Books {
    b.(submitted := b.submitted + [t.id], planning := b.planning[t.id := t.(status := Planning)])
  }

  ghost function Queueing(b: Books, id: TaskId): Books
    requires id in b.planning
  {
    b.(planning := b.planning - {id}, queued := b.queued[id := b.planning[id].(status := Queued)])
  }

  ghost function Starting(b: Books, id: TaskId, now: int): Books
    requires id in b.queued
  {
    b.(queued := b.queued - {id}, running := b.running[id := Started(b.queued[id], now)], starts := b.starts + [id])
  }

  ghost function Requeueing(b: Books, id: TaskId, t: Task): Books {
    b.(running := b.running - {id}, queued := b.queued[id := t])
  }

  ghost function Ending(b: Books, id: TaskId, t: Task): Books {
    if t.status.Cancelled? then b.(queued := b.queued - {id}, ended := b.ended[id := t])
    else b.(running := b.running - {id}, ended := b.ended[id := t])
  }

  ghost predicate KeptOn(a: Tasks, b: Tasks, id: TaskId) {
    (id in a <==> id in b) && (id in a ==> a[id] == b[id])
  }

  ghost predicate KeptAt(b: Books, c: Books, id: TaskId) {
    && KeptOn(b.planning, c.planning, id) && KeptOn(b.queued, c.queued, id) && KeptOn(b.running, c.running, id)
         && KeptOn(b.ended, c.ended, id)
    && Count(c.starts, id) == Count(b.starts, id)
    && (id in b.submitted <==> id in c.submitted) && (id in b.starts <==> id in c.starts)
  }

  /** Shelves other than those of `id` are untouched, so what fitted there still fits. */
  ghost predicate OthersKept(b: Books, c: Books, id: TaskId) {
    forall x :: x != id ==> KeptAt(b, c, x)
  }

  lemma OneShelfChange(b: Books, c: Books, id: TaskId)
    requires Balanced(b) && OthersKept(b, c, id) && NoDuplicates(c.submitted) && id in c.submitted
    requires id in c.planning ==> PlanningFits(c, id)
    requires id in c.queued ==> QueuedFits(c, id)
    requires id in c.running ==> RunningFits(c, id)
    requires id in c.ended ==> EndedFits(c, id)
    requires Shelved(c, id)
    ensures Balanced(c)
  {
    forall x | x != id ensures Fits(c, x) { OtherFits(b, c, id, x); }
    assert Fits(c, id);
    EveryoneFits(c);
  }

  /** What `Balanced` asks of one task. */
  ghost predicate Fits(b: Books, id: TaskId) {
    && (id in b.submitted ==> Shelved(b, id))
    && (id in b.planning ==> PlanningFits(b, id))
    && (id in b.queued ==> QueuedFits(b, id))
    && (id in b.running ==> RunningFits(b, id))
    && (id in b.ended ==> EndedFits(b, id))
    && (id in b.starts ==> id in b.submitted)
  }

  lemma OtherFits(b: Books, c: Books, id: TaskId, x: TaskId)
    requires Balanced(b) && OthersKept(b, c, id) && x != id
    ensures Fits(c, x)
  {
    assert KeptAt(b, c, x);
  }

  lemma EveryoneFits(b: Books)
    requires NoDuplicates(b.submitted) && forall id :: Fits(b, id)
    ensures Balanced(b)
  {
    forall id | id in b.submitted ensures Shelved(b, id) { assert Fits(b, id); }
    forall id | id in b.planning ensures PlanningFits(b, id) { assert Fits(b, id); }
    forall id | id in b.queued ensures QueuedFits(b, id) { assert Fits(b, id); }
    forall id | id in b.running ensures RunningFits(b, id) { assert Fits(b, id); }
    forall id | id in b.ended ensures EndedFits(b, id) { assert Fits(b, id); }
    forall id | id in b.starts ensures id in b.submitted { assert Fits(b, id); }
  }

  lemma {:induction false} NeverStarted(starts: seq<TaskId>, id: TaskId)
    requires id !in starts
    ensures Count(starts, id) == 0
  {
    if starts != [] {
      NeverStarted(starts[..|starts| - 1], id);
    }
  }

  lemma SubmittingKeeps(b: Books, t: Task)
    requires Balanced(b) && t.id !in b.submitted && t.attempts == 0
    ensures Balanced(Submitting(b, t))
  {
    NeverStarted(b.starts, t.id);
    ShelvesApart(b);
    assert t.id !in b.planning.Keys + b.queued.Keys + b.running.Keys + b.ended.Keys;
    NoDuplicatesAppend(b.submitted, [t.id]);
    OneShelfChange(b, Submitting(b, t), t.id);
  }

  lemma QueueingKeeps(b: Books, id: TaskId)
    requires Balanced(b) && id in b.planning
    ensures Balanced(Queueing(b, id))
  {
    assert PlanningFits(b, id);
    OneShelfChange(b, Queueing(b, id), id);
  }

  lemma StartingKeeps(b: Books, id: TaskId, now: int)
    requires Balanced(b) && id in b.queued
    ensures Balanced(Starting(b, id, now))
  {
    var c := Starting(b, id, now);
    assert QueuedFits(b, id);
    CountsOneMore(b.starts, id);
    forall x | x != id ensures KeptAt(b, c, x) {}
    OneShelfChange(b, c, id);
  }

  lemma CountsOneMore(starts: seq<TaskId>, id: TaskId)
    ensures forall x :: Count(starts + [id], x) == Count(starts, x) + if x == id then 1 else 0
    ensures forall x :: x in starts + [id] <==> x in starts || x == id
  {
    assert (starts + [id])[..|starts|] == starts;
  }

  lemma RequeueingKeeps(b: Books, id: TaskId, t: Task)
    requires Balanced(b) && id in b.running && b.running[id].attempts < b.running[id].maxAttempts
    requires t.id == id && t.attempts == b.running[id].attempts && t.maxAttempts == b.running[id].maxAttempts
    ensures Balanced(Requeueing(b, id, t))
  {
    assert RunningFits(b, id);
    OneShelfChange(b, Requeueing(b, id, t), id);
  }

  predicate SameClaim(t: Task, was: Task, id: TaskId) {
    t.id == id && t.attempts == was.attempts && t.maxAttempts == was.maxAttempts
  }

  lemma EndingKeeps(b: Books, id: TaskId, t: Task)
    requires Balanced(b) && Terminal(t.status)
    requires if t.status.Cancelled? then id in b.queued && SameClaim(t, b.queued[id], id)
      else id in b.running && SameClaim(t, b.running[id], id)
    ensures Balanced(Ending(b, id, t))
  {
    if t.status.Cancelled? {
      CancellingKeeps(b, id, t);
    } else {
      FinishingKeeps(b, id, t);
    }
  }

  lemma CancellingKeeps(b: Books, id: TaskId, t: Task)
    requires Balanced(b) && t.status.Cancelled? && id in b.queued && SameClaim(t, b.queued[id], id)
    ensures Balanced(Ending(b, id, t))
  {
    assert QueuedFits(b, id);
    OneShelfChange(b, Ending(b, id, t), id);
  }

  lemma FinishingKeeps(b: Books, id: TaskId, t: Task)
    requires Balanced(b) && (t.status.Completed? || t.status.Failed?) && id in b.running
      && SameClaim(t, b.running[id], id)
    ensures Balanced(Ending(b, id, t))
  {
    assert RunningFits(b, id);
    OneShelfChange(b, Ending(b, id, t), id);
  }

  // --- conservation and the bound on starts ------------------------------------------------

  lemma ShelvesApart(b: Books)
    requires Balanced(b)
    ensures b.planning.Keys !! b.queued.Keys && (b.planning.Keys + b.queued.Keys) !! b.running.Keys
    ensures (b.planning.Keys + b.queued.Keys + b.running.Keys) !! b.ended.Keys
    ensures (set id | id in b.submitted) == b.planning.Keys + b.queued.Keys + b.running.Keys + b.ended.Keys
  {
    forall id | Shelved(b, id) ensures Alone(b, id) && id in b.submitted {
      if id in b.planning { assert PlanningFits(b, id); }
      else if id in b.queued { assert QueuedFits(b, id); }
      else if id in b.running { assert RunningFits(b, id); }
      else { assert EndedFits(b, id); }
    }
    assert forall id :: id in b.submitted ==> Shelved(b, id);
    assert forall id :: id in b.planning || id in b.queued || id in b.running || id in b.ended ==> Shelved(b, id);
  }

  lemma SubmittedDistinct(b: Books)
    requires Balanced(b)
    ensures |set id | id in b.submitted| == |b.submitted|
  {
    DistinctCount(b.submitted);
  }

  /** Submitted tasks are those in planning, the queued, the running and the ended ones, with none counted twice. */
  lemma Conservation(b: Books)
    requires Balanced(b)
    ensures |b.submitted| == |b.planning| + |b.queued| + |b.running| + |b.ended|
  {
    SubmittedDistinct(b);
    ShelvesApart(b);
    FourApart((set id | id in b.submitted), b.planning.Keys, b.queued.Keys, b.running.Keys, b.ended.Keys);
    assert |b.planning| == |b.planning.Keys| && |b.queued| == |b.queued.Keys| && |b.running| == |b.running.Keys|
      && |b.ended| == |b.ended.Keys|;
  }

  lemma FourApart(all: set<TaskId>, a: set<TaskId>, b: set<TaskId>, c: set<TaskId>, d: set<TaskId>)
    requires all == a + b + c + d && a !! b && (a + b) !! c && (a + b + c) !! d
    ensures |all| == |a| + |b| + |c| + |d|
  {
    ThreeApart(a + b + c, a, b, c);
    assert |a + b + c + d| == |a + b + c| + |d|;
  }

  ghost function TaskOf(b: Books, id: TaskId): Task
    requires Shelved(b, id)
  {
    if id in b.planning then b.planning[id] else if id in b.queued then b.queued[id]
      else if id in b.running then b.running[id] else b.ended[id]
  }

  lemma StartsBounded(b: Books, id: TaskId)
    requires Balanced(b) && id in b.submitted
    ensures Count(b.starts, id) <= StartLimit(TaskOf(b, id))
  {
    assert Shelved(b, id);
    if id in b.planning { assert PlanningFits(b, id); }
    else if id in b.queued { assert QueuedFits(b, id); }
    else if id in b.running { assert RunningFits(b, id); }
    else { assert EndedFits(b, id); }
  }

  ghost function SumLimits(b: Books, ids: seq<TaskId>): nat
    requires forall id :: id in ids ==> Shelved(b, id)
  {
    if ids == [] then 0
    else
      assert ids[|ids| - 1] in ids;
      SumLimits(b, ids[..|ids| - 1]) + StartLimit(TaskOf(b, ids[|ids| - 1]))
  }

  ghost function SumCounts(starts: seq<TaskId>, ids: seq<TaskId>): nat {
    if ids == [] then 0 else SumCounts(starts, ids[..|ids| - 1]) + Count(starts, ids[|ids| - 1])
  }

  lemma {:induction false} SumCountsEmpty(ids: seq<TaskId>)
    ensures SumCounts([], ids) == 0
  {
    if ids != [] {
      SumCountsEmpty(ids[..|ids| - 1]);
    }
  }

  lemma {:induction false} SumCountsOneMore(starts: seq<TaskId>, id: TaskId, ids: seq<TaskId>)
    requires NoDuplicates(ids)
    ensures SumCounts(starts + [id], ids) == SumCounts(starts, ids) + (if id in ids then 1 else 0)
  {
    assert (starts + [id])[..|starts|] == starts;
    if ids != [] {
      var init, last := ids[..|ids| - 1], ids[|ids| - 1];
      SumCountsOneMore(starts, id, init);
      assert ids == init + [last];
    }
  }

  lemma {:induction false} StartsAreCounted(starts: seq<TaskId>, ids: seq<TaskId>)
    requires NoDuplicates(ids) && forall id :: id in starts ==> id in ids
    ensures SumCounts(starts, ids) == |starts|
  {
    if starts == [] {
      SumCountsEmpty(ids);
    } else {
      var init, last := starts[..|starts| - 1], starts[|starts| - 1];
      assert starts == init + [last];
      StartsAreCounted(init, ids);
      SumCountsOneMore(init, last, ids);
    }
  }

  lemma {:induction false} SumsBounded(b: Books, ids: seq<TaskId>)
    requires Balanced(b) && forall id :: id in ids ==> id in b.submitted
    ensures SumCounts(b.starts, ids) <= SumLimits(b, ids)
  {
    if ids != [] {
      var init, last := ids[..|ids| - 1], ids[|ids| - 1];
      assert ids == init + [last];
      SumsBounded(b, init);
      StartsBounded(b, last);
    }
  }

  /** All starts together stay within the sum of the allowances. */
  lemma TotalStartsBounded(b: Books)
    requires Balanced(b)
    ensures |b.starts| <= SumLimits(b, b.submitted)
  {
    StartsAreCounted(b.starts, b.submitted);
    SumsBounded(b, b.submitted);
  }

  // --- every history -----------------------------------------------------------------------

  datatype BookMove =
    | Plan(task: Task)
    | Queue(id: TaskId)
    | Begin(id: TaskId, now: int)
    | Retry(id: TaskId, reason: string)
    | End(id: TaskId, status: TaskStatus, error: Option<string>)

  /** A failed attempt sends a task back while it has attempts left, and ends it otherwise. */
  ghost function FailMove(t: Task, error: string): BookMove {
    if t.attempts < t.maxAttempts then Retry(t.id, error) else End(t.id, Failed, Some(error))
  }

  /** What the clock shows when it is read for a task. */
  type Clock = TaskId -> int

  /** Running for longer than its timeout; a start at time zero reads as none. */
  predicate Overdue(t: Task, now: int) {
    t.startedAt.Some? && t.startedAt.value != 0 && now - t.startedAt.value > t.timeout
  }

  /** An attempt begun at a time other than zero is overdue from just after its timeout. */
  lemma OverdueExactly(t: Task, now: int)
    ensures Overdue(t, now) <==> exists at :: t.startedAt == Some(at) && at != 0 && at + t.timeout < now
  {
    if t.startedAt.Some? {
      assert t.startedAt == Some(t.startedAt.value);
    }
  }

  ghost function OverdueIn(running: Tasks, seen: Clock): set<TaskId> {
    set id | id in running && Overdue(running[id], seen(id))
  }

  ghost function Begins(ids: seq<TaskId>, begun: Clock): (r: seq<BookMove>)
    ensures |r| == |ids|
  {
    seq(|ids|, i requires 0 <= i < |ids| => Begin(ids[i], begun(ids[i])))
  }

  ghost function Drains(ids: seq<TaskId>): (r: seq<BookMove>)
    ensures |r| == |ids|
  {
    seq(|ids|, i requires 0 <= i < |ids| => End(ids[i], Cancelled, None))
  }

  /** A failed task going back to the queue. */
  function Reset(t: Task, error: string): Task {
    t.(status := Pending, startedAt := None, error := Some(error))
  }

  ghost predicate Permitted(b: Books, m: BookMove) {
    match m
    case Plan(t) => t.id !in b.submitted && t.attempts == 0
    case Queue(id) => id in b.planning
    case Begin(id, _) => id in b.queued
    case Retry(id, _) => id in b.running && b.running[id].attempts < b.running[id].maxAttempts
    case End(id, status, _) => Terminal(status) && if status.Cancelled? then id in b.queued else id in b.running
  }

  ghost function Entered(b: Books, m: BookMove): Books
    requires Permitted(b, m)
  {
    match m
    case Plan(t) => Submitting(b, t)
    case Queue(id) => Queueing(b, id)
    case Begin(id, now) => Starting(b, id, now)
    case Retry(id, error) => Requeueing(b, id, Reset(b.running[id], error))
    case End(id, status, error) =>
      var t := if status.Cancelled? then b.queued[id] else b.running[id];
      Ending(b, id, t.(status := status, error := if error.Some? then error else t.error))
  }

  lemma EnteredKeeps(b: Books, m: BookMove)
    requires Balanced(b) && Permitted(b, m)
    ensures Balanced(Entered(b, m))
  {
    match m
    case Plan(t) => SubmittingKeeps(b, t);
    case Queue(id) => QueueingKeeps(b, id);
    case Begin(id, now) => StartingKeeps(b, id, now);
    case Retry(id, error) => RequeueingKeeps(b, id, Reset(b.running[id], error));
    case End(id, status, error) =>
      assert Balanced(b);
      if status.Cancelled? {
        assert QueuedFits(b, id);
      } else {
        assert RunningFits(b, id);
      }
      EndingKeeps(b, id, Entered(b, m).ended[id]);
  }

  /** The same task at another point of its life. */
  predicate SameTask(a: Task, b: Task) {
    a.id == b.id && a.priority == b.priority && a.maxAttempts == b.maxAttempts && a.timeout == b.timeout
  }

  /** One more attempt has begun, at this time. */
  predicate AttemptBegun(before: Task, after: Task, now: int) {
    SameTask(before, after) && after.status.Running? && after.attempts == before.attempts + 1
      && after.startedAt == Some(now) && after.error == before.error
  }

  /** Ready for another attempt, remembering why the last one failed. */
  predicate SentBack(before: Task, after: Task, error: string) {
    SameTask(before, after) && after.status.Pending? && after.attempts == before.attempts
      && after.startedAt.None? && after.error == Some(error)
  }

  predicate EndedAs(before: Task, after: Task, status: TaskStatus, error: Option<string>) {
    SameTask(before, after) && after.status == status && after.attempts == before.attempts
      && after.startedAt == before.startedAt && after.error == if error.Some? then error else before.error
  }

  /** What each move does to its task: where it goes and what becomes of it. */
  ghost predicate Tells(b: Books, m: BookMove, c: Books) {
    match m
    case Plan(t) =>
      && c.submitted == b.submitted + [t.id] && t.id in c.planning
      && SameTask(t, c.planning[t.id]) && c.planning[t.id].status.Planning?
    case Queue(id) =>
      && id in b.planning && id !in c.planning && id in c.queued
      && SameTask(b.planning[id], c.queued[id]) && c.queued[id].status.Queued?
    case Begin(id, now) =>
      && id in b.queued && id !in c.queued && id in c.running && AttemptBegun(b.queued[id], c.running[id], now)
      && c.starts == b.starts + [id]
    case Retry(id, error) =>
      && id in b.running && id !in c.running && id in c.queued && SentBack(b.running[id], c.queued[id], error)
    case End(id, status, error) =>
      && id in c.ended && id !in c.queued && id !in c.running
      && if status.Cancelled? then id in b.queued && EndedAs(b.queued[id], c.ended[id], status, error)
         else id in b.running && EndedAs(b.running[id], c.ended[id], status, error)
  }

  /** Only the task moved has changed. */
  lemma MovesTouchOne(b: Books, m: BookMove)
    requires Permitted(b, m)
    ensures OthersKept(b, Entered(b, m), MovedTask(m))
  {
    if m.Begin? {
      CountsOneMore(b.starts, m.id);
    }
  }

  lemma MovesTell(b: Books, m: BookMove)
    requires Balanced(b) && Permitted(b, m)
    ensures Tells(b, m, Entered(b, m))
  {
    match m {
      case Plan(_) =>
      case Queue(id) => assert PlanningFits(b, id);
      case Begin(id, _) => assert QueuedFits(b, id);
      case Retry(id, _) => assert RunningFits(b, id);
      case End(id, status, _) => EndTells(b, m);
    }
  }

  lemma EndTells(b: Books, m: BookMove)
    requires Balanced(b) && m.End? && Permitted(b, m)
    ensures Tells(b, m, Entered(b, m))
  {
    if m.status.Cancelled? {
      assert QueuedFits(b, m.id);
    } else {
      assert RunningFits(b, m.id);
    }
  }

  function MovedTask(m: BookMove): TaskId {
    if m.Plan? then m.task.id else m.id
  }

  const EMPTY := Books([], map[], map[], map[], map[], [])

  ghost predicate Follows(history: seq<Books>, moves: seq<BookMove>, i: nat)
    requires i < |moves| && |history| == |moves| + 1
  {
    Permitted(history[i], moves[i]) && history[i + 1] == Entered(history[i], moves[i])
  }

  ghost predicate IsHistory(history: seq<Books>, moves: seq<BookMove>) {
    && |history| == |moves| + 1 && history[0] == EMPTY
    && forall i :: 0 <= i < |moves| ==> Follows(history, moves, i)
  }

  lemma HistoryExtends(history: seq<Books>, moves: seq<BookMove>, m: BookMove)
    requires IsHistory(history, moves) && Permitted(history[|moves|], m)
    ensures IsHistory(history + [Entered(history[|moves|], m)], moves + [m])
  {
    var longer := history + [Entered(history[|moves|], m)];
    forall i | 0 <= i < |moves + [m]| ensures Follows(longer, moves + [m], i) {
      if i < |moves| {
        assert Follows(history, moves, i);
      }
    }
  }

  /** At every point of every history the books balance. */
  lemma {:induction false} HistoryBalances(history: seq<Books>, moves: seq<BookMove>)
    requires IsHistory(history, moves)
    ensures Balanced(history[|moves|])
  {
    if moves != [] {
      var n := |moves| - 1;
      var shorter, init := history[..n + 1], moves[..n];
      forall i | 0 <= i < n ensures Follows(shorter, init, i) {
        assert Follows(history, moves, i);
      }
      HistoryBalances(shorter, init);
      assert Follows(history, moves, n);
      EnteredKeeps(history[n], moves[n]);
    }
  }

  ghost function WithStatus(ended: Tasks, s: TaskStatus): set<TaskId> {
    set id | id in ended && ended[id].status == s
  }

  lemma EndedByStatus(b: Books)
    requires Balanced(b)
    ensures |b.ended| ==
      |WithStatus(b.ended, Completed)| + |WithStatus(b.ended, Failed)| + |WithStatus(b.ended, Cancelled)|
  {
    forall id | id in b.ended ensures Terminal(b.ended[id].status) { assert EndedFits(b, id); }
    StatusesPartition(b.ended);
    ThreeApart(b.ended.Keys, WithStatus(b.ended, Completed), WithStatus(b.ended, Failed),
               WithStatus(b.ended, Cancelled));
    assert |b.ended| == |b.ended.Keys|;
  }

  lemma StatusesPartition(ended: Tasks)
    requires forall id :: id in ended ==> Terminal(ended[id].status)
    ensures ended.Keys == WithStatus(ended, Completed) + WithStatus(ended, Failed) + WithStatus(ended, Cancelled)
    ensures WithStatus(ended, Completed) !! WithStatus(ended, Failed)
    ensures (WithStatus(ended, Completed) + WithStatus(ended, Failed)) !! WithStatus(ended, Cancelled)
  {
  }

  lemma ThreeApart(all: set<TaskId>, a: set<TaskId>, b: set<TaskId>, c: set<TaskId>)
    requires all == a + b + c && a !! b && (a + b) !! c
    ensures |all| == |a| + |b| + |c|
  {
    assert |a + b| == |a| + |b|;
    assert |a + b + c| == |a + b| + |c|;
  }

  /** Conservation and the bounds on starts, over every history. */
  lemma EveryHistoryConserves(history: seq<Books>, moves: seq<BookMove>)
    requires IsHistory(history, moves)
    ensures var b := history[|moves|];
      && |b.submitted| == |b.planning| + |b.queued| + |b.running|
           + |WithStatus(b.ended, Completed)| + |WithStatus(b.ended, Failed)| + |WithStatus(b.ended, Cancelled)|
      && b.planning.Keys !! b.queued.Keys && (b.planning.Keys + b.queued.Keys) !! b.running.Keys
      && (b.planning.Keys + b.queued.Keys + b.running.Keys) !! b.ended.Keys
      && (forall id :: id in b.submitted ==> Shelved(b, id) && Count(b.starts, id) <= StartLimit(TaskOf(b, id)))
      && |b.starts| <= SumLimits(b, b.submitted)
  {
    var b := history[|moves|];
    HistoryBalances(history, moves);
    Conservation(b);
    ShelvesApart(b);
    EndedByStatus(b);
    forall id | id in b.submitted ensures Count(b.starts, id) <= StartLimit(TaskOf(b, id)) {
      StartsBounded(b, id);
    }
    TotalStartsBounded(b);
  }

  lemma OneMoreWithStatus(ended: Tasks, t: Task, s: TaskStatus)
    requires t.id !in ended
    ensures |WithStatus(ended[t.id := t], s)| == |WithStatus(ended, s)| + (if t.status == s then 1 else 0)
  {
    if t.status == s {
      assert WithStatus(ended[t.id := t], s) == WithStatus(ended, s) + {t.id};
    } else {
      assert WithStatus(ended[t.id := t], s) == WithStatus(ended, s);
    }
  }

  /** What the history tells about one running task. */
  lemma RunningFacts(history: seq<Books>, moves: seq<BookMove>, b: Books, id: TaskId)
    requires IsHistory(history, moves) && b == history[|moves|] && id in b.running
    ensures b.running[id].id == id && id !in b.queued && id !in b.ended
  {
    HistoryBalances(history, moves);
    assert RunningFits(b, id);
  }

  lemma QueuedFacts(history: seq<Books>, moves: seq<BookMove>, b: Books, id: TaskId)
    requires IsHistory(history, moves) && b == history[|moves|] && id in b.queued
    ensures b.queued[id].id == id && id !in b.running && id !in b.ended
  {
    HistoryBalances(history, moves);
    assert QueuedFits(b, id);
  }

  lemma PlanningFacts(history: seq<Books>, moves: seq<BookMove>, b: Books, id: TaskId)
    requires IsHistory(history, moves) && b == history[|moves|] && id in b.planning
    ensures b.planning[id].id == id
  {
    HistoryBalances(history, moves);
    assert PlanningFits(b, id);
  }

  // --- the allowance of one task -----------------------------------------------------------

  lemma MoveKeepsAllowance(b: Books, m: BookMove, id: TaskId)
    requires Balanced(b) && Permitted(b, m) && id in b.submitted
    ensures id in Entered(b, m).submitted && Shelved(b, id) && Shelved(Entered(b, m), id)
    ensures TaskOf(Entered(b, m), id).maxAttempts == TaskOf(b, id).maxAttempts
  {
    EnteredKeeps(b, m);
    OnlyShelf(b, id);
    OnlyShelf(Entered(b, m), id);
    if m.Plan? || m.id != id {
      OtherAllowance(b, m, id);
    } else {
      OwnAllowance(b, m);
    }
  }

  lemma OtherAllowance(b: Books, m: BookMove, id: TaskId)
    requires Permitted(b, m) && Shelved(b, id) && id in b.submitted && (m.Plan? || m.id != id)
    ensures Shelved(Entered(b, m), id) && TaskOf(Entered(b, m), id) == TaskOf(b, id)
  {
  }

  lemma OwnAllowance(b: Books, m: BookMove)
    requires Permitted(b, m) && !m.Plan? && Alone(b, m.id) && Alone(Entered(b, m), m.id)
    ensures Shelved(b, m.id) && Shelved(Entered(b, m), m.id)
    ensures TaskOf(Entered(b, m), m.id).maxAttempts == TaskOf(b, m.id).maxAttempts
  {
  }

  lemma OnlyShelf(b: Books, id: TaskId)
    requires Balanced(b) && id in b.submitted
    ensures Shelved(b, id) && Alone(b, id)
  {
    assert Shelved(b, id);
    if id in b.planning { assert PlanningFits(b, id); }
    else if id in b.queued { assert QueuedFits(b, id); }
    else if id in b.running { assert RunningFits(b, id); }
    else { assert EndedFits(b, id); }
  }

  /** A task keeps the allowance it was submitted with. */
  lemma {:induction false} AllowanceKept(history: seq<Books>, moves: seq<BookMove>, t: Task)
    requires IsHistory(history, moves) && Plan(t) in moves
    ensures var b := history[|moves|];
      t.id in b.submitted && Shelved(b, t.id) && TaskOf(b, t.id).maxAttempts == t.maxAttempts
  {
    var n := |moves| - 1;
    var shorter, init := history[..n + 1], moves[..n];
    forall i | 0 <= i < n ensures Follows(shorter, init, i) {
      assert Follows(history, moves, i);
    }
    assert Follows(history, moves, n) && moves == init + [moves[n]];
    HistoryBalances(shorter, init);
    EnteredKeeps(history[n], moves[n]);
    if Plan(t) in init {
      AllowanceKept(shorter, init, t);
      MoveKeepsAllowance(history[n], moves[n], t.id);
    } else {
      assert moves[n] == Plan(t) && t.id in history[n + 1].planning;
    }
  }

  ghost function OneStart(t: Task, now: int): (r: (seq<Books>, seq<BookMove>))
    requires t.attempts == 0
  {
    var planned := Submitting(EMPTY, t);
    var queued := Queueing(planned, t.id);
    ([EMPTY, planned, queued, Starting(queued, t.id, now)], [Plan(t), Queue(t.id), Begin(t.id, now)])
  }

  /** Whatever its allowance, a task that is queued may be started once. */
  lemma FirstStartIsUnchecked(t: Task, now: int)
    requires t.attempts == 0
    ensures var (history, moves) := OneStart(t, now);
      IsHistory(history, moves) && Plan(t) in moves && Count(history[|moves|].starts, t.id) == 1
  {
    var (history, moves) := OneStart(t, now);
    assert Follows(history, moves, 0) && Follows(history, moves, 1) && Follows(history, moves, 2);
    assert moves[0] in moves;
    CountsOneMore([], t.id);
    assert history[3].starts == [] + [t.id];
  }

  ghost predicate WithinAllowance(history: seq<Books>, moves: seq<BookMove>, t: Task) {
    IsHistory(history, moves) && Plan(t) in moves ==> Count(history[|moves|].starts, t.id) <= t.maxAttempts
  }

  /** Starts stay within `maxAttempts` in every history if and only if `maxAttempts` is at least 1. */
  lemma AllowanceHoldsExactly(t: Task)
    requires t.attempts == 0
    ensures t.maxAttempts >= 1 <==> forall history, moves :: WithinAllowance(history, moves, t)
  {
    if t.maxAttempts >= 1 {
      forall history, moves ensures WithinAllowance(history, moves, t) {
        if IsHistory(history, moves) && Plan(t) in moves {
          AllowanceKept(history, moves, t);
          HistoryBalances(history, moves);
          StartsBounded(history[|moves|], t.id);
        }
      }
    } else {
      FirstStartIsUnchecked(t, 0);
      var (history, moves) := OneStart(t, 0);
      assert !WithinAllowance(history, moves, t);
    }
  }

  // --- stopping ----------------------------------------------------------------------------

  ghost predicate EveryTaskEnded(b: Books) {
    forall id :: id in b.submitted ==> id in b.ended && Terminal(b.ended[id].status)
  }

  lemma AllEndedExactly(b: Books)
    requires Balanced(b)
    ensures EveryTaskEnded(b) <==> b.planning == map[] && b.queued == map[] && b.running == map[]
  {
    ShelvesApart(b);
    if b.planning == map[] && b.queued == map[] && b.running == map[] {
      forall id | id in b.submitted ensures id in b.ended && Terminal(b.ended[id].status) {
        assert Shelved(b, id) && EndedFits(b, id);
      }
    }
    if EveryTaskEnded(b) {
      forall id ensures id !in b.planning && id !in b.queued && id !in b.running {
        assert id in b.planning.Keys + b.queued.Keys + b.running.Keys + b.ended.Keys ==>
          id in (set x | x in b.submitted);
      }
    }
  }

  /** What may still happen once the scheduler has stopped: plans arrive unchecked, tasks are cancelled or given up. */
  predicate WhileStopped(m: BookMove) {
    m.Queue? || (m.End? && (m.status.Cancelled? || m.status.Failed?))
  }

  ghost predicate AllWhileStopped(moves: seq<BookMove>) {
    forall i :: 0 <= i < |moves| ==> WhileStopped(moves[i])
  }

  /** The books after further moves, if each is permitted when its turn comes. */
  ghost function Continued(b: Books, moves: seq<BookMove>): Option<Books> {
    if moves == [] then Some(b)
    else
      match Continued(b, moves[..|moves| - 1])
      case None => None
      case Some(c) => if Permitted(c, moves[|moves| - 1]) then Some(Entered(c, moves[|moves| - 1])) else None
  }

  lemma ContinuedOneMore(b: Books, moves: seq<BookMove>, m: BookMove)
    requires Continued(b, moves).Some? && Permitted(Continued(b, moves).value, m)
    ensures Continued(b, moves + [m]) == Some(Entered(Continued(b, moves).value, m))
  {
    assert (moves + [m])[..|moves|] == moves;
  }

  lemma {:induction false} ContinuedBalances(b: Books, moves: seq<BookMove>)
    requires Balanced(b) && Continued(b, moves).Some?
    ensures Balanced(Continued(b, moves).value)
  {
    if moves != [] {
      var init := moves[..|moves| - 1];
      ContinuedBalances(b, init);
      EnteredKeeps(Continued(b, init).value, moves[|moves| - 1]);
    }
  }

  lemma {:induction false} NothingArrives(b: Books, moves: seq<BookMove>)
    requires b.planning == map[] && b.queued == map[] && AllWhileStopped(moves) && Continued(b, moves).Some?
    ensures Continued(b, moves).value.planning == map[] && Continued(b, moves).value.queued == map[]
  {
    if moves != [] {
      NothingArrives(b, moves[..|moves| - 1]);
      assert WhileStopped(moves[|moves| - 1]);
    }
  }

  /** The moves that give up every running task. */
  lemma GiveUpAll(b: Books, before: seq<BookMove>) returns (moves: seq<BookMove>)
    requires AllWhileStopped(before) && Continued(b, before).Some?
    ensures AllWhileStopped(moves) && Continued(b, moves).Some?
    ensures Continued(b, moves).value.running == map[]
      && Continued(b, moves).value.planning == Continued(b, before).value.planning
    decreases |Continued(b, before).value.running|
  {
    var c := Continued(b, before).value;
    if c.running == map[] {
      moves := before;
    } else {
      var id :| id in c.running;
      var m := End(id, Failed, None);
      ContinuedOneMore(b, before, m);
      assert c.running.Keys == (c.running - {id}).Keys + {id};
      moves := GiveUpAll(b, before + [m]);
    }
  }

  /** One way the stop may end: after these moves nothing is running any more. */
  ghost predicate StopsAs(b: Books, moves: seq<BookMove>) {
    AllWhileStopped(moves) && Continued(b, moves).Some? && Continued(b, moves).value.running == map[]
  }

  /**
   * `b` is what the drain leaves. However the stop goes on, it ends with every submitted task
   * terminal, if and only if no submit was still planning when the drain ran.
   */
  lemma StopEndsAllExactly(b: Books)
    requires Balanced(b) && b.queued == map[]
    ensures b.planning == map[] <==> forall moves :: StopsAs(b, moves) ==> EveryTaskEnded(Continued(b, moves).value)
  {
    if b.planning == map[] {
      forall moves | StopsAs(b, moves) ensures EveryTaskEnded(Continued(b, moves).value) {
        NothingArrives(b, moves);
        ContinuedBalances(b, moves);
        AllEndedExactly(Continued(b, moves).value);
      }
    } else {
      var moves := GiveUpAll(b, []);
      ContinuedBalances(b, moves);
      AllEndedExactly(Continued(b, moves).value);
      assert StopsAs(b, moves) && !EveryTaskEnded(Continued(b, moves).value);
    }
  }

  predicate CancelsByHand(m: BookMove, id: TaskId) { m.End? && m.id == id && m.status.Cancelled? }

  /** A task that is queued in a stopped scheduler stays so for good, unless somebody cancels it. */
  lemma {:induction false} StrandedForGood(b: Books, moves: seq<BookMove>, id: TaskId)
    requires Balanced(b) && id in b.queued && AllWhileStopped(moves) && Continued(b, moves).Some?
    requires forall i :: 0 <= i < |moves| ==> !CancelsByHand(moves[i], id)
    ensures id in Continued(b, moves).value.queued && Continued(b, moves).value.queued[id] == b.queued[id]
  {
    if moves != [] {
      var init, m := moves[..|moves| - 1], moves[|moves| - 1];
      StrandedForGood(b, init, id);
      ContinuedBalances(b, init);
      assert WhileStopped(m) && !CancelsByHand(m, id);
      assert QueuedFits(Continued(b, init).value, id);
    }
  }

  /** A submit that is still planning when the scheduler stops: the drain finds nothing, then the task is queued. */
  lemma LateSubmitIsStranded(t: Task)
    requires t.attempts == 0
    ensures Permitted(EMPTY, Plan(t))
    ensures var atDrain := Entered(EMPTY, Plan(t));
      && atDrain.queued == map[] && atDrain.running == map[] && StopsAs(atDrain, [])
      && Permitted(atDrain, Queue(t.id))
      && t.id in Entered(atDrain, Queue(t.id)).queued && !EveryTaskEnded(Entered(atDrain, Queue(t.id)))
  {
    var atDrain := Entered(EMPTY, Plan(t));
    assert t.id in atDrain.submitted && t.id !in Entered(atDrain, Queue(t.id)).ended;
  }

  // --- what one loop of the scheduler does -------------------------------------------------

  const TIMED_OUT := "Task timed out"
  const SHUTDOWN := "Scheduler shutdown"

  /** The first `n` of the queue were started, in queue order. */
  ghost predicate Handed(n: nat, order: seq<TaskId>, left: seq<TaskId>, before: seq<BookMove>, after: seq<BookMove>,
                         begun: Clock) {
    n <= |order| && left == order[n..] && after == before + Begins(order[..n], begun)
  }

  ghost predicate HandedSome(order: seq<TaskId>, left: seq<TaskId>, before: seq<BookMove>, after: seq<BookMove>,
                             begun: Clock) {
    exists n: nat :: Handed(n, order, left, before, after, begun)
  }

  lemma HandedOne(n: nat, order: seq<TaskId>, left: seq<TaskId>, rest: seq<TaskId>, before: seq<BookMove>,
                  after: seq<BookMove>, begun: Clock)
    requires Handed(n, order, left, before, after, begun) && left != [] && left == [left[0]] + rest
    ensures Handed(n + 1, order, rest, before, after + [Begin(left[0], begun(left[0]))], begun)
  {
    assert rest == left[1..];
    assert order[..n + 1] == order[..n] + [left[0]];
    assert Begins(order[..n + 1], begun) == Begins(order[..n], begun) + [Begin(left[0], begun(left[0]))];
  }

  /** The task taken from the queue was the next in line, and it alone joined those running. */
  ghost predicate StartedNext(arrived: seq<TaskId>, tasks: Tasks, was: Tasks, running: Tasks, id: TaskId, now: int) {
    && Known(arrived, tasks) && IsNext(arrived, tasks, id)
    && id in running && running == was[id := running[id]] && AttemptBegun(tasks[id], running[id], now)
  }

  /** Nothing left waiting is more urgent than a task that was not running like this before. */
  ghost predicate NoneLeftMoreUrgent(was: Tasks, running: Tasks, order: seq<TaskId>, tasks: Tasks) {
    forall x, y :: x in running && !(x in was && running[x] == was[x]) && y in order ==>
      y in tasks && !MoreUrgent(tasks[y].priority, running[x].priority)
  }

  lemma StartingNextKeepsUrgency(was: Tasks, before: Tasks, order: seq<TaskId>, tasks: Tasks, arrived: seq<TaskId>,
                                 running: Tasks, rest: seq<TaskId>, now: int)
    requires NoneLeftMoreUrgent(was, before, order, tasks) && order != [] && order == [order[0]] + rest
    requires Known(order, tasks) && ByWeight(order, tasks) && NoDuplicates(order)
    requires StartedNext(arrived, tasks, before, running, order[0], now)
    ensures NoneLeftMoreUrgent(was, running, rest, tasks - {order[0]})
  {
    var id, left := order[0], tasks - {order[0]};
    forall x, y | x in running && !(x in was && running[x] == was[x]) && y in rest
      ensures y in left && !MoreUrgent(left[y].priority, running[x].priority)
    {
      var j :| 0 <= j < |rest| && rest[j] == y;
      assert order[j + 1] == y && y in order && y != id;
      if x == id {
        SortedByUrgency(order, tasks, 0, j + 1);
      }
    }
  }

  lemma NoneLeftMoreUrgentSince(was: Tasks, kept: Tasks, running: Tasks, order: seq<TaskId>, tasks: Tasks)
    requires NoneLeftMoreUrgent(kept, running, order, tasks)
    requires forall x :: x in kept ==> x in was && kept[x] == was[x]
    ensures NoneLeftMoreUrgent(was, running, order, tasks)
  {
  }

  /** The first `n` of the queue were cancelled, in queue order. */
  ghost predicate Drained(n: nat, order: seq<TaskId>, left: seq<TaskId>, before: seq<BookMove>, after: seq<BookMove>) {
    n <= |order| && left == order[n..] && after == before + Drains(order[..n])
  }

  lemma DrainedOne(n: nat, order: seq<TaskId>, left: seq<TaskId>, rest: seq<TaskId>, before: seq<BookMove>,
                   after: seq<BookMove>)
    requires Drained(n, order, left, before, after) && left != [] && left == [left[0]] + rest
    ensures Drained(n + 1, order, rest, before, after + [End(left[0], Cancelled, None)])
  {
    assert rest == left[1..];
    assert order[..n + 1] == order[..n] + [left[0]];
    assert Drains(order[..n + 1]) == Drains(order[..n]) + [End(left[0], Cancelled, None)];
  }

  /** Since `before`, exactly one move was made for each of `all` that is not in `left`. */
  ghost predicate Dealt(all: set<TaskId>, left: set<TaskId>, before: seq<BookMove>, after: seq<BookMove>,
                        move: TaskId -> BookMove) {
    && left <= all && before <= after && |after| + |left| == |before| + |all|
    && forall id :: id in all && id !in left ==> move(id) in after[|before|..]
  }

  lemma DealtOne(all: set<TaskId>, left: set<TaskId>, before: seq<BookMove>, after: seq<BookMove>,
                 move: TaskId -> BookMove, id: TaskId)
    requires Dealt(all, left, before, after, move) && id in left
    ensures Dealt(all, left - {id}, before, after + [move(id)], move)
  {
    assert (after + [move(id)])[|before|..] == after[|before|..] + [move(id)];
    assert left == (left - {id}) + {id};
  }

  ghost function OverdueMove(running: Tasks): TaskId -> BookMove {
    id => if id in running then FailMove(running[id], TIMED_OUT) else Retry(id, TIMED_OUT)
  }

  /** Of the tasks running before, the overdue ones outside `todo` have been failed, each by one move. */
  ghost predicate Failing(was: Tasks, seen: Clock, todo: set<TaskId>, running: Tasks, before: seq<BookMove>,
                          after: seq<BookMove>) {
    running == was - (OverdueIn(was, seen) - todo) && Dealt(OverdueIn(was, seen), todo, before, after, OverdueMove(was))
  }

  lemma FailingOne(was: Tasks, seen: Clock, todo: set<TaskId>, running: Tasks, before: seq<BookMove>,
                   after: seq<BookMove>, id: TaskId)
    requires Failing(was, seen, todo, running, before, after) && id in todo
    ensures id in running
      && Failing(was, seen, todo - {id}, running - {id}, before, after + [FailMove(running[id], TIMED_OUT)])
  {
    OneMoreGone(was, OverdueIn(was, seen), todo, running, id);
    DealtOne(OverdueIn(was, seen), todo, before, after, OverdueMove(was), id);
  }

  lemma OneMoreGone(was: Tasks, all: set<TaskId>, todo: set<TaskId>, running: Tasks, id: TaskId)
    requires running == was - (all - todo) && id in todo && todo <= all && all <= was.Keys
    ensures id in running && running[id] == was[id] && running - {id} == was - (all - (todo - {id}))
  {
    assert all - (todo - {id}) == (all - todo) + {id};
  }

  // --- the queue after a round of failures -------------------------------------------------

  /** One lane after these moves: a task sent back leaves where it stood and joins the back of its own lane. */
  ghost function LaneAfter(order: seq<TaskId>, tasks: Tasks, was: Tasks, fails: seq<BookMove>, w: nat): seq<TaskId> {
    if fails == [] then Lane(order, tasks, w)
    else
      var before, m := LaneAfter(order, tasks, was, fails[..|fails| - 1], w), fails[|fails| - 1];
      if m.Retry? && m.id in was
      then Without(before, m.id) + (if w == Weight(was[m.id].priority) then [m.id] else [])
      else before
  }

  ghost function OrderAfter(order: seq<TaskId>, tasks: Tasks, was: Tasks, fails: seq<BookMove>): seq<TaskId> {
    LaneAfter(order, tasks, was, fails, 0) + LaneAfter(order, tasks, was, fails, 1)
    + LaneAfter(order, tasks, was, fails, 2) + LaneAfter(order, tasks, was, fails, 3)
  }

  /** The queue stands as these moves leave it, lane by lane. */
  ghost predicate LanesFollow(order: seq<TaskId>, tasks: Tasks, was: Tasks, fails: seq<BookMove>, r: seq<TaskId>,
                              now: Tasks) {
    forall w: nat :: Lane(r, now, w) == LaneAfter(order, tasks, was, fails, w)
  }

  /** What one failed attempt does to the queue. */
  ghost predicate QueueAfterFailure(order: seq<TaskId>, tasks: Tasks, r: seq<TaskId>, now: Tasks, t: Task,
                                    error: string) {
    if t.attempts < t.maxAttempts then Requeued(order, tasks, r, now, Reset(t, error)) else r == order && now == tasks
  }

  lemma LanesFollowOneMore(order: seq<TaskId>, tasks: Tasks, was: Tasks, fails: seq<BookMove>, mid: seq<TaskId>,
                           between: Tasks,
                           r: seq<TaskId>, now: Tasks, t: Task, error: string)
    requires LanesFollow(order, tasks, was, fails, mid, between) && t.id in was && was[t.id] == t
    requires QueueAfterFailure(mid, between, r, now, t, error)
    ensures LanesFollow(order, tasks, was, fails + [FailMove(t, error)], r, now)
  {
    var more := fails + [FailMove(t, error)];
    assert more[..|more| - 1] == fails;
    forall w: nat ensures Lane(r, now, w) == LaneAfter(order, tasks, was, more, w) {
      assert Lane(mid, between, w) == LaneAfter(order, tasks, was, fails, w);
    }
  }

  lemma LanesMakeOrder(order: seq<TaskId>, tasks: Tasks, was: Tasks, fails: seq<BookMove>, r: seq<TaskId>, now: Tasks)
    requires LanesFollow(order, tasks, was, fails, r, now)
    requires NoDuplicates(r) && Known(r, now) && ByWeight(r, now)
    ensures r == OrderAfter(order, tasks, was, fails)
  {
    OrderIsLanes(r, now);
  }

  /** Partway through a round: what has been failed so far, and how the queue stands. */
  ghost predicate InRound(was: Tasks, seen: Clock, todo: set<TaskId>, running: Tasks, first: seq<BookMove>,
                          moves: seq<BookMove>,
                          order: seq<TaskId>, tasks: Tasks, r: seq<TaskId>, between: Tasks) {
    Failing(was, seen, todo, running, first, moves) && LanesFollow(order, tasks, was, moves[|first|..], r, between)
  }

  lemma RoundOneMore(was: Tasks, seen: Clock, todo: set<TaskId>, running: Tasks, first: seq<BookMove>,
                     moves: seq<BookMove>,
                     order: seq<TaskId>, tasks: Tasks, mid: seq<TaskId>, between: Tasks, r: seq<TaskId>, after: Tasks,
                       id: TaskId)
    requires InRound(was, seen, todo, running, first, moves, order, tasks, mid, between)
    requires id in todo && id in running && running[id].id == id
      && QueueAfterFailure(mid, between, r, after, running[id], TIMED_OUT)
    ensures InRound(was, seen, todo - {id}, running - {id}, first, moves + [FailMove(running[id], TIMED_OUT)], order,
                    tasks, r, after)
  {
    FailingOne(was, seen, todo, running, first, moves, id);
    assert (moves + [FailMove(running[id], TIMED_OUT)])[|first|..] ==
      moves[|first|..] + [FailMove(running[id], TIMED_OUT)];
    LanesFollowOneMore(order, tasks, was, moves[|first|..], mid, between, r, after, was[id], TIMED_OUT);
  }

  lemma RoundIdRuns(was: Tasks, seen: Clock, todo: set<TaskId>, running: Tasks, first: seq<BookMove>,
                    moves: seq<BookMove>,
                    order: seq<TaskId>, tasks: Tasks, r: seq<TaskId>, between: Tasks, id: TaskId)
    requires InRound(was, seen, todo, running, first, moves, order, tasks, r, between) && id in todo
    ensures id in running
  {
  }

  /** A round of failures is over: those kept still run, and the queue holds what the round left in it. */
  ghost predicate RoundDone(was: Tasks, seen: Clock, kept: Tasks, order: seq<TaskId>, tasks: Tasks, left: seq<TaskId>,
                            before: seq<BookMove>, after: seq<BookMove>)
  {
    Failing(was, seen, {}, kept, before, after) && left == OrderAfter(order, tasks, was, after[|before|..])
  }

  /** A whole poll: one round of failures, then the head of the queue this leaves is handed out. */
  ghost predicate Polled(was: Tasks, seen: Clock, begun: Clock, order: seq<TaskId>, tasks: Tasks, left: seq<TaskId>,
                         before: seq<BookMove>, after: seq<BookMove>) {
    before <= after && exists kept, failed, n: nat ::
      PolledAs(was, seen, begun, order, tasks, left, before, after, kept, failed, n)
  }

  ghost predicate PolledAs(was: Tasks, seen: Clock, begun: Clock, order: seq<TaskId>, tasks: Tasks, left: seq<TaskId>,
                           before: seq<BookMove>, after: seq<BookMove>,
                           kept: Tasks, failed: seq<BookMove>, n: nat) {
    && Failing(was, seen, {}, kept, before, failed)
    && Handed(n, OrderAfter(order, tasks, was, failed[|before|..]), left, failed, after, begun)
  }

  lemma PollIsRoundAndHand(was: Tasks, seen: Clock, begun: Clock, order: seq<TaskId>, tasks: Tasks,
                           middle: seq<TaskId>, left: seq<TaskId>,
                           before: seq<BookMove>, kept: Tasks, failed: seq<BookMove>, after: seq<BookMove>)
    requires RoundDone(was, seen, kept, order, tasks, middle, before, failed)
    requires HandedSome(middle, left, failed, after, begun)
    ensures Polled(was, seen, begun, order, tasks, left, before, after)
  {
    var n: nat :| Handed(n, middle, left, failed, after, begun);
    assert PolledAs(was, seen, begun, order, tasks, left, before, after, kept, failed, n);
  }
}
