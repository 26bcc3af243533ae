/** The background task registry: a capped scheduler with a FIFO of waiters.

    A label is one region under the registry and task mutexes, or one process event. The
    phase of a task follows the goroutines that act for it: the caller or handler that is
    launching it, the Wait goroutine of its process, and that goroutine's exit handler. */
module TaskScheduler {
  import opened Runs
  import opened Sets

  type TaskId = nat
  datatype Status = Queued | Running | Done | Stopped | Failed

  datatype Phase =
    | Idle                             // never handed to launch
    | Launching(caller: Option<TaskId>)    // inside launch, called by Start or by a task's handler
    | Live                             // its process runs, or has not been waited for yet
    | Handling                         // its exit handler is at the top of startNextWaiter
    | Handing(child: TaskId)           // its exit handler is launching a waiter
    | Finished

  datatype Task = Task(status: Status, phase: Phase)

  datatype State = State(
    cap: nat, tasks: map<TaskId, Task>, waiters: seq<TaskId>,
    // History: queue order in and out, calls of launch, tasks stopped while queued,
    // failed immediate launches, waiters popped after they were stopped.
    submitted: seq<TaskId>, retired: seq<TaskId>, launches: seq<TaskId>,
    cut: set<TaskId>, lost: nat, hollow: nat)

  datatype Label =
    | Start(id: TaskId) | Launched(id: TaskId) | LaunchFailed(id: TaskId)
    | Exit(id: TaskId, clean: bool) | Next(id: TaskId) | Stop(id: TaskId) | ReapAll

  const QUEUE_BOUND: nat := 64
  const DEFAULT_CAP: nat := 16

  function Capacity(configured: int): (cap: nat)
    ensures cap > 0
  {
    if configured <= 0 then DEFAULT_CAP else configured
  }

  function Init(configured: int): State {
    State(Capacity(configured), map[], [], [], [], [], {}, 0, 0)
  }

  function Select(tasks: map<TaskId, Task>, p: Task -> bool): set<TaskId> {
    set t | t in tasks && p(tasks[t])
  }

  predicate IsRunning(t: Task) { t.status.Running? }

  // Those who will still act on the queue: launching or live tasks, and idle handlers. A
  // handler that is launching a waiter is counted through that waiter.
  predicate Holds(t: Task) { t.phase.Launching? || t.phase.Live? || t.phase.Handling? }

  // Marked running, but no process belongs to them and none is being started.
  predicate IsHollow(t: Task) { t.status.Running? && t.phase.Idle? }

  function RunningSet(tasks: map<TaskId, Task>): set<TaskId> { Select(tasks, IsRunning) }
  function Holders(tasks: map<TaskId, Task>): set<TaskId> { Select(tasks, Holds) }
  function Hollow(tasks: map<TaskId, Task>): set<TaskId> { Select(tasks, IsHollow) }

  function SetStatus(tasks: map<TaskId, Task>, id: TaskId, st: Status): map<TaskId, Task>
    requires id in tasks
  {
    tasks[id := tasks[id].(status := st)]
  }

  function SetPhase(tasks: map<TaskId, Task>, id: TaskId, p: Phase): map<TaskId, Task>
    requires id in tasks
  {
    tasks[id := tasks[id].(phase := p)]
  }

  function ExitStatus(st: Status, clean: bool): Status {
    if clean then Done else if st.Stopped? then Stopped else Failed
  }

  function StopAll(tasks: map<TaskId, Task>, ids: seq<TaskId>): map<TaskId, Task> {
    map t | t in tasks :: if t in ids then tasks[t].(status := Stopped) else tasks[t]
  }

  predicate Enabled(s: State, l: Label) {
    match l
    case Start(id) => id !in s.tasks
    case Launched(id) =>
      id in s.tasks && s.tasks[id].phase.Launching? &&
      (s.tasks[id].phase.caller.Some? ==> s.tasks[id].phase.caller.value in s.tasks)
    case LaunchFailed(id) =>
      id in s.tasks && s.tasks[id].phase.Launching? &&
      (s.tasks[id].phase.caller.Some? ==> s.tasks[id].phase.caller.value in s.tasks)
    case Exit(id, _) => id in s.tasks && s.tasks[id].phase.Live?
    case Next(id) =>
      id in s.tasks && s.tasks[id].phase.Handling? &&
      (s.waiters != [] ==> s.waiters[0] in s.tasks && s.waiters[0] != id)
    case Stop(id) => id in s.tasks
    case ReapAll => true
  }

  function Apply(s: State, l: Label): State
    requires Enabled(s, l)
  {
    match l
    case Start(id) =>
      if |RunningSet(s.tasks)| >= s.cap then
        if |s.waiters| >= QUEUE_BOUND then s
        else s.(tasks := s.tasks[id := Task(Queued, Idle)], waiters := s.waiters + [id],
                submitted := s.submitted + [id])
      else s.(tasks := s.tasks[id := Task(Running, Launching(None))], launches := s.launches + [id])
    case Launched(id) =>
      var live := SetPhase(s.tasks, id, Live);
      var caller := s.tasks[id].phase.caller;
      s.(tasks := if caller.Some? then SetPhase(live, caller.value, Finished) else live)
    case LaunchFailed(id) =>
      var failed := s.tasks[id := Task(Failed, Finished)];
      var caller := s.tasks[id].phase.caller;
      if caller.Some? then s.(tasks := SetPhase(failed, caller.value, Handling))
      else s.(tasks := failed, lost := s.lost + 1)
    case Exit(id, clean) =>
      s.(tasks := s.tasks[id := Task(ExitStatus(s.tasks[id].status, clean), Handling)])
    case Next(id) =>
      if |RunningSet(s.tasks)| >= s.cap || s.waiters == [] then
        s.(tasks := SetPhase(s.tasks, id, Finished))
      else
        var next := s.waiters[0];
        var popped := s.(waiters := s.waiters[1..], retired := s.retired + [next]);
        if s.tasks[next].status.Queued? then
          popped.(tasks := SetPhase(s.tasks[next := Task(Running, Launching(Some(id)))], id, Handing(next)),
                  launches := s.launches + [next])
        else
          popped.(tasks := SetStatus(s.tasks, next, Running), hollow := s.hollow + 1)
    case Stop(id) =>
      s.(tasks := SetStatus(s.tasks, id, Stopped),
         cut := if s.tasks[id].status.Queued? then s.cut + {id} else s.cut)
    case ReapAll =>
      s.(tasks := StopAll(s.tasks, s.waiters), waiters := [],
         retired := s.retired + s.waiters, cut := s.cut + set t | t in s.waiters)
  }

  function Step(s: State, l: Label): Option<State> {
    if Enabled(s, l) then Some(Apply(s, l)) else None
  }

  predicate Distinct(ids: seq<TaskId>) {
    forall i, j :: 0 <= i < j < |ids| ==> ids[i] != ids[j]
  }

  // The queue and the tasks agree.
  ghost predicate QueueInv(s: State) {
    && Distinct(s.waiters) && |s.waiters| <= QUEUE_BOUND
    && s.submitted == s.retired + s.waiters
    && (forall t :: t in s.waiters ==>
         t in s.tasks && s.tasks[t].phase.Idle? && (s.tasks[t].status.Queued? || s.tasks[t].status.Stopped?))
    && (forall t :: t in s.tasks && s.tasks[t].status.Queued? ==> t in s.waiters)
  }

  ghost predicate LaunchInv(s: State) {
    && Distinct(s.launches)
    && (forall t :: t in s.launches <==> t in s.tasks && !s.tasks[t].phase.Idle?)
    && (forall t :: t in s.cut ==> t in s.tasks && s.tasks[t].phase.Idle? && !s.tasks[t].status.Queued?)
    && (forall t :: t in s.tasks && s.tasks[t].status.Running? ==>
         s.tasks[t].phase.Idle? || s.tasks[t].phase.Launching? || s.tasks[t].phase.Live?)
  }

  // A handler that launches and the waiter it launches name each other.
  ghost predicate PairInv(s: State) {
    && (forall t :: t in s.tasks && s.tasks[t].phase.Launching? && s.tasks[t].phase.caller.Some? ==>
         var h := s.tasks[t].phase.caller.value;
         h in s.tasks && s.tasks[h].phase == Handing(t))
    && (forall h :: h in s.tasks && s.tasks[h].phase.Handing? ==>
         var t := s.tasks[h].phase.child;
         t in s.tasks && s.tasks[t].phase == Launching(Some(h)))
  }

  ghost predicate SlotInv(s: State) {
    && s.cap > 0
    && |RunningSet(s.tasks)| <= s.cap
    && |Hollow(s.tasks)| <= s.hollow
    && (s.waiters != [] ==> |Holders(s.tasks)| + s.lost + s.hollow >= s.cap)
  }

  ghost predicate Inv(s: State) { QueueInv(s) && LaunchInv(s) && PairInv(s) && SlotInv(s) }

  lemma QueueStart(s: State, id: TaskId)
    requires QueueInv(s) && Enabled(s, Start(id))
    ensures QueueInv(Apply(s, Start(id)))
  {
    assert id !in s.waiters;
  }

  lemma PopHead(ids: seq<TaskId>)
    requires Distinct(ids) && ids != []
    ensures Distinct(ids[1..]) && ids == [ids[0]] + ids[1..] && ids[0] !in ids[1..]
    ensures forall x :: x in ids <==> x == ids[0] || x in ids[1..]
  {
  }

  lemma QueueNext(s: State, id: TaskId)
    requires QueueInv(s) && Enabled(s, Next(id))
    ensures QueueInv(Apply(s, Next(id)))
  {
    if |RunningSet(s.tasks)| < s.cap && s.waiters != [] {
      PopHead(s.waiters);
      hide Distinct;
      QueuePop(s, id);
    }
  }

  lemma QueuePop(s: State, id: TaskId)
    requires QueueInv(s) && Enabled(s, Next(id)) && |RunningSet(s.tasks)| < s.cap && s.waiters != []
    requires Distinct(s.waiters[1..]) && s.waiters == [s.waiters[0]] + s.waiters[1..] && s.waiters[0] !in s.waiters[1..]
    requires forall x :: x in s.waiters <==> x == s.waiters[0] || x in s.waiters[1..]
    ensures QueueInv(Apply(s, Next(id)))
  {
    hide Distinct;
    var t := Apply(s, Next(id));
    assert t.submitted == t.retired + t.waiters;
  }

  lemma QueueLaunch(s: State, l: Label)
    requires QueueInv(s) && PairInv(s) && Enabled(s, l) && (l.Launched? || l.LaunchFailed?)
    ensures QueueInv(Apply(s, l))
  {
  }

  lemma QueueOther(s: State, l: Label)
    requires QueueInv(s) && Enabled(s, l) && (l.Exit? || l.Stop? || l.ReapAll?)
    ensures QueueInv(Apply(s, l))
  {
  }

  lemma StepQueue(s: State, l: Label)
    requires QueueInv(s) && PairInv(s) && Enabled(s, l)
    ensures QueueInv(Apply(s, l))
  {
    match l {
      case Start(id) => QueueStart(s, id);
      case Next(id) => QueueNext(s, id);
      case Launched(_) => QueueLaunch(s, l);
      case LaunchFailed(_) => QueueLaunch(s, l);
      case _ => QueueOther(s, l);
    }
  }

  lemma StepLaunch(s: State, l: Label)
    requires QueueInv(s) && LaunchInv(s) && PairInv(s) && Enabled(s, l)
    ensures LaunchInv(Apply(s, l))
  {
    hide QueueInv, LaunchInv, PairInv;
    if l.Next? { LaunchNext(s, l.id); } else { LaunchOther(s, l); }
  }

  lemma LaunchNext(s: State, id: TaskId)
    requires QueueInv(s) && LaunchInv(s) && PairInv(s) && Enabled(s, Next(id))
    ensures LaunchInv(Apply(s, Next(id)))
  {
    if s.waiters != [] { assert s.waiters[0] in s.waiters; }
  }

  lemma LaunchOther(s: State, l: Label)
    requires QueueInv(s) && LaunchInv(s) && PairInv(s) && Enabled(s, l) && !l.Next?
    ensures LaunchInv(Apply(s, l))
  {
  }

  lemma PairNext(s: State, id: TaskId)
    requires QueueInv(s) && PairInv(s) && Enabled(s, Next(id))
    ensures PairInv(Apply(s, Next(id)))
  {
    if s.waiters != [] {
      assert s.waiters[0] in s.waiters;
    }
  }

  lemma StepPair(s: State, l: Label)
    requires QueueInv(s) && PairInv(s) && Enabled(s, l)
    ensures PairInv(Apply(s, l))
  {
    if l.Next? {
      PairNext(s, l.id);
    }
  }

  // Every running task that is not hollow holds, and an idle handler is no running task.
  lemma RunningHolds(s: State, without: set<TaskId>)
    requires Inv(s) && forall h :: h in without ==> h in s.tasks && s.tasks[h].phase.Handling?
    ensures |RunningSet(s.tasks)| <= |Holders(s.tasks) - without| + |Hollow(s.tasks)|
  {
    var a, b := Holders(s.tasks) - without, Hollow(s.tasks);
    assert RunningSet(s.tasks) <= a + b;
    Within(RunningSet(s.tasks), a + b);
    assert |a + b| <= |a| + |b|;
  }

  // How one task's new entry changes the three counts.

  function One(b: bool): int { if b then 1 else 0 }

  lemma PutCount(tasks: map<TaskId, Task>, p: Task -> bool, id: TaskId, task: Task)
    ensures |Select(tasks[id := task], p)| ==
      |Select(tasks, p)| + One(p(task)) - One(id in tasks && p(tasks[id]))
  {
    assert Select(tasks[id := task], p) == if p(task) then Select(tasks, p) + {id} else Select(tasks, p) - {id};
  }

  lemma PutCounts(tasks: map<TaskId, Task>, id: TaskId, task: Task)
    ensures var after := tasks[id := task];
      && |RunningSet(after)| == |RunningSet(tasks)| + One(IsRunning(task)) - One(id in tasks && IsRunning(tasks[id]))
      && |Holders(after)| == |Holders(tasks)| + One(Holds(task)) - One(id in tasks && Holds(tasks[id]))
      && |Hollow(after)| == |Hollow(tasks)| + One(IsHollow(task)) - One(id in tasks && IsHollow(tasks[id]))
  {
    PutCount(tasks, IsRunning, id, task);
    PutCount(tasks, Holds, id, task);
    PutCount(tasks, IsHollow, id, task);
  }

  lemma StopAllCounts(s: State)
    requires QueueInv(s)
    ensures var after := StopAll(s.tasks, s.waiters);
      RunningSet(after) == RunningSet(s.tasks) && Holders(after) == Holders(s.tasks) && Hollow(after) == Hollow(s.tasks)
  {
  }

  // How one step changes the counts.
  predicate Counts(s: State, l: Label)
    requires Enabled(s, l)
  {
    var t := Apply(s, l);
    && |Holders(t.tasks)| == |Holders(s.tasks)| + HoldersChange(s, l)
    && |Hollow(t.tasks)| - t.hollow <= |Hollow(s.tasks)| - s.hollow
    && (|RunningSet(t.tasks)| <= |RunningSet(s.tasks)| ||
        (|RunningSet(s.tasks)| < s.cap && |RunningSet(t.tasks)| == |RunningSet(s.tasks)| + 1))
  }

  lemma StepCounts(s: State, l: Label)
    requires Inv(s) && Enabled(s, l)
    ensures Counts(s, l)
  {
    if l.Launched? || l.LaunchFailed? {
      LaunchEndCounts(s, l);
    } else {
      match l {
        case Start(id) =>
          PutCounts(s.tasks, id, Task(Queued, Idle));
          PutCounts(s.tasks, id, Task(Running, Launching(None)));
        case Exit(id, clean) => PutCounts(s.tasks, id, Task(ExitStatus(s.tasks[id].status, clean), Handling));
        case Next(id) => NextCounts(s, id);
        case Stop(id) => PutCounts(s.tasks, id, s.tasks[id].(status := Stopped));
        case ReapAll => StopAllCounts(s);
      }
      hide Inv, Select, IsRunning, Holds, IsHollow;
    }
  }

  lemma LaunchEndCounts(s: State, l: Label)
    requires Inv(s) && Enabled(s, l) && (l.Launched? || l.LaunchFailed?)
    ensures Counts(s, l)
  {
    match l {
      case Launched(id) => LaunchCounts(s, id, s.tasks[id].(phase := Live), Finished);
      case LaunchFailed(id) => LaunchCounts(s, id, Task(Failed, Finished), Handling);
    }
  }

  lemma LaunchCounts(s: State, id: TaskId, task: Task, handler: Phase)
    requires Inv(s) && id in s.tasks && s.tasks[id].phase.Launching? && !handler.Idle?
    ensures
      var once, h := s.tasks[id := task], s.tasks[id].phase.caller;
      && |Holders(once)| == |Holders(s.tasks)| + One(Holds(task)) - 1
      && |RunningSet(once)| == |RunningSet(s.tasks)| + One(IsRunning(task)) - One(IsRunning(s.tasks[id]))
      && |Hollow(once)| == |Hollow(s.tasks)| + One(IsHollow(task))
      && (h.Some? ==>
          h.value in once &&
          var twice := SetPhase(once, h.value, handler);
          |Holders(twice)| == |Holders(once)| + One(Holds(Task(Done, handler))) &&
          |RunningSet(twice)| == |RunningSet(once)| && |Hollow(twice)| == |Hollow(once)|)
  {
    PutCounts(s.tasks, id, task);
    if s.tasks[id].phase.caller.Some? {
      var h := s.tasks[id].phase.caller.value;
      var once := s.tasks[id := task];
      PutCounts(once, h, once[h].(phase := handler));
    }
  }

  lemma NextCounts(s: State, id: TaskId)
    requires Inv(s) && Enabled(s, Next(id))
    ensures var t := Apply(s, Next(id)); var full := |RunningSet(s.tasks)| >= s.cap;
      && |Holders(t.tasks)| == |Holders(s.tasks)| - One(full || s.waiters == [])
      && |Hollow(t.tasks)| - t.hollow <= |Hollow(s.tasks)| - s.hollow
      && |RunningSet(t.tasks)| == |RunningSet(s.tasks)| + One(!full && s.waiters != [])
  {
    if |RunningSet(s.tasks)| >= s.cap || s.waiters == [] {
      PutCounts(s.tasks, id, s.tasks[id].(phase := Finished));
    } else {
      var next := s.waiters[0];
      assert next in s.waiters;
      if s.tasks[next].status.Queued? {
        var once := s.tasks[next := Task(Running, Launching(Some(id)))];
        PutCounts(s.tasks, next, Task(Running, Launching(Some(id))));
        PutCounts(once, id, once[id].(phase := Handing(next)));
      } else {
        PutCounts(s.tasks, next, s.tasks[next].(status := Running));
      }
    }
  }

  function HoldersChange(s: State, l: Label): int
    requires Enabled(s, l)
  {
    match l
    case Start(id) => One(|RunningSet(s.tasks)| < s.cap)
    case LaunchFailed(id) => -One(s.tasks[id].phase.caller.None?)
    case Next(id) => -One(|RunningSet(s.tasks)| >= s.cap || s.waiters == [])
    case _ => 0
  }

  lemma StepSlots(s: State, l: Label)
    requires Inv(s) && Enabled(s, l)
    ensures SlotInv(Apply(s, l))
  {
    StepCounts(s, l);
    if l.Start? {
      RunningHolds(s, {});
      assert Holders(s.tasks) - {} == Holders(s.tasks);
    } else if l.Next? {
      RunningHolds(s, {l.id});
      assert |Holders(s.tasks) - {l.id}| == |Holders(s.tasks)| - 1;
    }
  }

  lemma StepInv(s: State, l: Label)
    requires Inv(s) && Enabled(s, l)
    ensures Inv(Apply(s, l))
  {
    StepQueue(s, l);
    StepLaunch(s, l);
    StepPair(s, l);
    StepSlots(s, l);
  }

  lemma InitInv(configured: int)
    ensures Inv(Init(configured))
  {
    assert RunningSet(map[]) == {} && Hollow(map[]) == {};
  }

  lemma RunInv(s: State, ls: seq<Label>)
    requires Inv(s) && CanRun(Step, s, ls)
    ensures Inv(Run(Step, s, ls))
  {
    forall t, l | Inv(t) && Step(t, l).Some? ensures Inv(Step(t, l).value) { StepInv(t, l); }
    RunKeeps(Step, Inv, s, ls);
  }

  // In the states that arise, Enabled demands nothing of a handler beyond being one.
  lemma HandlerAlwaysEnabled(s: State, id: TaskId)
    requires Inv(s) && id in s.tasks
    ensures s.tasks[id].phase.Handling? ==> Enabled(s, Next(id))
    ensures s.tasks[id].phase.Launching? ==> Enabled(s, Launched(id)) && Enabled(s, LaunchFailed(id))
  {
    if s.waiters != [] { assert s.waiters[0] in s.waiters; }
  }
}
