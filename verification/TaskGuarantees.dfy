/** What the background scheduler promises over every run: safety, order, and exactly how far
    it conserves work. */
module TaskGuarantees {
  import opened Runs
  import opened Sets
  import opened TaskScheduler

  // Main results, for every run from the empty registry.

  /** Safety: the cap on running tasks and the bound on the queue hold, a task is queued
      exactly while it waits unstopped, and launch is called at most once per task and
      never for a task stopped while queued. */
  lemma SchedulerSafety(configured: int, ls: seq<Label>)
    requires CanRun(Step, Init(configured), ls)
    ensures var t := Run(Step, Init(configured), ls);
      && |RunningSet(t.tasks)| <= (if configured <= 0 then 16 else configured)
      && |t.waiters| <= 64 && Distinct(t.waiters)
      && (forall x :: x in t.tasks && t.tasks[x].status.Queued?
           <==> x in t.waiters && x in t.tasks && !t.tasks[x].status.Stopped?)
      && Distinct(t.launches)
      && (forall x :: x in t.cut ==> x !in t.launches)
  {
    InitInv(configured);
    RunInv(Init(configured), ls);
    CapKept(Init(configured), ls);
  }

  lemma {:induction false} CapKept(s: State, ls: seq<Label>)
    requires CanRun(Step, s, ls)
    ensures Run(Step, s, ls).cap == s.cap
  {
    if ls != [] { CapKept(s, ls[..|ls|-1]); }
  }

  // The tasks whose Start found every slot taken and room in the queue, in the order of the
  // Starts.
  ghost function Joined(s: State, ls: seq<Label>): seq<TaskId>
    requires CanRun(Step, s, ls)
  {
    if ls == [] then []
    else
      var front, l := ls[..|ls|-1], ls[|ls|-1];
      var t := Run(Step, s, front);
      Joined(s, front) + if l.Start? && |RunningSet(t.tasks)| >= t.cap && |t.waiters| < 64 then [l.id] else []
  }

  lemma {:induction false} SubmittedIsJoined(s: State, ls: seq<Label>)
    requires CanRun(Step, s, ls)
    ensures Run(Step, s, ls).submitted == s.submitted + Joined(s, ls)
  {
    if ls != [] { SubmittedIsJoined(s, ls[..|ls|-1]); }
  }

  /** First in, first out: the queue is always what joined it last, in the order of the Starts,
      less what has left it from the front, whether popped or reaped. */
  lemma FifoOrder(configured: int, ls: seq<Label>)
    requires CanRun(Step, Init(configured), ls)
    ensures var t := Run(Step, Init(configured), ls);
      t.retired + t.waiters == Joined(Init(configured), ls) && |t.retired| <= |Joined(Init(configured), ls)| &&
      t.waiters == Joined(Init(configured), ls)[|t.retired|..]
  {
    InitInv(configured);
    RunInv(Init(configured), ls);
    SubmittedIsJoined(Init(configured), ls);
  }

  /** Work conservation, as an account that needs no hypothesis: while tasks wait, the
      launching and live tasks, the idle handlers, the failed immediate launches and the
      waiters popped after a stop together are at least the capacity. */
  lemma SlotAccount(configured: int, ls: seq<Label>)
    requires CanRun(Step, Init(configured), ls)
    ensures var t := Run(Step, Init(configured), ls);
      t.waiters != [] ==> |Holders(t.tasks)| + t.lost + t.hollow >= Capacity(configured)
  {
    InitInv(configured);
    RunInv(Init(configured), ls);
    CapKept(Init(configured), ls);
  }

  // Goroutines that will still come to the queue for a task that is no longer running.
  function Unfinished(tasks: map<TaskId, Task>): set<TaskId> {
    set t | t in tasks && !tasks[t].status.Running? && !tasks[t].phase.Idle? && !tasks[t].phase.Finished?
  }

  // The labels that break conservation: a failed immediate launch, and stopping a queued task.
  predicate Gentle(s: State, l: Label) {
    match l
    case LaunchFailed(id) => id in s.tasks && s.tasks[id].phase.Launching? && s.tasks[id].phase.caller.Some?
    case Stop(id) => id in s.tasks && !s.tasks[id].status.Queued?
    case _ => true
  }

  predicate GentleRun(s: State, ls: seq<Label>) {
    ls == [] ||
    (GentleRun(s, ls[..|ls|-1]) && CanRun(Step, s, ls[..|ls|-1]) &&
     Gentle(Run(Step, s, ls[..|ls|-1]), ls[|ls|-1]))
  }

  predicate LosesNothing(s: State) {
    s.lost == 0 && s.hollow == 0 && forall x :: x in s.waiters ==> x in s.tasks && s.tasks[x].status.Queued?
  }

  lemma GentleStep(s: State, l: Label)
    requires Inv(s) && Enabled(s, l) && Gentle(s, l) && LosesNothing(s)
    ensures LosesNothing(Apply(s, l))
  {
    if l.Next? && s.waiters != [] { assert s.waiters[0] in s.waiters; }
  }

  lemma {:induction false} GentleLosesNothing(configured: int, ls: seq<Label>)
    requires CanRun(Step, Init(configured), ls) && GentleRun(Init(configured), ls)
    ensures LosesNothing(Run(Step, Init(configured), ls))
  {
    hide Inv;
    if ls != [] {
      var front := ls[..|ls|-1];
      GentleLosesNothing(configured, front);
      InitInv(configured);
      RunInv(Init(configured), front);
      GentleStep(Run(Step, Init(configured), front), ls[|ls|-1]);
    }
  }

  /** Work conservation: when immediate launches succeed and no queued task is stopped on
      its own, a task waits only while running tasks and unfinished exit handlers fill the
      capacity; with no handler outstanding, only while every slot runs. */
  lemma WorkConservation(configured: int, ls: seq<Label>)
    requires CanRun(Step, Init(configured), ls) && GentleRun(Init(configured), ls)
    ensures var t := Run(Step, Init(configured), ls);
      t.waiters != [] ==>
        |RunningSet(t.tasks)| + |Unfinished(t.tasks)| >= Capacity(configured) &&
        (Unfinished(t.tasks) == {} ==> |RunningSet(t.tasks)| == Capacity(configured))
  {
    SlotAccount(configured, ls);
    GentleLosesNothing(configured, ls);
    SchedulerSafety(configured, ls);
    var t := Run(Step, Init(configured), ls);
    assert Holders(t.tasks) <= RunningSet(t.tasks) + Unfinished(t.tasks);
    Within(Holders(t.tasks), RunningSet(t.tasks) + Unfinished(t.tasks));
  }

  // One step at a time the loss is exact: from a state that conserves, the next one does
  // not in just these cases.
  predicate Conserves(s: State) { s.waiters != [] ==> |Holders(s.tasks)| >= s.cap }

  predicate Strands(s: State, l: Label)
    requires Enabled(s, l)
  {
    match l
    case LaunchFailed(id) => s.tasks[id].phase.caller.None? && s.waiters != [] && |Holders(s.tasks)| == s.cap
    case Next(id) => s.waiters != [] && |RunningSet(s.tasks)| >= s.cap && |Holders(s.tasks)| == s.cap
    case Start(id) => |RunningSet(s.tasks)| >= s.cap && s.waiters == [] && |Holders(s.tasks)| < s.cap
    case _ => false
  }

  lemma ConservationLostExactly(s: State, l: Label)
    requires Inv(s) && Enabled(s, l) && Conserves(s)
    ensures !Conserves(Apply(s, l)) <==> Strands(s, l)
  {
    StepCounts(s, l);
  }

  // Two runs that strand a waiter at capacity one. In the first the only immediate launch
  // fails; in the second a waiter stopped while queued is popped and marked running.

  lemma FailedLaunchStrands() returns (ls: seq<Label>)
    ensures CanRun(Step, Init(1), ls)
    ensures var t := Run(Step, Init(1), ls);
      t.waiters == [1] && RunningSet(t.tasks) == {} && Unfinished(t.tasks) == {}
  {
    RunOne(Step, Init(1), Start(0));
    assert RunningSet(map[]) == {};
    var s1 := Run(Step, Init(1), [Start(0)]);
    assert RunningSet(s1.tasks) == {0};
    RunSnoc(Step, Init(1), [Start(0)], Start(1));
    RunSnoc(Step, Init(1), [Start(0)] + [Start(1)], LaunchFailed(0));
    ls := [Start(0)] + [Start(1)] + [LaunchFailed(0)];
  }

  // Task 0 runs, task 1 is stopped in the queue, task 2 waits behind it.
  lemma StoppedInQueue() returns (ls: seq<Label>)
    ensures CanRun(Step, Init(1), ls)
    ensures var t := Run(Step, Init(1), ls);
      t.cap == 1 && t.waiters == [1, 2] &&
      t.tasks == map[0 := Task(Running, Live), 1 := Task(Stopped, Idle), 2 := Task(Queued, Idle)]
  {
    var s0 := Init(1);
    RunOne(Step, s0, Start(0));
    assert RunningSet(s0.tasks) == {};
    var s1 := Apply(s0, Start(0));
    RunSnoc(Step, s0, [Start(0)], Launched(0));
    var s2 := Apply(s1, Launched(0));
    var a := [Start(0)] + [Launched(0)];
    assert RunningSet(s2.tasks) == {0};
    RunSnoc(Step, s0, a, Start(1));
    var s3 := Apply(s2, Start(1));
    RunSnoc(Step, s0, a + [Start(1)], Stop(1));
    var s4 := Apply(s3, Stop(1));
    assert RunningSet(s4.tasks) == {0};
    ls := a + [Start(1)] + [Stop(1)];
    RunSnoc(Step, s0, ls, Start(2));
    ls := ls + [Start(2)];
    assert Run(Step, s0, ls) == Apply(s4, Start(2));
  }

  lemma StoppedWaiterHoldsASlot() returns (ls: seq<Label>)
    ensures CanRun(Step, Init(1), ls)
    ensures var t := Run(Step, Init(1), ls);
      t.waiters == [2] && RunningSet(t.tasks) == {1} && Hollow(t.tasks) == {1} && Unfinished(t.tasks) == {}
  {
    var s0 := Init(1);
    var b := StoppedInQueue();
    var s5 := Run(Step, s0, b);
    RunSnoc(Step, s0, b, Exit(0, true));
    var s6 := Apply(s5, Exit(0, true));
    assert RunningSet(s6.tasks) == {};
    RunSnoc(Step, s0, b + [Exit(0, true)], Next(0));
    var s7 := Apply(s6, Next(0));
    assert RunningSet(s7.tasks) == {1};
    RunSnoc(Step, s0, b + [Exit(0, true)] + [Next(0)], Next(0));
    ls := b + [Exit(0, true)] + [Next(0)] + [Next(0)];
    assert Run(Step, s0, ls) == Apply(s7, Next(0));
  }

  // Overtaking: a launch of a task that was not waiting, while others wait on.
  predicate LaunchesPast(s: State, l: Label)
    requires Enabled(s, l)
  {
    var t := Apply(s, l);
    |t.launches| > |s.launches| && t.launches[|s.launches|] !in s.waiters && t.waiters != []
  }

  /** The queue is overtaken exactly by a Start that finds a free slot while tasks wait. */
  lemma OvertakesExactly(s: State, l: Label)
    requires QueueInv(s) && Enabled(s, l)
    ensures LaunchesPast(s, l) <==> l.Start? && |RunningSet(s.tasks)| < s.cap && s.waiters != []
  {
  }

  // When immediate launches succeed and no queued task is stopped on its own, that happens
  // only in the window between an exit and its handler's turn at the queue.
  lemma OvertakingNeedsAHandler(configured: int, ls: seq<Label>, l: Label)
    requires CanRun(Step, Init(configured), ls) && GentleRun(Init(configured), ls)
    requires Enabled(Run(Step, Init(configured), ls), l) && LaunchesPast(Run(Step, Init(configured), ls), l)
    ensures Unfinished(Run(Step, Init(configured), ls).tasks) != {}
  {
    var t := Run(Step, Init(configured), ls);
    InitInv(configured);
    RunInv(Init(configured), ls);
    CapKept(Init(configured), ls);
    OvertakesExactly(t, l);
    WorkConservation(configured, ls);
  }

  // The window is real: task 2 starts while task 1, submitted before it, waits.
  lemma StartOvertakes() returns (ls: seq<Label>)
    ensures CanRun(Step, Init(1), ls) && GentleRun(Init(1), ls)
    ensures var t := Run(Step, Init(1), ls); t.launches == [0, 2] && t.waiters == [1]
  {
    var s0 := Init(1);
    assert RunningSet(s0.tasks) == {};
    RunOne(Step, s0, Start(0));
    var s1 := Apply(s0, Start(0));
    var a := [Start(0)];
    RunSnoc(Step, s0, a, Launched(0));
    var s2 := Apply(s1, Launched(0));
    var b := a + [Launched(0)];
    assert RunningSet(s2.tasks) == {0};
    RunSnoc(Step, s0, b, Start(1));
    var s3 := Apply(s2, Start(1));
    var c := b + [Start(1)];
    RunSnoc(Step, s0, c, Exit(0, true));
    var s4 := Apply(s3, Exit(0, true));
    var d := c + [Exit(0, true)];
    assert RunningSet(s4.tasks) == {};
    RunSnoc(Step, s0, d, Start(2));
    ls := d + [Start(2)];
    assert Run(Step, s0, ls) == Apply(s4, Start(2));
    GentleSnoc(s0, [], Start(0));
    GentleSnoc(s0, a, Launched(0));
    GentleSnoc(s0, b, Start(1));
    GentleSnoc(s0, c, Exit(0, true));
    GentleSnoc(s0, d, Start(2));
  }

  lemma GentleSnoc(s: State, ls: seq<Label>, l: Label)
    requires CanRun(Step, s, ls) && GentleRun(s, ls) && Gentle(Run(Step, s, ls), l)
    ensures GentleRun(s, ls + [l])
  {
    assert (ls + [l])[..|ls + [l]|-1] == ls;
  }

  // Hollow tasks: marked running with no process.

  predicate HollowAt(s: State, x: TaskId) { x in s.tasks && IsHollow(s.tasks[x]) }

  // The pop of a waiter that was stopped while queued.
  predicate PopsStopped(s: State, l: Label, x: TaskId) {
    l.Next? && |RunningSet(s.tasks)| < s.cap && s.waiters != [] && s.waiters[0] == x &&
    x in s.tasks && s.tasks[x].status.Stopped?
  }

  /** A task becomes hollow exactly when it is popped, into a free slot, after it was stopped
      in the queue; and it leaves that state exactly by being stopped again. */
  lemma HollowExactly(s: State, l: Label, x: TaskId)
    requires Inv(s) && Enabled(s, l)
    ensures HollowAt(Apply(s, l), x) <==> (HollowAt(s, x) && l != Stop(x)) || PopsStopped(s, l, x)
  {
    hide SlotInv;
    if s.waiters != [] { assert s.waiters[0] in s.waiters; }
  }

  lemma {:induction false} HollowStays(s: State, ls: seq<Label>, x: TaskId)
    requires Inv(s) && CanRun(Step, s, ls) && HollowAt(s, x) && Stop(x) !in ls
    ensures HollowAt(Run(Step, s, ls), x) && x in RunningSet(Run(Step, s, ls).tasks)
  {
    if ls != [] {
      var front, l := ls[..|ls|-1], ls[|ls|-1];
      assert ls == front + [l];
      HollowStays(s, front, x);
      RunInv(s, front);
      HollowExactly(Run(Step, s, front), l, x);
    }
  }

  // Where a hollow task comes from, over whole runs.
  ghost predicate CutInv(s: State) {
    && (forall x :: x in s.waiters && x in s.tasks && s.tasks[x].status.Stopped? ==> x in s.cut)
    && (forall x :: HollowAt(s, x) ==> x in s.cut && x in s.retired)
  }

  lemma CutStep(s: State, l: Label)
    requires Inv(s) && CutInv(s) && Enabled(s, l)
    ensures CutInv(Apply(s, l))
  {
    var t := Apply(s, l);
    forall x | HollowAt(t, x) ensures x in t.cut && x in t.retired {
      HollowExactly(s, l, x);
      CutKept(s, l, x);
    }
    forall x | x in t.waiters && x in t.tasks && t.tasks[x].status.Stopped? ensures x in t.cut {
      StoppedIsCut(s, l, x);
    }
  }

  lemma CutKept(s: State, l: Label, x: TaskId)
    requires Enabled(s, l)
    ensures x in s.cut ==> x in Apply(s, l).cut
    ensures x in s.retired || PopsStopped(s, l, x) ==> x in Apply(s, l).retired
  {
  }

  lemma StoppedIsCut(s: State, l: Label, x: TaskId)
    requires QueueInv(s) && LaunchInv(s) && PairInv(s) && CutInv(s) && Enabled(s, l)
    requires var t := Apply(s, l); x in t.waiters && x in t.tasks && t.tasks[x].status.Stopped?
    ensures x in Apply(s, l).cut
  {
    if l.Next? && s.waiters != [] { assert s.waiters[0] in s.waiters; }
  }

  /** In every run a hollow task was stopped while queued, has left the queue, and was never
      launched. */
  lemma HollowOrigin(configured: int, ls: seq<Label>, x: TaskId)
    requires CanRun(Step, Init(configured), ls) && HollowAt(Run(Step, Init(configured), ls), x)
    ensures var t := Run(Step, Init(configured), ls);
      x in t.cut && x in t.retired && x !in t.waiters && x !in t.launches
  {
    InitInv(configured);
    RunInv(Init(configured), ls);
    CutRun(configured, ls);
  }

  lemma {:induction false} CutRun(configured: int, ls: seq<Label>)
    requires CanRun(Step, Init(configured), ls)
    ensures CutInv(Run(Step, Init(configured), ls))
  {
    if ls != [] {
      CutRun(configured, ls[..|ls|-1]);
      InitInv(configured);
      RunInv(Init(configured), ls[..|ls|-1]);
      CutStep(Run(Step, Init(configured), ls[..|ls|-1]), ls[|ls|-1]);
    }
  }

  // How a task ends, read from the labels of a run alone.

  ghost predicate StopsShow(t: State, ls: seq<Label>) {
    forall x :: StopShows(t, ls, x)
  }

  predicate StopShows(t: State, ls: seq<Label>, x: TaskId) {
    && (Stop(x) in ls ==> x in t.tasks)
    && (x in t.tasks && t.tasks[x].status.Queued? ==> Stop(x) !in ls)
    && (x in t.tasks && (t.tasks[x].phase.Launching? || t.tasks[x].phase.Live?) ==>
         t.tasks[x].status == if Stop(x) in ls then Stopped else Running)
  }

  lemma StopShowsStep(t: State, ls: seq<Label>, l: Label, x: TaskId)
    requires QueueInv(t) && PairInv(t) && Enabled(t, l) && StopShows(t, ls, x)
    ensures StopShows(Apply(t, l), ls + [l], x)
  {
    if l.Next? && t.waiters != [] { assert t.waiters[0] in t.waiters; }
  }

  lemma {:induction false} RunStopsShow(configured: int, ls: seq<Label>)
    requires CanRun(Step, Init(configured), ls)
    ensures StopsShow(Run(Step, Init(configured), ls), ls)
  {
    if ls != [] {
      var front, l := ls[..|ls|-1], ls[|ls|-1];
      var t := Run(Step, Init(configured), front);
      RunStopsShow(configured, front);
      InitInv(configured);
      RunInv(Init(configured), front);
      assert ls == front + [l];
      forall x ensures StopShows(Apply(t, l), ls, x) { StopShowsStep(t, front, l, x); }
    }
  }

  /** A task whose process exits ends as done if the exit was clean, else as stopped if a Stop of
      it came before, else as failed. */
  lemma ExitStatusExactly(configured: int, ls: seq<Label>, id: TaskId, clean: bool)
    requires CanRun(Step, Init(configured), ls) && Enabled(Run(Step, Init(configured), ls), Exit(id, clean))
    ensures var t := Apply(Run(Step, Init(configured), ls), Exit(id, clean));
      id in t.tasks && t.tasks[id].status == if clean then Done else if Stop(id) in ls then Stopped else Failed
  {
    RunStopsShow(configured, ls);
    assert StopShows(Run(Step, Init(configured), ls), ls, id);
  }
}
