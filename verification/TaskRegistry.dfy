/** The registry object itself: its map of tasks and its waiter slice, with each method
    proved to take the scheduler's step. */
module TaskRegistry {
  import opened Runs
  import opened TaskScheduler

  datatype Outcome = QueueFull | JoinedQueue | LaunchNow

  class Registry {
    const configuredCap: int
    var tasks: map<TaskId, Task>
    var waiters: seq<TaskId>
    ghost var submitted: seq<TaskId>
    ghost var retired: seq<TaskId>
    ghost var launches: seq<TaskId>
    ghost var cut: set<TaskId>
    ghost var lost: nat
    ghost var hollow: nat

    ghost function View(): State reads this {
      State(Capacity(configuredCap), tasks, waiters, submitted, retired, launches, cut, lost, hollow)
    }

    constructor (configuredCap: int)
      ensures View() == Init(configuredCap) && Inv(View())
    {
      this.configuredCap := configuredCap;
      tasks, waiters := map[], [];
      submitted, retired, launches, cut, lost, hollow := [], [], [], {}, 0, 0;
      new;
      InitInv(configuredCap);
    }

    method CountLive() returns (live: nat)
      ensures live == |RunningSet(tasks)|
    {
      live := 0;
      var rest := tasks.Keys;
      ghost var done: set<TaskId> := {};
      while rest != {}
        invariant done + rest == tasks.Keys && done !! rest
        invariant live == |RunningSet(tasks) * done|
        decreases rest
      {
        var t :| t in rest;
        if tasks[t].status.Running? {
          live := live + 1;
          assert RunningSet(tasks) * (done + {t}) == RunningSet(tasks) * done + {t};
        } else {
          assert RunningSet(tasks) * (done + {t}) == RunningSet(tasks) * done;
        }
        rest := rest - {t};
        done := done + {t};
      }
      assert RunningSet(tasks) * done == RunningSet(tasks);
    }

    // The region in which Start decides, for a freshly minted id.
    method Start(id: TaskId) returns (outcome: Outcome)
      requires Inv(View()) && id !in tasks
      modifies this
      ensures View() == Apply(old(View()), Label.Start(id)) && Inv(View())
      ensures outcome.LaunchNow? <==> |RunningSet(old(tasks))| < Capacity(configuredCap)
      ensures tasks == match outcome
                       case LaunchNow => old(tasks)[id := Task(Running, Launching(None))]
                       case JoinedQueue => old(tasks)[id := Task(Queued, Idle)]
                       case QueueFull => old(tasks)
      ensures waiters == old(waiters) + if outcome.JoinedQueue? then [id] else []
      ensures outcome.QueueFull? <==>
        |RunningSet(old(tasks))| >= Capacity(configuredCap) && |old(waiters)| >= 64
    {
      StepInv(View(), Label.Start(id));
      var live := CountLive();
      if live >= Capacity(configuredCap) {
        if |waiters| >= QUEUE_BOUND {
          return QueueFull;
        }
        tasks := tasks[id := Task(Queued, Idle)];
        waiters := waiters + [id];
        submitted := submitted + [id];
        return JoinedQueue;
      }
      tasks := tasks[id := Task(Running, Launching(None))];
      launches := launches + [id];
      return LaunchNow;
    }

    // How a launch ends.
    method FinishLaunch(id: TaskId, ok: bool)
      requires Inv(View()) && id in tasks && tasks[id].phase.Launching?
      modifies this
      ensures View() == Apply(old(View()), if ok then Launched(id) else LaunchFailed(id)) && Inv(View())
      ensures id in tasks && tasks[id] == (if ok then Task(old(tasks)[id].status, Live) else Task(Failed, Finished))
      ensures old(tasks)[id].phase.caller.Some? ==>
        old(tasks)[id].phase.caller.value in tasks &&
        tasks[old(tasks)[id].phase.caller.value].phase == if ok then Finished else Handling
    {
      HandlerAlwaysEnabled(View(), id);
      StepInv(View(), if ok then Launched(id) else LaunchFailed(id));
      var caller := tasks[id].phase.caller;
      tasks := tasks[id := if ok then Task(tasks[id].status, Live) else Task(Failed, Finished)];
      if caller.Some? {
        tasks := SetPhase(tasks, caller.value, if ok then Finished else Handling);
      } else if !ok {
        lost := lost + 1;
      }
    }

    // The terminal transition in the Wait goroutine.
    method Exited(id: TaskId, clean: bool)
      requires Inv(View()) && id in tasks && tasks[id].phase.Live?
      modifies this
      ensures View() == Apply(old(View()), Exit(id, clean)) && Inv(View())
      ensures tasks == old(tasks)[id := Task(
                if clean then Done else if old(tasks)[id].status.Stopped? then Stopped else Failed, Handling)]
    {
      StepInv(View(), Exit(id, clean));
      tasks := tasks[id := Task(ExitStatus(tasks[id].status, clean), Handling)];
    }

    // One turn of the loop in startNextWaiter, run by the exit handler of h: the region that
    // pops. The result is what the loop does next.
    method PopWaiter(h: TaskId) returns (launch: Option<TaskId>, again: bool)
      requires Inv(View()) && h in tasks && tasks[h].phase.Handling?
      modifies this
      ensures Enabled(old(View()), Next(h)) && View() == Apply(old(View()), Next(h)) && Inv(View())
      ensures launch.Some? ==> old(waiters) != [] && launch.value == old(waiters)[0] && !again
      ensures launch.Some? ==> launch.value in old(tasks) && old(tasks)[launch.value].status.Queued?
      ensures launch.Some? ==> launch.value in tasks && tasks[launch.value].phase == Launching(Some(h))
      ensures again ==> |waiters| < |old(waiters)| && h in tasks && tasks[h].phase.Handling?
      ensures again ==> old(waiters)[0] in old(tasks) && !old(tasks)[old(waiters)[0]].status.Queued?
      ensures launch.None? && !again ==>
        h in tasks && tasks[h].phase.Finished? && waiters == old(waiters) &&
        (|RunningSet(old(tasks))| >= Capacity(configuredCap) || waiters == [])
    {
      HandlerAlwaysEnabled(View(), h);
      StepInv(View(), Next(h));
      var live := CountLive();
      if live >= Capacity(configuredCap) || waiters == [] {
        tasks := SetPhase(tasks, h, Finished);
        return None, false;
      }
      var next := waiters[0];
      assert next in waiters;
      waiters := waiters[1..];
      retired := retired + [next];
      if tasks[next].status.Queued? {
        tasks := tasks[next := Task(Running, Launching(Some(h)))];
        tasks := SetPhase(tasks, h, Handing(next));
        launches := launches + [next];
        return Some(next), false;
      }
      tasks := SetStatus(tasks, next, Running);
      hollow := hollow + 1;
      return None, true;
    }

    // One turn of the loop with the launch it leads to, when exactly the launches of ids in
    // failing fail. The loop ends on a launch, a full house or an empty queue.
    method Turn(h: TaskId, failing: set<TaskId>) returns (started: Option<TaskId>, again: bool)
      requires Inv(View()) && h in tasks && tasks[h].phase.Handling?
      modifies this
      ensures Inv(View()) && h in tasks
      ensures again ==> tasks[h].phase.Handling? && started.None?
      ensures !again ==> tasks[h].phase.Finished?
      ensures again || started.Some? ==>
        old(waiters) != [] && waiters == old(waiters)[1..] && old(waiters)[0] in old(tasks) &&
        (started.Some? <==> Launchable(old(tasks)[old(waiters)[0]], old(waiters)[0], failing)) &&
        (started.Some? ==> started.value == old(waiters)[0])
      ensures started.Some? ==> started.value in tasks && tasks[started.value].phase.Live?
      ensures !again && started.None? ==>
        waiters == old(waiters) && (waiters == [] || |RunningSet(tasks)| >= Capacity(configuredCap))
      ensures Untouched(old(tasks), tasks, old(waiters), 1)
    {
      ghost var s := View();
      QueueApart(s, h);
      var launch;
      launch, again := PopWaiter(h);
      started := None;
      if launch.Some? {
        FinishLaunch(launch.value, launch.value !in failing);
        if launch.value !in failing { started := launch; } else { again := true; }
      } else if !again {
        SameRunning(s.tasks, tasks, h);
      }
    }

    // The whole loop of one exit handler when nothing else runs meanwhile: it passes over the
    // first k waiters, each stopped or failing to launch, and starts the next one or stops
    // for want of a slot or a waiter. Each turn that goes round shortens the queue.
    method StartNextWaiter(h: TaskId, failing: set<TaskId>) returns (started: Option<TaskId>, ghost k: nat)
      requires Inv(View()) && h in tasks && tasks[h].phase.Handling?
      modifies this
      ensures Inv(View()) && h in tasks && tasks[h].phase.Finished?
      ensures k <= |old(waiters)|
      ensures forall i :: 0 <= i < k ==> Rejected(old(tasks), old(waiters)[i], failing)
      ensures started.Some? ==>
        k < |old(waiters)| && started.value == old(waiters)[k] && started.value in old(tasks) &&
        Launchable(old(tasks)[started.value], started.value, failing) &&
        started.value in tasks && tasks[started.value].phase.Live? && waiters == old(waiters)[k..][1..]
      ensures started.None? ==>
        waiters == old(waiters)[k..] && (waiters == [] || |RunningSet(tasks)| >= Capacity(configuredCap))
    {
      ghost var queue, before := waiters, tasks;
      QueueApart(View(), h);
      k := 0;
      while true
        invariant Inv(View()) && h in tasks && tasks[h].phase.Handling?
        invariant k <= |queue| && waiters == queue[k..]
        invariant Untouched(before, tasks, queue, k)
        invariant forall i :: 0 <= i < k ==> Rejected(before, queue[i], failing)
        decreases |waiters|
      {
        ghost var mid := tasks;
        var again;
        started, again := Turn(h, failing);
        if !again && started.None? { return; }
        UntouchedOn(before, mid, tasks, queue, k);
        if !again { return; }
        k := k + 1;
      }
    }

    method Stop(id: TaskId) returns (known: bool)
      requires Inv(View())
      modifies this
      ensures known <==> id in old(tasks)
      ensures View() == if known then Apply(old(View()), Label.Stop(id)) else old(View())
      ensures Inv(View()) && waiters == old(waiters) && retired == old(retired) && launches == old(launches)
      ensures known ==> tasks == SetStatus(old(tasks), id, Stopped)
    {
      if id !in tasks {
        return false;
      }
      StepInv(View(), Label.Stop(id));
      if tasks[id].status.Queued? { cut := cut + {id}; }
      tasks := SetStatus(tasks, id, Stopped);
      return true;
    }

    // Mark every waiter stopped in place.
    method MarkWaitersStopped()
      requires forall t :: t in waiters ==> t in tasks
      modifies this`tasks
      ensures tasks == StopAll(old(tasks), waiters)
    {
      ghost var before := tasks;
      assert tasks == StopAll(before, waiters[..0]);
      for i := 0 to |waiters|
        invariant tasks == StopAll(before, waiters[..i])
      {
        assert waiters[i] in waiters && waiters[..i+1] == waiters[..i] + [waiters[i]];
        StopAllSnoc(before, waiters[..i], waiters[i]);
        tasks := SetStatus(tasks, waiters[i], Stopped);
      }
      assert waiters[..|waiters|] == waiters;
    }

    // The region in which ReapAll drops the queue.
    method DropQueue() returns (dropped: nat)
      requires Inv(View())
      modifies this
      ensures View() == Apply(old(View()), Label.ReapAll) && Inv(View())
      ensures tasks == StopAll(old(tasks), old(waiters)) && waiters == [] && launches == old(launches)
      ensures dropped == |old(waiters)| && retired == old(retired) + old(waiters)
    {
      StepInv(View(), Label.ReapAll);
      dropped := |waiters|;
      MarkWaitersStopped();
      cut := cut + set t | t in waiters;
      retired := retired + waiters;
      waiters := [];
    }

    // The loop that then stops the running tasks.
    method StopRunning()
      requires Inv(View())
      modifies this
      ensures Inv(View()) && waiters == old(waiters) && retired == old(retired) && launches == old(launches)
      ensures Reaped(old(tasks), tasks, RunningSet(old(tasks)))
    {
      hide Inv, Apply, Enabled;
      ghost var before, done := tasks, {};
      var rest := tasks.Keys;
      while rest != {}
        invariant Inv(View()) && waiters == old(waiters) && retired == old(retired) && launches == old(launches)
        invariant done + rest == before.Keys && done !! rest
        invariant Reaped(before, tasks, RunningSet(before) * done)
        decreases rest
      {
        var t :| t in rest;
        if tasks[t].status.Running? {
          var _ := Stop(t);
          assert RunningSet(before) * (done + {t}) == RunningSet(before) * done + {t};
        } else {
          assert RunningSet(before) * (done + {t}) == RunningSet(before) * done;
        }
        rest := rest - {t};
        done := done + {t};
      }
      assert RunningSet(before) * done == RunningSet(before);
    }

    // The whole call when nothing else runs meanwhile: every task that waited or was running
    // is stopped, no other task changes, and nothing waits.
    method ReapAll() returns (dropped: nat)
      requires Inv(View())
      modifies this
      ensures Inv(View()) && waiters == []
      ensures dropped == |old(waiters)| && retired == old(retired) + old(waiters) && launches == old(launches)
      ensures Reaped(old(tasks), tasks, (set t | t in old(waiters)) + RunningSet(old(tasks)))
    {
      StopAllCounts(View());
      hide Inv, Apply, Enabled;
      ghost var before, queue := tasks, waiters;
      dropped := DropQueue();
      StopRunning();
      ReapedInTwo(before, queue, tasks);
    }

    // 1-based place in the queue, 0 when not waiting.
    method QueuedPosition(id: TaskId) returns (pos: nat)
      ensures pos == 0 <==> id !in waiters
      ensures pos > 0 ==> pos <= |waiters| && waiters[pos-1] == id && id !in waiters[..pos-1]
    {
      var i := 0;
      while i < |waiters|
        invariant 0 <= i <= |waiters| && id !in waiters[..i]
      {
        if waiters[i] == id {
          return i + 1;
        }
        i := i + 1;
      }
      return 0;
    }
  }

  // Exactly the tasks in hit are marked stopped.
  predicate Reaped(before: map<TaskId, Task>, after: map<TaskId, Task>, hit: set<TaskId>) {
    after.Keys == before.Keys &&
    forall t :: t in before ==>
      after[t] == if t in hit then before[t].(status := Stopped) else before[t]
  }

  lemma ReapedInTwo(before: map<TaskId, Task>, ids: seq<TaskId>, after: map<TaskId, Task>)
    requires RunningSet(StopAll(before, ids)) == RunningSet(before)
    requires Reaped(StopAll(before, ids), after, RunningSet(before))
    ensures Reaped(before, after, (set t | t in ids) + RunningSet(before))
  {
  }

  lemma StopAllSnoc(tasks: map<TaskId, Task>, ids: seq<TaskId>, id: TaskId)
    requires id in tasks
    ensures StopAll(tasks, ids + [id]) == SetStatus(StopAll(tasks, ids), id, Stopped)
  {
  }

  predicate Launchable(t: Task, id: TaskId, failing: set<TaskId>) { t.status.Queued? && id !in failing }

  // The waiters from the k-th on are as they were.
  ghost predicate Untouched(before: map<TaskId, Task>, after: map<TaskId, Task>, queue: seq<TaskId>, k: nat) {
    forall i :: k <= i < |queue| ==>
      queue[i] in before && queue[i] in after && after[queue[i]] == before[queue[i]]
  }

  lemma UntouchedOn(before: map<TaskId, Task>, mid: map<TaskId, Task>, after: map<TaskId, Task>,
                    queue: seq<TaskId>, k: nat)
    requires k < |queue| && Untouched(before, mid, queue, k) && Untouched(mid, after, queue[k..], 1)
    ensures Untouched(before, after, queue, k + 1)
    ensures queue[k] in before && queue[k] in mid && mid[queue[k]] == before[queue[k]]
    ensures queue[k] == queue[k..][0] && queue[k..][1..] == queue[k+1..]
  {
    forall i | k + 1 <= i < |queue| ensures queue[i] in after && after[queue[i]] == before[queue[i]] {
      assert queue[i] == queue[k..][i-k];
    }
  }

  predicate Rejected(tasks: map<TaskId, Task>, id: TaskId, failing: set<TaskId>) {
    id in tasks && !Launchable(tasks[id], id, failing)
  }

  // A handler is no waiter, and no waiter stands twice in the queue.
  lemma QueueApart(s: State, h: TaskId)
    requires Inv(s) && h in s.tasks && s.tasks[h].phase.Handling?
    ensures forall i :: 0 <= i < |s.waiters| ==>
      s.waiters[i] in s.tasks && s.waiters[i] != h && (i > 0 ==> s.waiters[i] != s.waiters[0])
  {
    forall i | 0 <= i < |s.waiters| ensures s.waiters[i] in s.tasks && s.waiters[i] != h {
      assert s.waiters[i] in s.waiters;
    }
  }

  lemma SameRunning(tasks: map<TaskId, Task>, after: map<TaskId, Task>, h: TaskId)
    requires h in tasks && after == SetPhase(tasks, h, Finished)
    ensures RunningSet(after) == RunningSet(tasks)
  {
  }
}
