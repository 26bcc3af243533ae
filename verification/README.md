# An agent server's protocols and text algorithms

The program is an ACP agent server: a JSON-RPC process on standard input and output that runs
model turns for an editor. This project models its hard logic and proves what that logic keeps.

Concurrent parts are labelled transition systems. A label is one mutex region, one channel
operation or one external event, exactly as the source cuts them; a run is any sequence of enabled
labels (`Runs`), so a statement about all runs is a statement about all interleavings. Beside each
protocol stands a class with the source's own fields, whose methods are those regions, each proved
to take the protocol's step; who stands where in between is ghost history. Sequential algorithms are
methods with the source's loops, proved against functions or predicates whose meaning is then proved.

- The session/update emitter: two bounded lanes, one drain with two selects, a counter pair and a wake
  generation (`TurnEmitter`, `EmitterOrder`, `EmitterObject`), its stall sampler (`StallSampler`) and
  the line framing under it (`LineFraming`).
- Outbound requests: once-only resolution, retry ladder, cancel cascade, shutdown (`RequestProtocol`,
  `RequestOnce`, `RequestRegistry`).
- One request's response and the callbacks that follow it (`PostResponse`).
- Session lifecycle: new, load, prompt, close, delete and logout racing (`SessionProtocol`,
  `SessionSafety`, `SessionServer`).
- The background task scheduler (`TaskScheduler`, `TaskGuarantees`, `TaskRegistry`).
- Sequence mining, command expansion, terminal capture, project memory, mentions, the hook gate and
  elicitation forms (`SequenceMining`, `CommandExpansion`, `AnsiStrip` and `PtyCapture`, `Utf8` and
  `ProjectMemory`, `MentionScanner`, `HookVerdict`, `ElicitationForm`).

`Sets` holds small facts about finite sets. Verify with `dafny verify dfyconfig.toml`.

## Where the code does less than its comments say

Each of these is a proved result below: the property fails in the way shown, and holds exactly under
the stated condition.

- Barrier (comment at internal/acp/emitter.go:258-264: "every earlier frame is fully on the wire"). For a
  foreground frame this holds on every run exactly unless the state is `Exposed`: the drain stands at its
  second select and the frame is the last one counted, with nothing else outstanding. Even then it holds on
  each run in which no background frame overtakes it. For a background frame still in its lane it never holds
  while the drain lives.
- Registry shutdown (internal/acp/request_registry.go:384-386, 439-440): a send and a cascade each test the
  closed flag in one region and act after it, so both can still write after Stop returned, exactly from
  between the two. Both windows are reachable.
- Task registry, idle slots: while tasks wait, those who will still act on the queue fill the capacity; a step
  loses that exactly in the cases of `Strands`, of which a failed immediate launch is one.
- Task registry, hollow slots: a task is marked running with no process exactly when it is popped, into a free
  slot, after it was stopped in the queue; it stays so, and keeps its slot, exactly until it is stopped again.
- Task registry, order (internal/coreexec/background.go:221-270): a new task starts before older waiters exactly
  when a slot is free while tasks wait. With successful immediate launches and no queued task stopped singly
  that takes an unfinished exit handler.
- Close removes the map entry by id. A draining close can remove a state that it never drained if and only if
  the id has no tombstone or the map already names another state.
- Expand (internal/ecosys/expand.go:38: "a substituted literal does not re-expand"), the body's part: for all
  arguments without a dollar it holds exactly for bodies without a dollar directly before a token (other than $0).
- Expand, the arguments' part, on all those bodies: pass by pass it holds exactly when neither the arguments nor
  one of their first nine fields ends in a dollar and every dollar before a digit begins a token whose value is
  its own text ("$1" as the only argument, say); that covers all arguments in which no dollar stands before a
  digit, before whitespace or at the end. For the end result alone it is exact that no value ends in a dollar
  and each comes out of its later passes as it went in ("$2$1" is changed and changed back).
- Mining, counts: two windows with one joined key are counted together, under the first one's steps. Counts are
  true exactly when no frequent key is shared by two different windows.
- Mining, "longest match at each start index" (internal/learning/propose.go:14-15): where counts are true, two
  proposals start at one index exactly when one is a prefix of the other, and then the shorter occurs more often.
  The comment holds exactly when each repeated sequence that another one extends lies inside some longer one that
  occurs as often.
- Terminal capture: output that ends inside a control sequence swallows the first byte of the sentinel, so
  the sentinel's text stays in the result, exactly then. The exit code is still found.
- Memory: a regular CLAUDE.md that cannot be read still shadows AGENTS.md (internal/ecosys/memory.go:207-208
  says the fallback fires). Truncating a text over the cap loses all of it exactly when no complete character
  stands within the cap, which valid UTF-8 excludes.
- Elicitation: a value is accepted without being an answer exactly when a null inside an array would do as the
  empty string.
- Requests, order (internal/acp/server.go:724-726): an after-response callback runs before the answer exactly
  when the handler panicked.
- Requests, once: a finished request has one answer exactly unless its handler returned and a callback panicked;
  then the recovery (internal/acp/server.go:828-839) answers a second time. All callbacks registered before the
  drain are called exactly if none of them panicked or only the last did; one registered later never is.
- Hooks: exit code 2 denies even for a run that timed out. The denial has no reason exactly if the run timed out
  or printed nothing.

## Model

| member | source | states |
|---|---|---|
| TurnEmitter.StepInv | internal/acp/emitter.go:279-355 | every step of producers, drain, Barrier callers and Stop keeps the counter equation, both lanes' send order and the waiters' generation rule |
| TurnEmitter.RunInv | internal/acp/emitter.go:279-355 | the same for every interleaving |
| EmitterOrder.BoundedOvertaking | internal/acp/emitter.go:329-355 | in every run at most one background frame is received while a foreground frame waits in its lane, and none unless the second select was already open |
| EmitterOrder.SentIsGiven | internal/acp/emitter.go:571-591 | in every run each lane is sent exactly the frames its producers gave, in the order of the sends, as read from the labels alone |
| EmitterOrder.WriterOrderIsSendOrder | internal/acp/emitter.go:329-355 | in every run the Writer's order restricted to a lane is a prefix of the producers' own frames in the order they were sent into it |
| EmitterOrder.ForegroundGuaranteeExact | internal/acp/emitter.go:258-304 | every run that reaches the Barrier's target has handed the n-th foreground frame to the Writer, if and only if the snapshot state is not exposed |
| EmitterOrder.ExposedCanMiss | internal/acp/emitter.go:336-353 | from every exposed state some run meets the target with the frame unwritten |
| EmitterOrder.ExposedIsReachable | internal/acp/emitter.go:336-353 | an exposed state is reachable from the start |
| EmitterOrder.UpdatesBeforeResponse | internal/acp/handlers.go:478-543 | after any run a handler that snapshots and is released by the count writes its response after every foreground frame, as its producer gave it, that the run had sent, unless that frame was exposed and a background frame overtook it in what followed |
| EmitterOrder.BackgroundGuaranteeExact | internal/acp/emitter.go:279-304 | a background frame still in its lane is covered by the target only if the drain has exited (when no run reaches the target) |
| EmitterOrder.Conservation | internal/acp/emitter.go:628-657 | in every reachable state enqueued is written + in flight + both lanes + producers between bump and send + producers about to compensate |
| EmitterOrder.NoLostWakeup | internal/acp/emitter.go:268-304 | a parked waiter sits on a closed generation or on the current one short of its target; once the target is reached it can wake and then passes |
| EmitterOrder.NoWaiterStuckWhenQuiet | internal/acp/emitter.go:268-304 | with the emitter running and nothing left to write every parked waiter can wake |
| EmitterObject.Emitter.constructor | internal/acp/emitter.go:162-195 | capacities of zero or less fall back to 128 and 256; the invariant holds |
| EmitterObject.Emitter.BumpEnqueued | internal/acp/emitter.go:636-638 | the region before the lane send is the protocol's Bump |
| EmitterObject.Emitter.SendToLane | internal/acp/emitter.go:647-649 | the frame itself goes to the end of its own lane and the other lane stays as it was |
| EmitterObject.Emitter.CompensateEnqueued | internal/acp/emitter.go:650-653 | the abort region is the protocol's Compensate |
| EmitterObject.Emitter.Notify | internal/acp/emitter.go:571-591 | a whole call puts the frame itself at the end of its lane and counts it, or aborts and leaves the emitter as it found it |
| EmitterObject.Emitter.FirstSelect | internal/acp/emitter.go:337-344 | takes the head of the foreground lane if there is one, else falls through |
| EmitterObject.Emitter.SecondSelect | internal/acp/emitter.go:346-353 | takes the head of the chosen lane, or exits on stop |
| EmitterObject.Emitter.WriteOut | internal/acp/emitter.go:320-328 | sink first, then count and wake together; afterwards every parked waiter is on a closed generation |
| EmitterObject.Emitter.DrainTurn | internal/acp/emitter.go:333-355 | one turn writes the foreground head whatever the background lane holds |
| EmitterObject.Emitter.BarrierTarget | internal/acp/emitter.go:280-282 | the target is the count at the snapshot |
| EmitterObject.Emitter.BarrierCheck | internal/acp/emitter.go:284-303 | passes exactly at the target, else parks on the generation read in the same region |
| EmitterObject.Emitter.Stop | internal/acp/emitter.go:251-253 | the cancel: the stop flag, and nothing else |
| StallSampler.Sampler.constructor | internal/acp/emitter.go:173-176 | a threshold of zero or less means five seconds |
| StallSampler.Sampler.Take | internal/acp/emitter.go:390-413 | over any run of samples the counter is the number of maximal full runs that last at least the threshold |
| StallSampler.MoreFull | internal/acp/emitter.go:390-413 | another full sample adds an episode exactly when the open run newly reaches the threshold |
| LineFraming.ReadsWhatWasWritten | internal/acp/framer.go:25-77 | reading any written stream, even with an unfinished last line, gives exactly the messages that marshalled to one non-empty line, in order |
| LineFraming.ReadLoop | internal/acp/framer.go:55-77 | the read loop, reading on after an empty line, gives the stream's lines |
| LineFraming.Writer.Write | internal/acp/framer.go:117-121 | enqueues at the end; what was accepted is what the drain took and what is queued |
| LineFraming.Writer.WriteFrame | internal/acp/framer.go:25-51 | the frame whole, or the part before a failure, after which the stream takes no more |
| LineFraming.Writer.DrainOne | internal/acp/framer.go:123-131 | the oldest message leaves the queue, with its frame out unless the stream fails or failed; failures are swallowed |
| LineFraming.Writer.Close | internal/acp/framer.go:137-149 | flushes: the stream is the accepted messages framed in order and reads back as them; if the stream fails, it reads back as the messages before the failure; a second close changes nothing |
| RequestProtocol.StepInv | internal/acp/request_registry.go:201-461 | every step of callers, Deliver, ResolveCancelled, context death and Stop keeps the books of every entry |
| RequestProtocol.RunInv | internal/acp/request_registry.go:201-461 | the same for every interleaving |
| RequestOnce.ExactlyOnce | internal/acp/request_registry.go:148-160 | in every run an entry has at most one resolution, one cascade, one cancel count and two sends, drops none, and never cascades after an accepted response |
| RequestOnce.WinnerStays | internal/acp/request_registry.go:287-289 | the first resolution of an entry stays the winner through every later run |
| RequestOnce.NoCascadeAfterResponse | internal/acp/request_registry.go:421-437 | from a state in which a response won, no run cascades that entry |
| RequestOnce.PutFindsRoom | internal/acp/request_registry.go:291-294 | the one-slot channel is empty at every send, so the default branch is unreachable |
| RequestOnce.BooksComplete | internal/acp/request_registry.go:425-437 | once nobody acts for a resolved entry: one resolution went in, a cancellation was counted once and cascaded once unless closed, a drained one was counted and not cascaded |
| RequestOnce.ReturnsTheWinner | internal/acp/request_registry.go:407-419 | in every run a caller that took its entry's resolution leaves with the response that won, or as cancelled if that was none or carried the cancel code; a response is returned in no other way and was delivered for this id by a label of the run; the fallback follows two sends and nothing taken |
| RequestOnce.WinnerIsTakenOrKept | internal/acp/request_registry.go:286-295 | a response that won is in the channel until the caller takes it |
| RequestOnce.LateWriteExactly | internal/acp/request_registry.go:387-402 | after shutdown a frame can still be written if and only if its caller had already passed the closed test |
| RequestOnce.LateCascadeExactly | internal/acp/request_registry.go:441-461 | after shutdown a cascade can still go out if and only if its goroutine had already passed the closed test |
| RequestOnce.WriteAfterStop | internal/acp/request_registry.go:387-402 | such a write is reachable |
| RequestOnce.CascadeAfterStop | internal/acp/request_registry.go:441-461 | such a cascade is reachable: a dying caller wins, tests the flag, and shutdown falls before its emit |
| RequestRegistry.Registry.Register | internal/acp/request_registry.go:363-375 | rejected exactly when closed, else a fresh pending entry |
| RequestRegistry.Registry.SendAllowed | internal/acp/request_registry.go:387-394 | the closed test of a send is its own region |
| RequestRegistry.Registry.Receive | internal/acp/request_registry.go:245-246 | by what the slot holds: a cancel mark or an answer with the cancel code gives a cancellation, any other answer itself |
| RequestRegistry.Registry.Unregister | internal/acp/request_registry.go:377-382 | the id leaves the pending map |
| RequestRegistry.Registry.Lookup | internal/acp/request_registry.go:277-285 | finds exactly the pending ids |
| RequestRegistry.Registry.SwapDone | internal/acp/request_registry.go:287-289 | wins exactly if the guard was open, and closes it |
| RequestRegistry.Registry.PutResolution | internal/acp/request_registry.go:291-294 | the resolution is always kept |
| RequestRegistry.Registry.CascadeAllowed | internal/acp/request_registry.go:441-448 | the closed test of a cascade is its own region |
| RequestRegistry.Registry.Deliver | internal/acp/request_registry.go:270-295 | alone: accepted exactly for a pending unresolved id, whose slot then holds the response; otherwise nothing changes |
| RequestRegistry.Registry.ResolveCancelled | internal/acp/request_registry.go:302-314 | alone: the first resolution marks the entry cancelled, counts once and cascades once unless closed; otherwise nothing changes |
| RequestRegistry.Registry.TakePending | internal/acp/request_registry.go:319-336 | closes, empties the map and lists each pending id once; a second call changes nothing |
| RequestRegistry.Registry.Visit | internal/acp/request_registry.go:338-347 | one drained entry: resolved as cancelled and counted once unless someone was first |
| RequestRegistry.Registry.Stop | internal/acp/request_registry.go:315-348 | alone: exactly the pending unresolved entries are resolved as cancelled, each counted once and without a cascade; a second call changes nothing |
| SessionProtocol.StepBase | internal/acp/handlers.go:551-1008 | every handler step keeps the rules of the live map, loading marks, gates and closes |
| SessionSafety.StepInv | internal/acp/handlers.go:551-1008 | every handler step also keeps each WaitGroup equal to the number of turns on it and the age of turns in the close window |
| SessionSafety.LoadExclusion | internal/acp/handlers.go:764-795 | no two loads of one id are ever past the guard together |
| SessionSafety.ReplayedIsNotLive | internal/acp/handlers.go:848-873 | an id being replayed is never in the live map before its own insert |
| SessionSafety.GateAfterBarrier | internal/acp/handlers.go:551-582 | a prompt past the gate is on a state made by session/new or whose load had returned from Barrier |
| SessionSafety.DrainWaitsForAll | internal/acp/server.go:245-259 | a drain returns only when no turn is counted on the state |
| SessionSafety.OnlyLateTurnsSurvive | internal/acp/handlers.go:984-1008 | from the drain's return to the removal every turn on the closed state was added after that return, unless the drain timed out |
| SessionSafety.TurnInTheCloseWindow | internal/acp/handlers.go:998-1007 | such a turn is reachable: it runs while close reaps |
| SessionSafety.RemovedAdmitsNone | internal/acp/handlers.go:594-613 | a state that left the map never returns to it and admits no new turn, over every run |
| SessionSafety.DeletedStaysDeleted | internal/acp/handlers.go:1083-1098 | once a delete whose tombstone was written returns, its id is never live again, whatever runs |
| SessionSafety.OutForeverExactly | internal/acp/handlers.go:848-873 | an id out of the map stays out on every run if and only if its tombstone exists |
| SessionSafety.TombedLoadIsTurnedAway | internal/acp/handlers.go:727-737 | a load that arrives for a tombstoned id goes no further, whatever runs |
| SessionSafety.RemovalExactly | internal/acp/handlers.go:984-1008 | from every reachable state a draining close can come to remove a state it never drained if and only if the id has no tombstone or the map already names another state |
| SessionSafety.RemovalTakesANewerState | internal/acp/handlers.go:1005-1007 | the run that does it: after a logout a pending load or a fresh one puts a newer state in place, and the close goes on to its removal |
| SessionSafety.NewerStateIsTaken | internal/acp/handlers.go:1005-1007 | such a removal is reachable from the start |
| SessionServer.Server.InsertNew | internal/acp/handlers.go:348-352 | a new session is live and ready at once |
| SessionServer.Server.GuardLoad | internal/acp/handlers.go:764-776 | admits exactly an id neither live nor loading, and marks it in the same region |
| SessionServer.Server.InsertLoaded | internal/acp/handlers.go:857-871 | inserts exactly if there is no tombstone |
| SessionServer.Server.SetReady | internal/acp/server.go:263-268 | the ready flag, and nothing else |
| SessionServer.Server.EndLoading | internal/acp/server.go:692-697 | clears the mark of the id |
| SessionServer.Server.FindForPrompt | internal/acp/handlers.go:551-566 | finds exactly the live state of the id |
| SessionServer.Server.IsReady | internal/acp/handlers.go:571-581 | passes exactly a ready state |
| SessionServer.Server.AddTurn | internal/acp/handlers.go:595 | one more turn on that state's WaitGroup |
| SessionServer.Server.ConfirmTurn | internal/acp/handlers.go:597-603 | live exactly if the map names the identical state |
| SessionServer.Server.RegisterTurn | internal/acp/handlers.go:594-613 | alone: counts the turn exactly if the vetted state is still the live one; a refusal leaves no trace |
| SessionServer.Server.WriteTombstone | internal/acp/handlers.go:1093-1096 | the marker appears exactly if the write succeeds |
| SessionServer.Server.WaitTurnDrain | internal/acp/server.go:245-259 | drained only at zero turns |
| SessionServer.Server.RemoveSession | internal/acp/handlers.go:1005-1007 | removes the id, whatever it names |
| SessionServer.Server.CloseSessionSequence | internal/acp/handlers.go:984-1008 | alone: exactly the id leaves the live map; an absent id changes nothing |
| SessionServer.Server.DeleteSession | internal/acp/handlers.go:1083-1098 | alone: marker first, then the close; the id is gone from the map |
| PostResponse.RunInv | internal/acp/server.go:710-839 | in every run the request does, in order: the handler's answer unless it panicked, the callbacks in order of registration up to one that panics, the recovery's answer if anything panicked |
| PostResponse.AnswersAndCallbacksExactly | internal/acp/server.go:724-737 | a finished request has two answers exactly if its handler returned and a callback panicked, else one; it called, once each, exactly the callbacks registered before the drain up to the first that panicked, and all of them exactly if none or only the last did |
| PostResponse.AfterResponseExactly | internal/acp/server.go:759-839 | an answer comes before a callback if and only if the handler did not panic, and after it if and only if the handler or a callback did |
| PostResponse.PanicFiresFirst | internal/acp/server.go:828-839 | a run in which a panicking handler's callback goes out before its answer |
| PostResponse.CallbackPanicAnswersTwice | internal/acp/server.go:734-736 | a run in which a callback panics after the answer: a second answer, and the callback behind it is never called |
| PostResponse.HandleRequest | internal/acp/server.go:651-839 | one whole request, with any handler outcome and any set of panicking callbacks: which answers and which callbacks, in order |
| TaskScheduler.StepInv | internal/coreexec/background.go:221-633 | every registry step keeps cap, queue, launch and slot rules |
| TaskGuarantees.SchedulerSafety | internal/coreexec/background.go:221-270 | in every run at most capacity tasks run, at most 64 distinct tasks wait, queued means in the FIFO and not stopped, each task is launched at most once and none stopped while queued ever is |
| TaskGuarantees.FifoOrder | internal/coreexec/background.go:394-440 | in every run the queue is what joined it, in the order of the Starts, less what left it from the front |
| TaskGuarantees.ExitStatusExactly | internal/coreexec/background.go:331-342 | in every run a task whose process exits ends as done if the exit was clean, else as stopped if a Stop of it came before, else as failed |
| TaskGuarantees.SlotAccount | internal/coreexec/background.go:325-362 | while tasks wait, launching and live tasks, idle handlers, failed immediate launches and hollow tasks together fill the capacity |
| TaskGuarantees.WorkConservation | internal/coreexec/background.go:394-440 | when immediate launches succeed and no queued task is stopped singly, waiting implies running tasks plus unfinished handlers fill the capacity, and with no handler outstanding every slot runs |
| TaskGuarantees.ConservationLostExactly | internal/coreexec/background.go:394-440 | a step loses conservation exactly in the listed cases |
| TaskGuarantees.FailedLaunchStrands | internal/coreexec/background.go:261-267 | a failed immediate launch can leave a waiter with nothing running |
| TaskGuarantees.StoppedWaiterHoldsASlot | internal/coreexec/background.go:422-432 | a waiter stopped in the queue can hold the only slot with no process |
| TaskGuarantees.HollowExactly | internal/coreexec/background.go:405-432 | a task becomes one marked running without a process exactly by being popped into a free slot after it was stopped in the queue, and ceases to be exactly by another stop |
| TaskGuarantees.HollowStays | internal/coreexec/background.go:422-432 | on every run without such a stop it stays so and holds its slot |
| TaskGuarantees.HollowOrigin | internal/coreexec/background.go:405-432 | in every run such a task was stopped while queued, has left the queue and was never launched |
| TaskGuarantees.OvertakesExactly | internal/coreexec/background.go:221-270 | a task is launched past waiting ones exactly by a Start that finds a free slot while tasks wait |
| TaskGuarantees.OvertakingNeedsAHandler | internal/coreexec/background.go:394-440 | when immediate launches succeed and no queued task is stopped singly, that takes an unfinished exit handler |
| TaskGuarantees.StartOvertakes | internal/coreexec/background.go:221-270 | such a run: launches 0 and 2 while 1, submitted before 2, waits |
| TaskRegistry.Registry.constructor | internal/coreexec/background.go:169-171 | an empty registry |
| TaskRegistry.Registry.CountLive | internal/coreexec/background.go:227-234 | the number of running tasks |
| TaskRegistry.Registry.Start | internal/coreexec/background.go:221-270 | launches exactly below capacity, refuses exactly with 64 waiting, else queues last |
| TaskRegistry.Registry.FinishLaunch | internal/coreexec/background.go:276-362 | a launched task lives, or has failed and its caller goes on |
| TaskRegistry.Registry.Exited | internal/coreexec/background.go:325-362 | the terminal status: done, or stopped if it was stopped, else failed |
| TaskRegistry.Registry.PopWaiter | internal/coreexec/background.go:394-440 | pops the head below capacity; a queued head is launched, a stopped one passed over |
| TaskRegistry.Registry.Turn | internal/coreexec/background.go:394-440 | a pop and the launch it leads to |
| TaskRegistry.Registry.StartNextWaiter | internal/coreexec/background.go:394-440 | the loop ends: it passes over the first k waiters, each stopped or failing to launch, and starts the next one or stops for want of a slot or a waiter |
| TaskRegistry.Registry.Stop | internal/coreexec/background.go:576-600 | a known task is marked stopped, queued or not |
| TaskRegistry.Registry.DropQueue | internal/coreexec/background.go:606-618 | every waiter is stopped and the queue emptied |
| TaskRegistry.Registry.StopRunning | internal/coreexec/background.go:627-631 | every running task is stopped, no other task changes |
| TaskRegistry.Registry.ReapAll | internal/coreexec/background.go:606-634 | alone: exactly the tasks that waited or were running are stopped, nothing waits, nothing is launched |
| TaskRegistry.Registry.QueuedPosition | internal/coreexec/background.go:444-456 | the first place of the id in the queue, 0 exactly if absent |
| SequenceMining.ProposeHooks | internal/learning/propose.go:16-81 | for any log the output is the listed sequences no listed one subsumes, each once, ordered; where keys tell windows apart, exactly the minable sequences |
| SequenceMining.CountWindows | internal/learning/propose.go:24-48 | each key has the number of windows of length 2 to 4 with it and the first such window |
| SequenceMining.CountsTrueExactly | internal/learning/propose.go:36-48 | every listed count is the true number of start positions if and only if no frequent key is shared by two different windows |
| SequenceMining.BarFreeApart | internal/learning/propose.go:38 | names without bars keep keys apart |
| SequenceMining.BarsCollide | internal/learning/propose.go:38 | two different windows with one key |
| SequenceMining.DedupeSubsumed | internal/learning/propose.go:88-119 | keeps exactly the proposals no other subsumes |
| SequenceMining.IsContiguousSubSlice | internal/learning/propose.go:123-145 | true exactly for a non-empty contiguous part |
| SequenceMining.SortIsTheOrder | internal/learning/propose.go:72-79 | the sort orders by count descending, then key, and loses nothing |
| SequenceMining.OrderMeans | internal/learning/propose.go:72-79 | in that order more occurrences come first, and among equals the joined names compare character by character |
| SequenceMining.SubOccursAsOften | internal/learning/propose.go:84-87 | a part of a window occurs at least as often as the window |
| SequenceMining.MiningComplete | internal/learning/propose.go:66-87 | every frequent window is output or lies inside an output proposal that occurs exactly as often |
| SequenceMining.MiningIrredundant | internal/learning/propose.go:66-87 | counts are the true numbers of start positions, at least three, and no proposal subsumes another |
| SequenceMining.MiningUnique | internal/learning/propose.go:72-79 | where keys tell windows apart the ordered result is unique, so the sorting algorithm does not show |
| SequenceMining.StartTogetherExactly | internal/learning/propose.go:14-15 | two proposals start at one index if and only if one is a prefix of the other, which then occurs more often |
| SequenceMining.LongestWinsExactly | internal/learning/propose.go:14-15 | only the longest repeated sequence of each start index is output if and only if each repeated sequence that another extends lies inside a longer one that occurs as often |
| SequenceMining.ShorterSurvives | internal/learning/propose.go:14-15 | a b a b c a b c a b c: a b (4 times) and a b c (3 times) are both output, and both start at index 2 |
| CommandExpansion.Substitute | internal/ecosys/expand.go:49-62 | the loop of eleven replacements |
| CommandExpansion.Expand | internal/ecosys/expand.go:49-69 | the replacements, and the argument tail exactly with arguments and no token in the body |
| CommandExpansion.PositionalsAreWords | internal/ecosys/expand.go:44-50 | on arguments printed as words with any whitespace around them the n-th positional is the n-th word, and nothing if there is none |
| CommandExpansion.ExpandFillsIn | internal/ecosys/expand.go:35-69 | on a printed body and printed arguments without other dollars each token gives way to its word or to all the arguments, the text stays, and the arguments are appended exactly if nothing asks for them |
| CommandExpansion.ExpandPositional | internal/ecosys/expand.go:41-62 | the body "$n" expands to the n-th word and "$ARGUMENTS" to the arguments, also with dollars that no later pass sees before its digit |
| CommandExpansion.HasPlaceholderScan | internal/ecosys/expand.go:73-85 | true exactly if some token's text occurs |
| CommandExpansion.PlaceholderIsToken | internal/ecosys/expand.go:73-85 | the substring search sees exactly the tokens of the left-to-right parse |
| CommandExpansion.RefinementExact | internal/ecosys/expand.go:35-62 | the eleven passes equal one left-to-right substitution for all dollar-free arguments if and only if no dollar outside the tokens stands directly before a token other than $0 |
| CommandExpansion.ChainRenders | internal/ecosys/expand.go:52-62 | where no pass touches an earlier value, after k passes exactly the first k tokens are replaced |
| CommandExpansion.HazardIsDoubleDollar | internal/ecosys/expand.go:35-62 | the failing bodies all contain two dollars side by side |
| CommandExpansion.StepwiseExact | internal/ecosys/expand.go:35-65 | for every argument string: on all bodies without a hazard each pass replaces its own token and nothing an earlier pass put in, if and only if no value ends in a dollar and every dollar before a digit begins a token whose value is its own text |
| CommandExpansion.EndResultExact | internal/ecosys/expand.go:35-65 | for every argument string: on all bodies without a hazard the eleven passes equal one substitution, if and only if no value ends in a dollar and each comes out of its later passes as it went in |
| CommandExpansion.InertIsSettled | internal/ecosys/expand.go:35-65 | the first condition implies the second |
| CommandExpansion.QuietIsInert | internal/ecosys/expand.go:35-65 | the first condition holds when no dollar stands before a digit, before whitespace or at the end |
| CommandExpansion.SelfNamedIsInert | internal/ecosys/expand.go:52-65 | and for the arguments "$1", though that dollar stands before a digit |
| CommandExpansion.ChangedAndBack | internal/ecosys/expand.go:52-65 | the arguments "$2$1" are changed by one pass and back by the next, so they meet the second condition only |
| CommandExpansion.ArgumentsReexpand | internal/ecosys/expand.go:52-65 | the arguments "$0" are expanded again, to nothing |
| AnsiStrip.StripANSI | internal/coreexec/ansistrip.go:17-94 | the walk computes the recursive strip |
| AnsiStrip.StripsTheSequences | internal/coreexec/ansistrip.go:9-16 | of any list of plain texts and escape sequences, given by their bytes, exactly the plain texts are left, whole and in order |
| AnsiStrip.EveryTextIsSegments | internal/coreexec/ansistrip.go:17-94 | every text is such a list, so that determines the strip |
| AnsiStrip.NoEscapeLeft | internal/coreexec/ansistrip.go:9-17 | the result holds no escape byte |
| AnsiStrip.StripIsSubsequence | internal/coreexec/ansistrip.go:9-16 | the result is a subsequence of the input |
| AnsiStrip.Idempotent | internal/coreexec/ansistrip.go:9-16 | stripping twice is stripping once |
| AnsiStrip.StripsApartExactly | internal/coreexec/ansistrip.go:17-94 | a text strips apart from everything that may follow it if and only if it ends outside any sequence |
| PtyCapture.ProbePrintsLine | internal/coreexec/ptty.go:381-383 | the probe's text with the status in place of $? is the result line |
| PtyCapture.ParseSentinel | internal/coreexec/ptty.go:546-569 | the status after the last marker, as a wrapping integer, or none |
| PtyCapture.LastSentinelResult | internal/coreexec/ptty.go:482-503 | where the last marker with a numeric status stands, or -1 |
| PtyCapture.ReadWindow | internal/coreexec/ptty.go:511-541 | stops at the first failure or the first capture that parses |
| PtyCapture.TrimPTYCapture | internal/coreexec/ptty.go:467-476 | strip, normalise, cut, trim |
| PtyCapture.NormalisesLineEnds | internal/coreexec/ptty.go:469 | lines joined by carriage return and newline become the same lines joined by newlines |
| PtyCapture.TrimRightMeans | internal/coreexec/bash.go:227-229 | exactly the blanks at the end are taken |
| PtyCapture.WindowParses | internal/coreexec/ptty.go:546-569 | for marker-free output exactly the windows that reach the end of the result line parse, to the printed code |
| PtyCapture.AnyChunkingReturnsTheCode | internal/coreexec/ptty.go:505-541 | for every chunking the window ends with the chunk that completes the line, with the printed code |
| PtyCapture.StripThenLine | internal/coreexec/ansistrip.go:37-91 | what stripping makes of the line after any output, by where the output ends |
| PtyCapture.TrimExactly | internal/coreexec/ptty.go:461-476 | the trimmed capture is the stripped, normalised, right-trimmed output if and only if the output does not end inside a control sequence |
| PtyCapture.CommandRoundTrip | internal/coreexec/ptty.go:394-456 | both for one command end to end, in any chunks |
| Utf8.DecodeLastRune | internal/ecosys/memory.go:393-396 | decides exactly whether the text ends in a complete character |
| Utf8.BoundaryEnds | internal/ecosys/memory.go:383-385 | between a valid text's last boundary and the cap no prefix ends in a character, and the boundary does |
| Utf8.ValidExactly | internal/ecosys/memory.go:383-403 | the valid byte strings are exactly the encodings of code points that are no surrogates (RFC 3629, section 3) |
| Utf8.EndsInRuneExactly | internal/ecosys/memory.go:393-396 | a byte string ends in a character exactly if it ends in the encoding of such a code point |
| ProjectMemory.TruncateMemory | internal/ecosys/memory.go:386-403 | cuts back to the last complete character within the cap, only if over it |
| ProjectMemory.CutIsLongestValid | internal/ecosys/memory.go:383-403 | on a prefix of valid UTF-8 over the cap the cut is the longest valid prefix within 24 KiB, at most 3 bytes short |
| ProjectMemory.OtherEncodingsLoseAll | internal/ecosys/memory.go:393-402 | over the cap nothing is left if and only if no complete character stands within it, as in text without a lead byte |
| ProjectMemory.MemoryCache.CachedRead | internal/ecosys/memory.go:341-363 | where path, time and size fix the content the cache never shows; a repeated read is a hit |
| ProjectMemory.PrefixIsEnough | internal/ecosys/memory.go:365-382 | what is shown of a file, and whether it was cut, is the same from the prefix that is read as from all of it |
| ProjectMemory.LevelHasEachNameOnce | internal/ecosys/memory.go:212-244 | each present name has exactly one entry, no other name any |
| ProjectMemory.LevelTextExactly | internal/ecosys/memory.go:208-244 | CLAUDE.md's text comes in exactly if it is a readable file, AGENTS.md's exactly if it is one and CLAUDE.md is no file |
| ProjectMemory.LevelEntries | internal/ecosys/memory.go:208-244 | each entry holds its readable file's own text, flagged exactly if cut, or says that CLAUDE.md shadows it or that it could not be read |
| ProjectMemory.MemoryLevels | internal/ecosys/memory.go:164-181 | the directories from the start up to the nearest marked one, none if there is none |
| ProjectMemory.MemoryInjection | internal/ecosys/memory.go:104-142 | every file is rendered once, in order, as a note or whole, whole exactly if it fits what is left of 64 KiB |
| ProjectMemory.RenderingIsDetermined | internal/ecosys/memory.go:104-142 | that determines the rendering |
| ProjectMemory.BudgetIsNotWasted | internal/ecosys/memory.go:125-131 | a file is left out for the budget only after more than 40 KiB were included; the first two never are |
| MentionScanner.ScanMention | internal/ecosys/mentions.go:74-117 | the scan of one mention, quoted part and tail |
| MentionScanner.ParseMentions | internal/ecosys/mentions.go:39-64 | the mentions of the text |
| MentionScanner.MentionsInOrder | internal/ecosys/mentions.go:22-38 | mentions are in order, disjoint, and each starts with an @ at the start of a word |
| MentionScanner.TokensAreSlices | internal/ecosys/mentions.go:10-20 | each token is a slice of the text where its mention starts |
| MentionScanner.NoMentionIsMissed | internal/ecosys/mentions.go:22-38 | every place where a mention could start is one or lies within one |
| MentionScanner.RoundTrip | internal/ecosys/mentions.go:22-38 | printing any mentions, quoted or not, with path tails, punctuation and whitespace, and parsing gives exactly them |
| HookVerdict.StableSortIsByScope | internal/ecosys/hooks.go:141-177 | a list is a stable sort by scope if and only if it is the project, user and other hooks in turn |
| HookVerdict.HookRunner.constructor | internal/ecosys/hooks.go:147-157 | the runner holds that list |
| HookVerdict.HookRunner.MatchingHooks | internal/ecosys/hooks.go:356-397 | the matching hooks in firing order |
| HookVerdict.HookRunner.PreToolUseVerdict | internal/ecosys/hooks.go:306-335 | runs and resolves the matching hooks |
| HookVerdict.MatcherMeans | internal/ecosys/hooks.go:349-450 | which hooks a tool call concerns: all for an empty matcher or a star, the names that stand in a settings matcher of names and separators, else what the regular expression takes |
| HookVerdict.ListedToolsMatchExactly | internal/ecosys/hooks.go:405-431 | a settings matcher that lists names matches exactly those tools |
| HookVerdict.ExitCodeRules | internal/ecosys/hookverdict.go:73-92 | exit 2 denies whatever the output says, with no reason exactly if the run timed out or printed nothing; any other failure decides nothing |
| HookVerdict.CleanDecision | internal/ecosys/hookverdict.go:90-121 | a clean run decides by the permission in the JSON object it prints: deny, ask or allow with the reason given there, and nothing in every other case |
| HookVerdict.ResolveVerdict | internal/ecosys/hookverdict.go:137-184 | the loop with three pointers computes the fold |
| HookVerdict.ResolveMeans | internal/ecosys/hookverdict.go:123-184 | deny iff some deny, ask iff some ask and no deny, allow iff some user allow and neither, each with the first such reason |
| HookVerdict.DemotedAllowsAreIgnored | internal/ecosys/hookverdict.go:161-175 | deleting all non-user allows never changes the result |
| HookVerdict.GateDenies | internal/ecosys/hooks.go:298-335 | the reason is that of the first denier among the project's hooks, else the user's, else the others' |
| HookVerdict.GateDeniesExactly | internal/ecosys/hooks.go:298-335 | the gate denies if and only if some matching hook denies |
| HookVerdict.VerdictIgnoresOrder | internal/ecosys/hookverdict.go:123-184 | the verdict does not depend on the order of the results |
| HookVerdict.GateMeans | internal/ecosys/hooks.go:298-335 | the whole gate: deny iff a matching hook denies, ask iff one asks and none denies, allow iff one from the user settings allows and neither |
| HookVerdict.RefusalBlocks | internal/ecosys/hooks.go:298-335 | one matching hook that exits 2 blocks the tool whatever the others say |
| HookVerdict.DenialBlocks | internal/ecosys/hooks.go:298-335 | so does one that cleanly prints a denial |
| HookVerdict.RunGate | internal/ecosys/hooks.go:298-335 | building the runner and asking it computes the gate |
| ElicitationForm.BuildElicitationForm | internal/acpserve/ask_surface.go:295-333 | one required property q1, q2, ... of the right kind for each question, and no other |
| ElicitationForm.MultiSelectItems | internal/acpserve/ask_surface.go:336-363 | titled items exactly if some option has a description |
| ElicitationForm.KeysDiffer | internal/acpserve/ask_surface.go:305 | different questions have different keys |
| ElicitationForm.KeysAreNumbered | kit/session/ask.go:316 | the keys are a q and the number of the question in decimal |
| ElicitationForm.BooleanAskMeans | internal/acpserve/ask_surface.go:248-254 | a question is a yes-or-no one exactly with one answer and just the options yes and no, in that order and any case |
| ElicitationForm.ValidateElicitationContent | internal/acpserve/ask_surface.go:417-457 | accepts exactly what the schema admits; a violation is the first missing key, else the first bad key in byte order |
| ElicitationForm.BeforeMeans | internal/acpserve/ask_surface.go:440-457 | the order of the keys is that of their first difference |
| ElicitationForm.TextPasses | internal/acpserve/ask_surface.go:495-520 | a text passes exactly if each list of choices has it and its length is within the bounds |
| ElicitationForm.ValueIsAnswer | internal/acpserve/ask_surface.go:469-555 | a value is accepted exactly if, with nulls among its items read as "", it answers the question: one of the labels or any text, a yes or no, a list of labels |
| ElicitationForm.ValidateArrayValue | internal/acpserve/ask_surface.go:525-555 | decides an array item by item |
| ElicitationForm.FormAndValidatorAgree | internal/acpserve/ask_surface.go:284-333 | the validator accepts exactly the contents that answer every question, nulls among chosen items read as "" |
| ElicitationForm.NullItemsAreTheGap | internal/acpserve/ask_surface.go:532-551 | a value is accepted without being an answer exactly when a null item would do as "" |
| ElicitationForm.UnknownKeysIgnored | internal/acpserve/ask_surface.go:409-457 | keys of no question make no difference |

## Left out

- Real time: retry windows, the drain timeout and ticker cadence are nondeterministic steps.
- EmitterObject.Emitter.Stop: does not model the join that follows the cancel; what it waits for are the drain's
  own steps, up to the label DrainStop.
- LineFraming.Writer.DrainOne: a stream that failed is taken to refuse all later writes, as a closed pipe does; one
  that fails and recovers is not modelled.
- Process control, signals, file descriptors and sandboxing: operating-system calls.
- JSON, regular expressions and marshalling: a message is what it marshals to (newline-free unless the marshaller
  is broken), a matcher is a function that may fail to compile, labels survive marshalling unchanged.
- Identifiers (request ids, session ids, task ids, nonces): assumed fresh.
- The frame kinds of the emitter (chunks, cards, plans) and the metrics it feeds: payloads are opaque.
- The order in which Stop and ReapAll visit what they drained: in the protocols each visit is a step of its own that
  may interleave with anything.
- Pending entries as objects: the registry keeps them in a map that outlives the pending set, so aliasing of an
  entry between caller and resolver is by id.
- The transcript check, resume and replay of session/load: a load may be rejected or fail at any point before its insert.
- Session ask queues, checkpoint removal and the tombstone's later purge by the grace sweep.
- Request dispatch, error scrubbing and the inline notification path; the reader's response interception.
- SequenceMining.ProposeHooks: does not model the hook name, its slug and the fixed trigger.
- CommandExpansion.Expand: invocation parsing is not modelled; bodies and arguments are characters, valid UTF-8.
- The bound on reading a memory file is modelled; a file that changes between its stat and its read is not, so
  ProjectMemory.MemoryCache.CachedRead assumes the read matches the stat.
- The texts of memory notes and headers, the user-global directory, and which home directory is used.
- HookVerdict.HookRunner.PreToolUseVerdict: hook payloads, environments and warnings are not modelled.
- ElicitationForm.ValidateElicitationContent: violations carry the key, not the message text.
