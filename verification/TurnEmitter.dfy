/** The ordered session/update emitter: two bounded lanes, one drain goroutine, an
    enqueued/written counter pair and a close-and-swap wake generation.

    Every label is one atomic step: a mutex region, one channel operation or one
    committed select arm. A run is any sequence of enabled labels, so a statement about
    all runs is a statement about all interleavings. */
module TurnEmitter {
  import opened Runs

  datatype Lane = Foreground | Background
  datatype Frame = Frame(lane: Lane, payload: int)

  // What the Writer's FIFO channel carries: notification frames and handler responses.
  datatype Item = Update(frame: Frame) | Response(handler: nat)

  // The drain goroutine: at its first select, at its second select, holding a received
  // frame, past sink.Write but before the bookkeeping region, or gone.
  datatype Drain = First | Second | Holding(frame: Frame) | Handed | Exited

  // One Barrier call and the response its handler writes afterwards.
  datatype Waiter =
    | Snapped(target: int)
    | Parked(target: int, gen: nat)
    | Passed(target: int)
    | Escaped(target: int)
    | Answered(target: int, clean: bool)

  datatype State = State(
    fgCap: nat, bgCap: nat,
    enqueued: int, written: int, gen: nat,
    fg: seq<Frame>, bg: seq<Frame>,
    pending: map<nat, Frame>,   // producers between their bump and their lane send
    aborting: set<nat>,         // producers woken by Stop, before they compensate
    drain: Drain, stopped: bool,
    waiters: map<nat, Waiter>,
    log: seq<Item>, wire: nat,  // Writer channel order; how many items left for the wire
    sentFg: seq<Frame>, sentBg: seq<Frame>)

  datatype Label =
    | Bump(p: nat, frame: Frame) | Send(p: nat) | AbortWake(p: nat) | Compensate(p: nat)
    | DrainFg | DrainDefault | DrainBg | DrainStop | SinkWrite | Book
    | Stop | WireOut
    | Snap(b: nat) | Check(b: nat) | Wake(b: nat) | Escape(b: nat) | Respond(b: nat)

  const WRITE_BUFFER: nat := 256

  function Init(fgCap: nat, bgCap: nat): State {
    State(fgCap, bgCap, 0, 0, 0, [], [], map[], {}, First, false, map[], [], 0, [], [])
  }

  predicate Enabled(s: State, l: Label) {
    match l
    case Bump(p, _) => p !in s.pending && p !in s.aborting
    case Send(p) =>
      p in s.pending &&
      (if s.pending[p].lane.Foreground? then |s.fg| < s.fgCap else |s.bg| < s.bgCap)
    case AbortWake(p) => p in s.pending && s.stopped
    case Compensate(p) => p in s.aborting
    case DrainFg => (s.drain.First? || s.drain.Second?) && s.fg != []
    case DrainDefault => s.drain.First? && s.fg == []
    case DrainBg => s.drain.Second? && s.bg != []
    case DrainStop => s.drain.Second? && s.stopped
    case SinkWrite => s.drain.Holding? && |s.log| - s.wire < WRITE_BUFFER
    case Book => s.drain.Handed?
    case Stop => true
    case WireOut => s.wire < |s.log|
    case Snap(b) => b !in s.waiters
    case Check(b) => b in s.waiters && s.waiters[b].Snapped?
    case Wake(b) => b in s.waiters && s.waiters[b].Parked? && s.waiters[b].gen < s.gen
    // The caller's context may die at any time; Stop wakes every parked waiter.
    case Escape(b) => b in s.waiters && s.waiters[b].Parked?
    case Respond(b) =>
      b in s.waiters && (s.waiters[b].Passed? || s.waiters[b].Escaped?) &&
      |s.log| - s.wire < WRITE_BUFFER
  }

  function Apply(s: State, l: Label): State
    requires Enabled(s, l)
  {
    match l
    case Bump(p, f) => s.(enqueued := s.enqueued + 1, pending := s.pending[p := f])
    case Send(p) =>
      var f := s.pending[p];
      var rest := s.(pending := s.pending - {p});
      if f.lane.Foreground? then rest.(fg := s.fg + [f], sentFg := s.sentFg + [f])
      else rest.(bg := s.bg + [f], sentBg := s.sentBg + [f])
    case AbortWake(p) => s.(pending := s.pending - {p}, aborting := s.aborting + {p})
    case Compensate(p) => s.(enqueued := s.enqueued - 1, aborting := s.aborting - {p})
    case DrainFg => s.(drain := Holding(s.fg[0]), fg := s.fg[1..])
    case DrainDefault => s.(drain := Second)
    case DrainBg => s.(drain := Holding(s.bg[0]), bg := s.bg[1..])
    case DrainStop => s.(drain := Exited)
    case SinkWrite => s.(drain := Handed, log := s.log + [Update(s.drain.frame)])
    case Book => s.(drain := First, written := s.written + 1, gen := s.gen + 1)
    case Stop => s.(stopped := true)
    case WireOut => s.(wire := s.wire + 1)
    case Snap(b) => s.(waiters := s.waiters[b := Snapped(s.enqueued)])
    case Check(b) =>
      var t := s.waiters[b].target;
      s.(waiters := s.waiters[b := if s.written >= t then Passed(t) else Parked(t, s.gen)])
    case Wake(b) => s.(waiters := s.waiters[b := Snapped(s.waiters[b].target)])
    case Escape(b) => s.(waiters := s.waiters[b := Escaped(s.waiters[b].target)])
    case Respond(b) =>
      s.(waiters := s.waiters[b := Answered(s.waiters[b].target, s.waiters[b].Passed?)],
         log := s.log + [Response(b)])
  }

  function Step(s: State, l: Label): Option<State> {
    if Enabled(s, l) then Some(Apply(s, l)) else None
  }

  // What left the lanes, in order.

  function Updates(log: seq<Item>): seq<Frame> {
    if log == [] then []
    else
      var front := Updates(log[..|log|-1]);
      match log[|log|-1] case Update(f) => front + [f] case Response(_) => front
  }

  function OfLane(fs: seq<Frame>, lane: Lane): seq<Frame> {
    if fs == [] then []
    else
      var front := OfLane(fs[..|fs|-1], lane);
      if fs[|fs|-1].lane == lane then front + [fs[|fs|-1]] else front
  }

  function Received(s: State): seq<Frame> {
    Updates(s.log) + if s.drain.Holding? then [s.drain.frame] else []
  }

  function InFlight(s: State): nat { if s.drain.Holding? || s.drain.Handed? then 1 else 0 }

  // Foreground frames the drain has taken, and those it has handed to the Writer.
  function FgTaken(s: State): int { |s.sentFg| - |s.fg| }
  function FgSunk(s: State): nat { |OfLane(Updates(s.log), Foreground)| }

  predicate CountInv(s: State) {
    && s.enqueued == s.written + InFlight(s) + |s.fg| + |s.bg| + |s.pending| + |s.aborting|
    && s.pending.Keys !! s.aborting
    && |Updates(s.log)| == s.written + (if s.drain.Handed? then 1 else 0)
    && |s.fg| <= s.fgCap && |s.bg| <= s.bgCap
    && s.wire <= |s.log| <= s.wire + WRITE_BUFFER
  }

  // A lane's send order is what was received from it followed by what it still holds.
  predicate LaneOk(got: seq<Frame>, queue: seq<Frame>, sent: seq<Frame>, lane: Lane) {
    OfLane(got, lane) + queue == sent && forall f :: f in queue ==> f.lane == lane
  }

  predicate LaneInv(s: State) {
    LaneOk(Received(s), s.fg, s.sentFg, Foreground) && LaneOk(Received(s), s.bg, s.sentBg, Background)
  }

  predicate WaiterInv(s: State) {
    && (forall b :: b in s.waiters ==>
      match s.waiters[b]
      case Parked(t, g) => g < s.gen || (g == s.gen && s.written < t)
      case Passed(t) => s.written >= t
      case _ => true)
    && (s.aborting != {} || s.drain.Exited? ==> s.stopped)
    && (!s.stopped ==> forall b :: b in s.waiters ==> s.waiters[b].target <= s.enqueued)
  }

  predicate Inv(s: State) {
    s.fgCap > 0 && s.bgCap > 0 && CountInv(s) && LaneInv(s) && WaiterInv(s)
  }

  lemma OfLaneSnoc(fs: seq<Frame>, f: Frame, lane: Lane)
    ensures OfLane(fs + [f], lane) == if f.lane == lane then OfLane(fs, lane) + [f] else OfLane(fs, lane)
  {
    assert (fs + [f])[..|fs + [f]|-1] == fs;
  }

  lemma UpdatesSnoc(log: seq<Item>, i: Item)
    ensures Updates(log + [i]) == if i.Update? then Updates(log) + [i.frame] else Updates(log)
  {
    assert (log + [i])[..|log + [i]|-1] == log;
  }

  // Every step but a lane receive leaves the received frames alone.
  lemma ReceivedFrame(s: State, l: Label)
    requires Enabled(s, l)
    ensures !l.DrainFg? && !l.DrainBg? ==> Received(Apply(s, l)) == Received(s)
    ensures l.DrainFg? ==> Received(Apply(s, l)) == Received(s) + [s.fg[0]]
    ensures l.DrainBg? ==> Received(Apply(s, l)) == Received(s) + [s.bg[0]]
  {
    match l {
      case SinkWrite => UpdatesSnoc(s.log, Update(s.drain.frame));
      case Respond(b) => UpdatesSnoc(s.log, Response(b));
      case _ =>
    }
  }

  lemma StepWritten(s: State, l: Label)
    requires |Updates(s.log)| == s.written + (if s.drain.Handed? then 1 else 0) && Enabled(s, l)
    ensures var t := Apply(s, l); |Updates(t.log)| == t.written + (if t.drain.Handed? then 1 else 0)
  {
    if l.SinkWrite? {
      UpdatesSnoc(s.log, Update(s.drain.frame));
    } else if l.Respond? {
      UpdatesSnoc(s.log, Response(l.b));
    }
  }

  predicate OfProducer(l: Label) { l.Bump? || l.Send? || l.AbortWake? || l.Compensate? }

  lemma PendingSizes(m: map<nat, Frame>, p: nat, f: Frame)
    ensures p !in m ==> |m[p := f]| == |m| + 1
    ensures p in m ==> |m - {p}| == |m| - 1
  {
    assert m[p := f].Keys == m.Keys + {p};
    assert (m - {p}).Keys == m.Keys - {p};
  }

  lemma CountBump(s: State, l: Label)
    requires CountInv(s) && Enabled(s, l) && l.Bump?
    ensures CountInv(Apply(s, l))
  {
    hide Updates;
    PendingSizes(s.pending, l.p, l.frame);
  }

  lemma CountSend(s: State, l: Label)
    requires CountInv(s) && Enabled(s, l) && l.Send?
    ensures CountInv(Apply(s, l))
  {
    hide Updates;
    PendingSizes(s.pending, l.p, s.pending[l.p]);
  }

  lemma CountAbort(s: State, l: Label)
    requires CountInv(s) && Enabled(s, l) && (l.AbortWake? || l.Compensate?)
    ensures CountInv(Apply(s, l))
  {
    hide Updates;
    if l.AbortWake? { PendingSizes(s.pending, l.p, s.pending[l.p]); }
    assert l.Compensate? ==> |s.aborting - {l.p}| == |s.aborting| - 1;
    assert l.AbortWake? ==> |s.aborting + {l.p}| == |s.aborting| + 1;
  }

  lemma StepCountOther(s: State, l: Label)
    requires CountInv(s) && Enabled(s, l) && !OfProducer(l)
    ensures CountInv(Apply(s, l))
  {
    StepWritten(s, l);
    hide Updates;
  }

  lemma StepCount(s: State, l: Label)
    requires CountInv(s) && Enabled(s, l)
    ensures CountInv(Apply(s, l))
  {
    hide CountInv;
    match l
    case Bump(_, _) => CountBump(s, l);
    case Send(_) => CountSend(s, l);
    case AbortWake(_) => CountAbort(s, l);
    case Compensate(_) => CountAbort(s, l);
    case _ => StepCountOther(s, l);
  }

  // Taking a lane's head moves it from the lane's end of the send order to the received end.
  lemma TakeHead(got: seq<Frame>, queue: seq<Frame>, sent: seq<Frame>, lane: Lane)
    requires queue != [] && LaneOk(got, queue, sent, lane)
    ensures LaneOk(got + [queue[0]], queue[1..], sent, lane)
  {
    hide OfLane;
    OfLaneSnoc(got, queue[0], lane);
    assert queue == [queue[0]] + queue[1..];
  }

  lemma OtherLane(got: seq<Frame>, f: Frame, queue: seq<Frame>, sent: seq<Frame>, lane: Lane)
    requires f.lane != lane && LaneOk(got, queue, sent, lane)
    ensures LaneOk(got + [f], queue, sent, lane)
  {
    OfLaneSnoc(got, f, lane);
  }

  lemma SendTail(got: seq<Frame>, queue: seq<Frame>, sent: seq<Frame>, f: Frame)
    requires LaneOk(got, queue, sent, f.lane)
    ensures LaneOk(got, queue + [f], sent + [f], f.lane)
  {
    assert OfLane(got, f.lane) + (queue + [f]) == sent + [f];
  }

  lemma StepLane(s: State, l: Label)
    requires LaneInv(s) && Enabled(s, l)
    ensures LaneInv(Apply(s, l))
  {
    ReceivedFrame(s, l);
    if l.DrainFg? {
      assert s.fg[0] in s.fg;
      TakeHead(Received(s), s.fg, s.sentFg, Foreground);
      OtherLane(Received(s), s.fg[0], s.bg, s.sentBg, Background);
    } else if l.DrainBg? {
      assert s.bg[0] in s.bg;
      TakeHead(Received(s), s.bg, s.sentBg, Background);
      OtherLane(Received(s), s.bg[0], s.fg, s.sentFg, Foreground);
    } else if l.Send? {
      var f := s.pending[l.p];
      if f.lane.Foreground? { SendTail(Received(s), s.fg, s.sentFg, f); }
      else { SendTail(Received(s), s.bg, s.sentBg, f); }
    }
  }

  lemma StepWaiter(s: State, l: Label)
    requires WaiterInv(s) && Enabled(s, l)
    ensures WaiterInv(Apply(s, l))
  {
  }

  lemma StepInv(s: State, l: Label)
    requires Inv(s) && Enabled(s, l)
    ensures Inv(Apply(s, l))
  {
    hide CountInv, LaneInv, WaiterInv;
    StepCount(s, l);
    StepLane(s, l);
    StepWaiter(s, l);
  }

  lemma RunInv(s: State, ls: seq<Label>)
    requires Inv(s) && CanRun(Step, s, ls)
    ensures Inv(Run(Step, s, ls))
  {
    forall t, l | Inv(t) && Step(t, l).Some? ensures Inv(Step(t, l).value) { StepInv(t, l); }
    RunKeeps(Step, Inv, s, ls);
  }
}
