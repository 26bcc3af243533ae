/** The emitter object itself: counters, wake generation and lanes, with each region and select
    proved to take the protocol's step. What goroutines stand where is history. */
module EmitterObject {
  import opened Runs
  import opened TurnEmitter

  const DEFAULT_FOREGROUND: nat := 128
  const DEFAULT_BACKGROUND: nat := 256

  // The committed arm of the drain's second select.
  datatype Arm = FromFg | FromBg | Done

  class Emitter {
    const fgCap: nat
    const bgCap: nat
    var enqueued: int
    var written: int
    var wake: nat    // the current generation of the broadcast channel
    var fg: seq<Frame>
    var bg: seq<Frame>
    var stopped: bool
    ghost var pending: map<nat, Frame>
    ghost var aborting: set<nat>
    ghost var at: Drain
    ghost var waiters: map<nat, Waiter>
    ghost var log: seq<Item>
    ghost var wire: nat
    ghost var sentFg: seq<Frame>
    ghost var sentBg: seq<Frame>

    ghost function View(): State
      reads this
    {
      State(fgCap, bgCap, enqueued, written, wake, fg, bg, pending, aborting, at, stopped, waiters, log, wire,
            sentFg, sentBg)
    }

    /** A capacity of zero or less means the default. */
    constructor (foreground: int, background: int)
      ensures Inv(View())
      ensures View() == Init(if foreground <= 0 then DEFAULT_FOREGROUND else foreground,
                             if background <= 0 then DEFAULT_BACKGROUND else background)
    {
      fgCap := if foreground <= 0 then DEFAULT_FOREGROUND else foreground;
      bgCap := if background <= 0 then DEFAULT_BACKGROUND else background;
      enqueued, written, wake, fg, bg, stopped := 0, 0, 0, [], [], false;
      pending, aborting, at, waiters, log, wire, sentFg, sentBg := map[], {}, First, map[], [], 0, [], [];
    }

    // The region before the lane send.
    method BumpEnqueued(ghost p: nat, ghost frame: Frame)
      requires Inv(View()) && Enabled(View(), Bump(p, frame))
      modifies this
      ensures View() == Apply(old(View()), Bump(p, frame)) && Inv(View())
      ensures enqueued == old(enqueued) + 1 && written == old(written) && fg == old(fg) && bg == old(bg)
    {
      StepInv(View(), Bump(p, frame));
      enqueued := enqueued + 1;
      pending := pending[p := frame];
    }

    // The lane's arm of the send select.
    method SendToLane(ghost p: nat, frame: Frame)
      requires Inv(View()) && Enabled(View(), Send(p)) && pending[p] == frame
      modifies this
      ensures View() == Apply(old(View()), Send(p)) && Inv(View())
      ensures if frame.lane.Foreground? then fg == old(fg) + [frame] && bg == old(bg)
              else bg == old(bg) + [frame] && fg == old(fg)
    {
      hide CountInv, LaneInv, WaiterInv;
      StepInv(View(), Send(p));
      if frame.lane.Foreground? {
        fg := fg + [frame];
        sentFg := sentFg + [frame];
      } else {
        bg := bg + [frame];
        sentBg := sentBg + [frame];
      }
      pending := pending - {p};
    }

    // The region after the send select chose the dead context.
    method CompensateEnqueued(ghost p: nat)
      requires Inv(View()) && Enabled(View(), Compensate(p))
      modifies this
      ensures View() == Apply(old(View()), Compensate(p)) && Inv(View())
      ensures enqueued == old(enqueued) - 1 && written == old(written) && fg == old(fg) && bg == old(bg)
    {
      StepInv(View(), Compensate(p));
      enqueued := enqueued - 1;
      aborting := aborting - {p};
    }

    /** A whole call with nothing else running: abort is the select's choice, open only once the
        emitter has stopped; without it the lane has room. An aborted call leaves the count as it
        found it. */
    method Notify(ghost p: nat, frame: Frame, abort: bool) returns (ok: bool)
      requires Inv(View()) && Enabled(View(), Bump(p, frame))
      requires if abort then stopped else if frame.lane.Foreground? then |fg| < fgCap else |bg| < bgCap
      modifies this
      ensures Inv(View()) && ok == !abort
      ensures enqueued == old(enqueued) + if ok then 1 else 0
      ensures if !ok then View() == old(View())
              else View() == Apply(Apply(old(View()), Bump(p, frame)), Send(p))
      ensures fg == (if ok && frame.lane.Foreground? then old(fg) + [frame] else old(fg))
      ensures bg == (if ok && frame.lane.Background? then old(bg) + [frame] else old(bg))
    {
      hide CountInv, LaneInv, WaiterInv;
      ghost var before := View();
      BumpEnqueued(p, frame);
      if abort {
        StepInv(View(), AbortWake(p));
        pending := pending - {p};
        aborting := aborting + {p};
        CompensateEnqueued(p);
        assert pending == before.pending && aborting == before.aborting;
        return false;
      }
      SendToLane(p, frame);
      return true;
    }

    // The drain's first select: a foreground frame if there is one, else on to the second.
    method FirstSelect() returns (m: Option<Frame>)
      requires Inv(View()) && at.First?
      modifies this
      ensures Inv(View())
      ensures m == if old(fg) == [] then None else Some(old(fg)[0])
      ensures fg == (if old(fg) == [] then [] else old(fg)[1..]) && bg == old(bg)
      ensures View() == Apply(old(View()), if old(fg) == [] then DrainDefault else DrainFg)
    {
      if fg == [] {
        StepInv(View(), DrainDefault);
        at := Second;
        return None;
      }
      StepInv(View(), DrainFg);
      m := Some(fg[0]);
      at := Holding(fg[0]);
      fg := fg[1..];
    }

    // The drain's second select, with the arm that was ready and chosen.
    method SecondSelect(arm: Arm) returns (m: Option<Frame>)
      requires Inv(View()) && at.Second?
      requires match arm case FromFg => fg != [] case FromBg => bg != [] case Done => stopped
      modifies this
      ensures Inv(View())
      ensures View() == Apply(old(View()), match arm case FromFg => DrainFg case FromBg => DrainBg case Done => DrainStop)
      ensures m == match arm case FromFg => Some(old(fg)[0]) case FromBg => Some(old(bg)[0]) case Done => None
      ensures fg == (if arm.FromFg? then old(fg)[1..] else old(fg)) && bg == if arm.FromBg? then old(bg)[1..] else old(bg)
    {
      hide CountInv, LaneInv, WaiterInv;
      match arm {
        case FromFg =>
          StepInv(View(), DrainFg);
          m, at, fg := Some(fg[0]), Holding(fg[0]), fg[1..];
        case FromBg =>
          StepInv(View(), DrainBg);
          m, at, bg := Some(bg[0]), Holding(bg[0]), bg[1..];
        case Done =>
          StepInv(View(), DrainStop);
          m, at := None, Exited;
      }
    }

    /** The sink first, then one region that counts the frame and turns the wake generation: every
        waiter parked before is on a closed generation after it. */
    method WriteOut(m: Frame)
      requires Inv(View()) && at == Holding(m) && Enabled(View(), SinkWrite)
      modifies this
      ensures View() == Apply(Apply(old(View()), SinkWrite), Book) && Inv(View())
      ensures written == old(written) + 1 && log == old(log) + [Update(m)]
      ensures forall b :: b in waiters && waiters[b].Parked? ==> waiters[b].gen < wake
    {
      hide CountInv, LaneInv, Received, Updates;
      StepInv(View(), SinkWrite);
      log := log + [Update(m)];
      at := Handed;
      StepInv(View(), Book);
      written := written + 1;
      wake := wake + 1;
      at := First;
    }

    /** One turn of the drain loop with nothing else running: a foreground frame goes first
        whatever the background lane holds. */
    method DrainTurn(arm: Arm) returns (exited: bool)
      requires Inv(View()) && at.First? && |log| - wire < WRITE_BUFFER
      requires fg == [] ==> match arm case FromFg => false case FromBg => bg != [] case Done => stopped
      modifies this
      ensures Inv(View())
      ensures old(fg) != [] ==> !exited && log == old(log) + [Update(old(fg)[0])] && bg == old(bg)
      ensures old(fg) == [] && arm.FromBg? ==> !exited && log == old(log) + [Update(old(bg)[0])]
      ensures old(fg) == [] && arm.Done? ==> exited && log == old(log)
      ensures !exited ==> at.First? && written == old(written) + 1
    {
      hide CountInv, LaneInv, WaiterInv;
      var m := FirstSelect();
      if m.Some? {
        WriteOut(m.value);
        return false;
      }
      m := SecondSelect(arm);
      if m.None? {
        return true;
      }
      WriteOut(m.value);
      return false;
    }

    // Barrier's first region.
    method BarrierTarget(ghost b: nat) returns (target: int)
      requires Inv(View()) && Enabled(View(), Snap(b))
      modifies this
      ensures View() == Apply(old(View()), Snap(b)) && Inv(View())
      ensures target == enqueued
    {
      StepInv(View(), Snap(b));
      target := enqueued;
      waiters := waiters[b := Snapped(target)];
    }

    // Barrier's loop region: the test and the generation to park on, read together.
    method BarrierCheck(ghost b: nat, target: int) returns (done: bool, parkOn: nat)
      requires Inv(View()) && Enabled(View(), Check(b)) && waiters[b].target == target
      modifies this
      ensures View() == Apply(old(View()), Check(b)) && Inv(View())
      ensures done <==> written >= target
      ensures parkOn == wake
    {
      StepInv(View(), Check(b));
      done := written >= target;
      parkOn := wake;
      waiters := waiters[b := if done then Passed(target) else Parked(target, parkOn)];
    }

    method Stop()
      requires Inv(View())
      modifies this
      ensures View() == Apply(old(View()), Label.Stop) && Inv(View())
      ensures stopped && fg == old(fg) && bg == old(bg) && enqueued == old(enqueued) && written == old(written)
    {
      StepInv(View(), Label.Stop);
      stopped := true;
    }
  }
}
