/** What the emitter promises over whole runs: bounded overtaking, updates before the
    response with its exact condition, and no lost wake-up. */
module EmitterOrder {
  import opened Runs
  import opened Sets
  import opened TurnEmitter

  // Background frames received in a run while the n-th foreground frame had not been.
  ghost function OvertakenBy(s: State, ls: seq<Label>, n: nat): nat
    requires CanRun(Step, s, ls)
  {
    if ls == [] then 0
    else
      var front := ls[..|ls|-1];
      OvertakenBy(s, front, n) + Takes(Run(Step, s, front), ls[|ls|-1], n)
  }

  function Takes(t: State, l: Label, n: nat): nat { if l.DrainBg? && FgTaken(t) <= n then 1 else 0 }

  // An already opened second select may take one background frame.
  function Credit(s: State): nat { if s.drain.Second? then 1 else 0 }

  lemma SunkTaken(s: State)
    requires Inv(s)
    ensures FgSunk(s) == FgTaken(s) - (if s.drain.Holding? && s.drain.frame.lane.Foreground? then 1 else 0)
    ensures OfLane(Updates(s.log), Foreground) <= s.sentFg
    ensures |Received(s)| == s.written + InFlight(s)
  {
    if s.drain.Holding? {
      OfLaneSnoc(Updates(s.log), s.drain.frame, Foreground);
    } else {
      assert Received(s) == Updates(s.log);
    }
  }

  // How far the drain has got, against where it was, while and just after the n-th
  // foreground frame sits in its lane; takes counts the background frames that overtook it.
  ghost predicate Progress(s: State, t: State, takes: nat, n: nat) {
    && s.sentFg <= t.sentFg && takes <= Credit(s)
    && (FgTaken(t) <= n ==>
        |Received(t)| == |Received(s)| + FgTaken(t) - FgTaken(s) + takes &&
        takes + Credit(t) <= Credit(s))
    && (n < FgTaken(t) && FgSunk(t) <= n ==>
        t.drain.Holding? && FgTaken(t) == n + 1 &&
        t.written <= |Received(s)| + n - FgTaken(s) + takes)
  }

  lemma WaitingProgress(s: State, t: State, l: Label, takes: nat, n: nat)
    requires Inv(t) && Enabled(t, l) && Inv(Apply(t, l)) && n < |s.sentFg|
    requires Progress(s, t, takes, n) && FgTaken(t) <= n
    ensures Progress(s, Apply(t, l), takes + Takes(t, l, n), n)
  {
    var u := Apply(t, l);
    ReceivedFrame(t, l);
    SunkTaken(t);
    SunkTaken(u);
    assert t.fg != [];
  }

  lemma HeldProgress(s: State, t: State, l: Label, takes: nat, n: nat)
    requires Inv(t) && Enabled(t, l) && Inv(Apply(t, l)) && n < |s.sentFg|
    requires Progress(s, t, takes, n) && n < FgTaken(t)
    ensures Progress(s, Apply(t, l), takes, n)
  {
    SunkTaken(t);
    SunkTaken(Apply(t, l));
  }

  lemma StepProgress(s: State, t: State, l: Label, takes: nat, n: nat)
    requires Inv(t) && Enabled(t, l) && n < |s.sentFg|
    requires Progress(s, t, takes, n)
    ensures Progress(s, Apply(t, l), takes + Takes(t, l, n), n)
  {
    StepInv(t, l);
    if FgTaken(t) <= n { WaitingProgress(s, t, l, takes, n); } else { HeldProgress(s, t, l, takes, n); }
  }

  lemma {:induction false} RunProgress(s: State, ls: seq<Label>, n: nat)
    requires Inv(s) && CanRun(Step, s, ls) && FgTaken(s) <= n < |s.sentFg|
    ensures Progress(s, Run(Step, s, ls), OvertakenBy(s, ls, n), n)
  {
    if ls == [] {
      SunkTaken(s);
    } else {
      var front := ls[..|ls|-1];
      RunProgress(s, front, n);
      RunInv(s, front);
      StepProgress(s, Run(Step, s, front), ls[|ls|-1], OvertakenBy(s, front, n), n);
    }
  }

  // In every run at most one background frame overtakes a foreground frame that waits in its
  // lane, and none unless the second select was already open.
  lemma BoundedOvertaking(s: State, ls: seq<Label>, n: nat)
    requires Inv(s) && CanRun(Step, s, ls) && FgTaken(s) <= n < |s.sentFg|
    ensures OvertakenBy(s, ls, n) <= (if s.drain.Second? then 1 else 0)
  {
    RunProgress(s, ls, n);
  }

  // What the producers gave, read from the labels of a run alone.

  // The frame of producer p's last Bump.
  function LastGiven(ls: seq<Label>, p: nat): Option<Frame> {
    if ls == [] then None
    else if ls[|ls|-1].Bump? && ls[|ls|-1].p == p then Some(ls[|ls|-1].frame)
    else LastGiven(ls[..|ls|-1], p)
  }

  // The frames sent into a lane, in the order of the sends.
  function SentIn(ls: seq<Label>, lane: Lane): seq<Frame> {
    if ls == [] then []
    else
      var front, l := ls[..|ls|-1], ls[|ls|-1];
      SentIn(front, lane) + if l.Send? then GivenIn(front, l.p, lane) else []
  }

  function GivenIn(ls: seq<Label>, p: nat, lane: Lane): seq<Frame> {
    match LastGiven(ls, p)
    case Some(f) => if f.lane == lane then [f] else []
    case None => []
  }

  ghost predicate AsGiven(t: State, ls: seq<Label>) {
    && t.sentFg == SentIn(ls, Foreground) && t.sentBg == SentIn(ls, Background)
    && forall p :: p in t.pending ==> LastGiven(ls, p) == Some(t.pending[p])
  }

  /** In every run each lane is sent exactly the frames its producers gave, in the order of the
      sends. */
  lemma {:induction false} SentIsGiven(fgCap: nat, bgCap: nat, ls: seq<Label>)
    requires CanRun(Step, Init(fgCap, bgCap), ls)
    ensures AsGiven(Run(Step, Init(fgCap, bgCap), ls), ls)
  {
    if ls != [] {
      SentIsGiven(fgCap, bgCap, ls[..|ls|-1]);
      GivenStep(Run(Step, Init(fgCap, bgCap), ls[..|ls|-1]), ls[..|ls|-1], ls[|ls|-1]);
      assert ls == ls[..|ls|-1] + [ls[|ls|-1]];
    }
  }

  lemma GivenStep(t: State, ls: seq<Label>, l: Label)
    requires AsGiven(t, ls) && Enabled(t, l)
    ensures AsGiven(Apply(t, l), ls + [l])
  {
    var more := ls + [l];
    assert more[..|more|-1] == ls && more[|more|-1] == l;
    forall p ensures LastGiven(more, p) == if l.Bump? && l.p == p then Some(l.frame) else LastGiven(ls, p) {}
    hide LastGiven;
    assert SentIn(more, Foreground) == SentIn(ls, Foreground) + if l.Send? then GivenIn(ls, l.p, Foreground) else [];
    assert SentIn(more, Background) == SentIn(ls, Background) + if l.Send? then GivenIn(ls, l.p, Background) else [];
  }

  // The Writer's order, restricted to a lane, is the order in which the producers' own frames
  // were sent into it.
  lemma WriterOrderIsSendOrder(fgCap: nat, bgCap: nat, ls: seq<Label>)
    requires fgCap > 0 && bgCap > 0 && CanRun(Step, Init(fgCap, bgCap), ls)
    ensures var t := Run(Step, Init(fgCap, bgCap), ls);
      && OfLane(Updates(t.log), Foreground) <= SentIn(ls, Foreground)
      && OfLane(Updates(t.log), Background) <= SentIn(ls, Background)
  {
    SentIsGiven(fgCap, bgCap, ls);
    RunInv(Init(fgCap, bgCap), ls);
    var t := Run(Step, Init(fgCap, bgCap), ls);
    SunkTaken(t);
    if t.drain.Holding? {
      OfLaneSnoc(Updates(t.log), t.drain.frame, Background);
    } else {
      assert Received(t) == Updates(t.log);
    }
  }

  // The one situation in which the n-th foreground frame can miss a Barrier that
  // snapshots now: it is the only unwritten frame behind which nothing was counted, and
  // the drain's second select is already open.
  predicate Exposed(s: State, n: nat) {
    s.drain.Second? && n + 1 == |s.sentFg| && s.fg != [] && s.bg == [] &&
    s.pending == map[] && s.aborting == {}
  }

  lemma Covered(s: State, ls: seq<Label>, n: nat)
    requires Inv(s) && CanRun(Step, s, ls) && n < |s.sentFg|
    requires !Exposed(s, n) || OvertakenBy(s, ls, n) == 0
    requires Run(Step, s, ls).written >= s.enqueued
    ensures n < FgSunk(Run(Step, s, ls))
  {
    var t := Run(Step, s, ls);
    RunInv(s, ls);
    SunkTaken(s);
    SunkTaken(t);
    if n < FgTaken(s) {
      TakenIsSunkFirst(s, ls, n);
    } else {
      RunProgress(s, ls, n);
    }
  }

  // A frame already taken reaches the Writer before anything else is written.
  ghost predicate SunkFirst(s: State, t: State, n: nat) {
    n < FgSunk(t) || (s.drain.Holding? && t.drain.Holding? && t.written == s.written && n < FgTaken(t))
  }

  lemma StepSunkFirst(s: State, t: State, l: Label, n: nat)
    requires Inv(t) && Enabled(t, l) && SunkFirst(s, t, n)
    ensures SunkFirst(s, Apply(t, l), n)
  {
    StepInv(t, l);
    SunkTaken(t);
    SunkTaken(Apply(t, l));
  }

  lemma {:induction false} TakenIsSunkFirst(s: State, ls: seq<Label>, n: nat)
    requires Inv(s) && CanRun(Step, s, ls) && n < FgTaken(s)
    ensures SunkFirst(s, Run(Step, s, ls), n)
  {
    if ls == [] {
      SunkTaken(s);
    } else {
      var front := ls[..|ls|-1];
      TakenIsSunkFirst(s, front, n);
      RunInv(s, front);
      StepSunkFirst(s, Run(Step, s, front), ls[|ls|-1], n);
    }
  }

  // Running the drain by hand.

  // Make room in the Writer's buffer if it is full.
  lemma MakeRoom(s: State) returns (ls: seq<Label>)
    requires Inv(s)
    ensures CanRun(Step, s, ls)
    ensures var t := Run(Step, s, ls); t == s.(wire := t.wire) && |t.log| - t.wire < WRITE_BUFFER
  {
    ls := [];
    if |s.log| - s.wire == WRITE_BUFFER {
      ls := [WireOut];
      RunOne(Step, s, WireOut);
    }
  }

  // From a held frame, one pass through the sink and the bookkeeping region.
  lemma Flush(s: State) returns (ls: seq<Label>)
    requires Inv(s) && s.drain.Holding?
    ensures CanRun(Step, s, ls)
    ensures var t := Run(Step, s, ls);
      Inv(t) && t == s.(drain := First, written := s.written + 1, gen := s.gen + 1,
                        log := s.log + [Update(s.drain.frame)], wire := t.wire)
  {
    var room := MakeRoom(s);
    ls := room + [SinkWrite] + [Book];
    var s1 := Run(Step, s, room);
    assert Enabled(s1, SinkWrite);
    RunSnoc(Step, s, room, SinkWrite);
    var s2 := Apply(s1, SinkWrite);
    assert Run(Step, s, room + [SinkWrite]) == s2;
    RunSnoc(Step, s, room + [SinkWrite], Book);
    assert Run(Step, s, ls) == Apply(s2, Book);
    RunInv(s, ls);
  }

  // From the first select, one foreground frame taken and written.
  lemma WriteFg(s: State) returns (ls: seq<Label>)
    requires Inv(s) && (s.drain.First? || s.drain.Second?) && s.fg != []
    ensures CanRun(Step, s, ls)
    ensures var t := Run(Step, s, ls);
      Inv(t) && t == s.(drain := First, fg := s.fg[1..], written := s.written + 1, gen := s.gen + 1,
                        log := s.log + [Update(s.fg[0])], wire := t.wire)
  {
    RunOne(Step, s, DrainFg);
    RunInv(s, [DrainFg]);
    var more := Flush(Run(Step, s, [DrainFg]));
    RunConcat(Step, s, [DrainFg], more);
    ls := [DrainFg] + more;
  }

  lemma {:induction false} WriteManyFg(s: State, k: nat) returns (ls: seq<Label>)
    requires Inv(s) && s.drain.First? && k <= |s.fg|
    ensures CanRun(Step, s, ls)
    ensures var t := Run(Step, s, ls);
      Inv(t) && t.drain.First? && t.fg == s.fg[k..] && t.sentFg == s.sentFg && t.written == s.written + k
    decreases k
  {
    ls := [];
    if k > 0 {
      var a := WriteFg(s);
      var b := WriteManyFg(Run(Step, s, a), k - 1);
      RunConcat(Step, s, a, b);
      ls := a + b;
    }
  }

  // In an exposed state a background frame that arrives after the snapshot can be written
  // first, and the Barrier's count is reached with the foreground frame still in its lane.
  lemma ExposedCanMiss(s: State, n: nat) returns (ls: seq<Label>)
    requires Inv(s) && Exposed(s, n)
    ensures CanRun(Step, s, ls)
    ensures Run(Step, s, ls).written >= s.enqueued && !(n < FgSunk(Run(Step, s, ls)))
  {
    var late := Frame(Background, 0);
    RunOne(Step, s, Bump(0, late));
    RunSnoc(Step, s, [Bump(0, late)], Send(0));
    RunSnoc(Step, s, [Bump(0, late)] + [Send(0)], DrainBg);
    var a := [Bump(0, late)] + [Send(0)] + [DrainBg];
    RunInv(s, a);
    var b := Flush(Run(Step, s, a));
    RunConcat(Step, s, a, b);
    var c := WriteManyFg(Run(Step, s, a + b), |s.fg| - 1);
    RunConcat(Step, s, a + b, c);
    ls := a + b + c;
    SunkTaken(Run(Step, s, ls));
  }

  /** The Barrier's guarantee for foreground frames, exactly: whatever happens after the
      snapshot, reaching the counted target means the n-th foreground frame has been
      handed to the Writer, unless the state is exposed, and then some run misses it. */
  lemma ForegroundGuaranteeExact(s: State, n: nat)
    requires Inv(s) && n < |s.sentFg|
    ensures (forall ls: seq<Label> :: CanRun(Step, s, ls) && Run(Step, s, ls).written >= s.enqueued ==>
              n < FgSunk(Run(Step, s, ls)))
            <==> !Exposed(s, n)
  {
    if Exposed(s, n) {
      var ls := ExposedCanMiss(s, n);
    } else {
      forall ls: seq<Label> | CanRun(Step, s, ls) && Run(Step, s, ls).written >= s.enqueued
        ensures n < FgSunk(Run(Step, s, ls))
      {
        Covered(s, ls, n);
      }
    }
  }

  // An exposed state is three steps from the start.
  lemma ExposedIsReachable() returns (ls: seq<Label>)
    ensures CanRun(Step, Init(128, 256), ls) && Exposed(Run(Step, Init(128, 256), ls), 0)
  {
    var f := Frame(Foreground, 0);
    RunOne(Step, Init(128, 256), DrainDefault);
    RunSnoc(Step, Init(128, 256), [DrainDefault], Bump(0, f));
    RunSnoc(Step, Init(128, 256), [DrainDefault] + [Bump(0, f)], Send(0));
    ls := [DrainDefault] + [Bump(0, f)] + [Send(0)];
  }

  lemma {:induction false} TargetStays(s: State, b: nat, ls: seq<Label>)
    requires CanRun(Step, s, ls) && b in s.waiters
    ensures var t := Run(Step, s, ls); b in t.waiters && t.waiters[b].target == s.waiters[b].target
  {
    if ls != [] { TargetStays(s, b, ls[..|ls|-1]); }
  }

  // Response b stands at place k of the Writer's order, after the n-th foreground frame.
  ghost predicate AnsweredAfter(t: State, b: nat, k: nat, n: nat, f: Frame) {
    k < |t.log| && t.log[k] == Response(b) &&
    n < |OfLane(Updates(t.log[..k]), Foreground)| && OfLane(Updates(t.log[..k]), Foreground)[n] == f
  }

  lemma AnsweredNow(s: State, b: nat, ls: seq<Label>, n: nat)
    requires Inv(s) && CanRun(Step, s, ls) && n < |s.sentFg|
    requires !Exposed(s, n) || OvertakenBy(s, ls, n) == 0
    requires var t := Run(Step, s, ls); Enabled(t, Respond(b)) && t.written >= s.enqueued
    ensures var t := Run(Step, s, ls); AnsweredAfter(Apply(t, Respond(b)), b, |t.log|, n, s.sentFg[n])
  {
    var t := Run(Step, s, ls);
    Covered(s, ls, n);
    RunInv(s, ls);
    SunkTaken(t);
    SendOrderGrows(s, ls);
    assert Apply(t, Respond(b)).log[..|t.log|] == t.log;
  }

  lemma AnsweredStays(t: State, l: Label, b: nat, k: nat, n: nat, f: Frame)
    requires Enabled(t, l) && AnsweredAfter(t, b, k, n, f)
    ensures AnsweredAfter(Apply(t, l), b, k, n, f)
  {
    assert Apply(t, l).log[..k] == t.log[..k];
  }

  lemma PassedIsCounted(s: State, b: nat, ls: seq<Label>)
    requires Inv(s) && b in s.waiters && s.waiters[b] == Snapped(s.enqueued) && CanRun(Step, s, ls)
    requires var t := Run(Step, s, ls); b in t.waiters && t.waiters[b].Passed?
    ensures Run(Step, s, ls).written >= s.enqueued
  {
    RunInv(s, ls);
    TargetStays(s, b, ls);
  }

  lemma {:induction false} AnsweredInOrder(s: State, b: nat, ls: seq<Label>, n: nat) returns (k: nat)
    requires Inv(s) && b in s.waiters && s.waiters[b] == Snapped(s.enqueued)
    requires n < |s.sentFg| && CanRun(Step, s, ls)
    requires !Exposed(s, n) || OvertakenBy(s, ls, n) == 0
    requires var t := Run(Step, s, ls); b in t.waiters && t.waiters[b].Answered? && t.waiters[b].clean
    ensures AnsweredAfter(Run(Step, s, ls), b, k, n, s.sentFg[n])
  {
    assert ls != [];
    var front, l := ls[..|ls|-1], ls[|ls|-1];
    var t := Run(Step, s, front);
    TargetStays(s, b, front);
    if l == Respond(b) {
      PassedIsCounted(s, b, front);
      AnsweredNow(s, b, front, n);
      k := |t.log|;
    } else {
      k := AnsweredInOrder(s, b, front, n);
      AnsweredStays(t, l, b, k, n, s.sentFg[n]);
    }
  }

  /** Updates before response: a handler that snapshots after a run and is released by the count
      writes its response into the Writer's order after every foreground frame that the run had
      sent, unless that frame was exposed and a background frame overtook it in what followed. */
  lemma UpdatesBeforeResponse(fgCap: nat, bgCap: nat, before: seq<Label>, b: nat, ls: seq<Label>, n: nat)
    returns (k: nat)
    requires fgCap > 0 && bgCap > 0 && CanRun(Step, Init(fgCap, bgCap), before)
    requires Enabled(Run(Step, Init(fgCap, bgCap), before), Snap(b)) && n < |SentIn(before, Foreground)|
    requires CanRun(Step, Apply(Run(Step, Init(fgCap, bgCap), before), Snap(b)), ls)
    requires var s := Run(Step, Init(fgCap, bgCap), before);
      !Exposed(s, n) || OvertakenBy(Apply(s, Snap(b)), ls, n) == 0
    requires var t := Run(Step, Apply(Run(Step, Init(fgCap, bgCap), before), Snap(b)), ls);
      b in t.waiters && t.waiters[b].Answered? && t.waiters[b].clean
    ensures var t := Run(Step, Apply(Run(Step, Init(fgCap, bgCap), before), Snap(b)), ls);
      AnsweredAfter(t, b, k, n, SentIn(before, Foreground)[n])
  {
    var s := Run(Step, Init(fgCap, bgCap), before);
    RunInv(Init(fgCap, bgCap), before);
    SentIsGiven(fgCap, bgCap, before);
    StepInv(s, Snap(b));
    k := AnsweredInOrder(Apply(s, Snap(b)), b, ls, n);
  }

  lemma {:induction false} SendOrderGrows(s: State, ls: seq<Label>)
    requires CanRun(Step, s, ls)
    ensures s.sentFg <= Run(Step, s, ls).sentFg
  {
    if ls != [] { SendOrderGrows(s, ls[..|ls|-1]); }
  }

  // Background frames.

  function BgTaken(s: State): int { |s.sentBg| - |s.bg| }
  function BgSunk(s: State): nat { |OfLane(Updates(s.log), Background)| }

  lemma BgSunkTaken(s: State)
    requires Inv(s)
    ensures BgSunk(s) <= BgTaken(s)
  {
    if s.drain.Holding? {
      OfLaneSnoc(Updates(s.log), s.drain.frame, Background);
    } else {
      assert Received(s) == Updates(s.log);
    }
  }

  // Finish the frame in hand, if any.
  lemma Settle(s: State) returns (ls: seq<Label>)
    requires Inv(s) && !s.drain.Exited?
    ensures CanRun(Step, s, ls)
    ensures var t := Run(Step, s, ls);
      Inv(t) && (t.drain.First? || t.drain.Second?) && t.bg == s.bg && t.sentBg == s.sentBg
  {
    ls := [];
    if s.drain.Holding? {
      ls := Flush(s);
    } else if s.drain.Handed? {
      ls := [Book];
      RunOne(Step, s, Book);
      RunInv(s, [Book]);
    }
  }

  // One more foreground frame written, sending a new one if the lane is empty.
  lemma OvertakeOnce(s: State) returns (ls: seq<Label>)
    requires Inv(s) && (s.drain.First? || s.drain.Second?)
    ensures CanRun(Step, s, ls)
    ensures var t := Run(Step, s, ls);
      Inv(t) && t.drain.First? && t.bg == s.bg && t.sentBg == s.sentBg && t.written == s.written + 1
  {
    ls := [];
    if s.fg == [] {
      var p := UpperBound(s.pending.Keys + s.aborting);
      RunOne(Step, s, Bump(p, Frame(Foreground, 0)));
      RunSnoc(Step, s, [Bump(p, Frame(Foreground, 0))], Send(p));
      ls := [Bump(p, Frame(Foreground, 0))] + [Send(p)];
      RunInv(s, ls);
    }
    var more := WriteFg(Run(Step, s, ls));
    RunConcat(Step, s, ls, more);
    ls := ls + more;
  }

  lemma {:induction false} Overtake(s: State, k: nat) returns (ls: seq<Label>)
    requires Inv(s) && (s.drain.First? || s.drain.Second?)
    ensures CanRun(Step, s, ls)
    ensures var t := Run(Step, s, ls);
      Inv(t) && t.bg == s.bg && t.sentBg == s.sentBg && t.written == s.written + k
    decreases k
  {
    ls := [];
    if k > 0 {
      var a := OvertakeOnce(s);
      var b := Overtake(Run(Step, s, a), k - 1);
      RunConcat(Step, s, a, b);
      ls := a + b;
    }
  }

  lemma {:induction false} ExitedWritesNothing(s: State, ls: seq<Label>)
    requires CanRun(Step, s, ls) && s.drain.Exited?
    ensures Run(Step, s, ls).drain.Exited? && Run(Step, s, ls).written == s.written
  {
    if ls != [] { ExitedWritesNothing(s, ls[..|ls|-1]); }
  }

  /** The Barrier promises nothing for a background frame still in its lane: foreground
      frames sent after the snapshot can make up the count, in every state whose drain is
      alive. */
  lemma BackgroundGuaranteeExact(s: State, n: nat)
    requires Inv(s) && BgTaken(s) <= n < |s.sentBg|
    ensures (forall ls: seq<Label> :: CanRun(Step, s, ls) && Run(Step, s, ls).written >= s.enqueued ==>
              n < BgSunk(Run(Step, s, ls)))
            <==> s.drain.Exited?
  {
    if s.drain.Exited? {
      forall ls: seq<Label> | CanRun(Step, s, ls) ensures Run(Step, s, ls).written < s.enqueued {
        ExitedWritesNothing(s, ls);
      }
    } else {
      var a := Settle(s);
      var t := Run(Step, s, a);
      var b := Overtake(t, if s.enqueued > t.written then s.enqueued - t.written else 0);
      RunConcat(Step, s, a, b);
      BgSunkTaken(Run(Step, t, b));
      assert !(n < BgSunk(Run(Step, s, a + b)));
    }
  }

  // Accounting and wake-ups, in every reachable state.

  lemma Conservation(fgCap: nat, bgCap: nat, ls: seq<Label>)
    requires fgCap > 0 && bgCap > 0 && CanRun(Step, Init(fgCap, bgCap), ls)
    ensures var t := Run(Step, Init(fgCap, bgCap), ls);
      t.enqueued == t.written + InFlight(t) + |t.fg| + |t.bg| + |t.pending| + |t.aborting|
  {
    RunInv(Init(fgCap, bgCap), ls);
  }

  // A parked waiter sits on a closed generation, or on the current one with its target not
  // yet written: whenever its target is reached it can wake, and its next check passes.
  lemma NoLostWakeup(fgCap: nat, bgCap: nat, ls: seq<Label>, b: nat)
    requires fgCap > 0 && bgCap > 0 && CanRun(Step, Init(fgCap, bgCap), ls)
    requires var t := Run(Step, Init(fgCap, bgCap), ls); b in t.waiters && t.waiters[b].Parked?
    ensures var t := Run(Step, Init(fgCap, bgCap), ls);
      (t.waiters[b].gen < t.gen || (t.waiters[b].gen == t.gen && t.written < t.waiters[b].target)) &&
      (t.written >= t.waiters[b].target ==>
        Exec(Step, t, [Wake(b), Check(b)]).Some? &&
        Exec(Step, t, [Wake(b), Check(b)]).value.waiters[b].Passed?)
  {
    RunInv(Init(fgCap, bgCap), ls);
    var t := Run(Step, Init(fgCap, bgCap), ls);
    if t.written >= t.waiters[b].target {
      RunOne(Step, t, Wake(b));
      RunSnoc(Step, t, [Wake(b)], Check(b));
      assert [Wake(b)] + [Check(b)] == [Wake(b), Check(b)];
    }
  }

  // With the emitter running and nothing left to write, no Barrier stays parked.
  lemma NoWaiterStuckWhenQuiet(fgCap: nat, bgCap: nat, ls: seq<Label>, b: nat)
    requires fgCap > 0 && bgCap > 0 && CanRun(Step, Init(fgCap, bgCap), ls)
    requires var t := Run(Step, Init(fgCap, bgCap), ls);
      b in t.waiters && t.waiters[b].Parked? && !t.stopped &&
      t.fg == [] && t.bg == [] && t.pending == map[] && InFlight(t) == 0
    ensures Enabled(Run(Step, Init(fgCap, bgCap), ls), Wake(b))
  {
    RunInv(Init(fgCap, bgCap), ls);
  }
}
