/** What the registry promises over every interleaving: one resolution, one cascade, one
    cancel count and two sends at most, and exactly how far shutdown silences it. */
module RequestOnce {
  import opened Runs
  import opened RequestProtocol

  lemma ReachableInv(ls: seq<Label>)
    requires CanRun(Step, INIT, ls)
    ensures Inv(Run(Step, INIT, ls))
  {
    RunInv(INIT, ls);
  }

  predicate ResponseWon(e: Entry) { e.winner.Some? && e.winner.value.Deliver? }
  predicate CancelWon(e: Entry) { e.winner.Some? && e.winner.value.Cancel? }
  predicate ShutdownWon(e: Entry) { e.winner.Some? && e.winner.value.Shutdown? }

  /** Exactly-once resolution. */
  lemma ExactlyOnce(ls: seq<Label>, id: Id)
    requires CanRun(Step, INIT, ls) && id in Run(Step, INIT, ls).entries
    ensures var e := Run(Step, INIT, ls).entries[id];
      && e.puts <= 1 && e.taken <= 1 && e.dropped == 0
      && e.cascades <= 1 && e.notes <= 1 && e.sends <= 2
      && (ResponseWon(e) ==> e.cascades == 0)
      && (e.notes == 1 ==> CancelWon(e) || ShutdownWon(e) || (ResponseWon(e) && e.winner.value.msg.cancelCode))
  {
    ReachableInv(ls);
    var s := Run(Step, INIT, ls);
    assert Good(s, id) && CallerGood(s, id);
  }

  // The first resolution wins for good.
  lemma {:induction false} WinnerStays(s: State, ls: seq<Label>, id: Id)
    requires Inv(s) && CanRun(Step, s, ls) && id in s.entries && s.entries[id].done
    ensures var t := Run(Step, s, ls);
      id in t.entries && t.entries[id].done && t.entries[id].winner == s.entries[id].winner
  {
    if ls != [] {
      var front := ls[..|ls|-1];
      WinnerStays(s, front, id);
      RunInv(s, front);
      DoneStays(Run(Step, s, front), ls[|ls|-1], id);
    }
  }

  // What a moving agent leaves alone.
  predicate Frame(s: State, t: State, id: Id) {
    && t.closed == s.closed && t.callers == s.callers && t.entries.Keys == s.entries.Keys
    && (id in s.entries && id in t.entries ==>
        t.entries[id].sends == s.entries[id].sends &&
        (s.entries[id].done ==> t.entries[id].done && t.entries[id].winner == s.entries[id].winner))
  }

  lemma FinishFrame(s: State, a: AgentId, id: Id)
    requires a in s.agents && s.agents[a].id in s.entries
    ensures Frame(s, Finish(s, a), id)
  {
  }

  lemma MoveFrame(s: State, l: Label, id: Id)
    requires Enabled(s, l) && Moves(l)
    ensures Frame(s, Apply(s, l), id)
  {
    hide EnabledOther, ApplyOther;
    var ag := s.agents[l.a];
    match l {
      case Swap(a) => FinishFrame(s, a, id);
      case Put(a) => FinishFrame(SetEntry(s, ag.id, PutInto(s.entries[ag.id], ag.kind)), a, id);
      case Note(a) => FinishFrame(SetEntry(s, ag.id, NoteIn(s.entries[ag.id])), a, id);
      case Check(a) => FinishFrame(s, a, id);
      case Emit(a) =>
        FinishFrame(SetEntry(s, ag.id, s.entries[ag.id].(cascades := s.entries[ag.id].cascades + 1)), a, id);
    }
  }

  lemma DoneStays(s: State, l: Label, id: Id)
    requires AgentInv(s) && Enabled(s, l) && id in s.entries && s.entries[id].done
    ensures var t := Apply(s, l); id in t.entries && t.entries[id].done && t.entries[id].winner == s.entries[id].winner
  {
    if Moves(l) { MoveFrame(s, l, id); }
  }

  // Never a cascade after an accepted response, whatever happens later.
  lemma NoCascadeAfterResponse(s: State, ls: seq<Label>, id: Id)
    requires Inv(s) && CanRun(Step, s, ls) && id in s.entries
    requires ResponseWon(s.entries[id])
    ensures var t := Run(Step, s, ls); id in t.entries && t.entries[id].cascades == 0
  {
    assert Good(s, id);
    WinnerStays(s, ls, id);
    RunInv(s, ls);
    assert Good(Run(Step, s, ls), id);
  }

  // The one-slot channel is free whenever a winner sends into it, so the default branch of
  // the non-blocking send is never taken.
  lemma PutFindsRoom(s: State, a: AgentId)
    requires Inv(s) && Enabled(s, Put(a))
    ensures s.entries[s.agents[a].id].buffer.None?
  {
    assert Good(s, s.agents[a].id);
  }

  // Once nobody acts for a resolved entry the books are complete: one resolution went in,
  // and a cancelled one was counted and announced once, unless shutdown kept it quiet.
  lemma BooksComplete(ls: seq<Label>, id: Id)
    requires CanRun(Step, INIT, ls)
    requires var t := Run(Step, INIT, ls); id in t.entries && t.entries[id].done && t.entries[id].actor.None?
    ensures var t := Run(Step, INIT, ls); var e := t.entries[id];
      && e.puts == 1
      && (CancelWon(e) ==> e.notes == 1 && (e.cascades == 1 || t.closed))
      && (ShutdownWon(e) ==> e.notes == 1 && e.cascades == 0)
      && (ResponseWon(e) ==>
          e.notes == if e.winner.value.msg.cancelCode && e.taken == 1 then 1 else 0)
  {
    ReachableInv(ls);
    assert Good(Run(Step, INIT, ls), id);
  }

  // Where a winning response comes from, read from the labels of a run alone.

  ghost predicate WasDelivered(ls: seq<Label>, id: Id, m: Message) {
    exists n :: Lookup(n, id, Deliver(m)) in ls
  }

  ghost predicate FromLabels(s: State, ls: seq<Label>) {
    && (forall a :: a in s.agents && s.agents[a].kind.Deliver? ==> WasDelivered(ls, s.agents[a].id, s.agents[a].kind.msg))
    && (forall i :: i in s.entries && ResponseWon(s.entries[i]) ==> WasDelivered(ls, i, s.entries[i].winner.value.msg))
  }

  // An agent keeps its entry and its kind from the label that made it.
  lemma AgentFrom(s: State, l: Label, a: AgentId)
    requires Enabled(s, l) && a in Apply(s, l).agents
    ensures var g := Apply(s, l).agents[a];
      || (a in s.agents && g.id == s.agents[a].id && g.kind == s.agents[a].kind)
      || (l.Lookup? && g.id == l.id && g.kind == l.kind)
      || !g.kind.Deliver?
  {
    if Moves(l) { AgentMoved(s, l, a); } else { AgentMade(s, l, a); }
  }

  lemma AgentMoved(s: State, l: Label, a: AgentId)
    requires Enabled(s, l) && Moves(l) && a in Apply(s, l).agents
    ensures a in s.agents && Apply(s, l).agents[a].id == s.agents[a].id && Apply(s, l).agents[a].kind == s.agents[a].kind
  {
    hide EnabledOther, ApplyOther;
  }

  lemma AgentMade(s: State, l: Label, a: AgentId)
    requires Enabled(s, l) && !Moves(l) && a in Apply(s, l).agents
    ensures var g := Apply(s, l).agents[a];
      (a in s.agents && g == s.agents[a]) || (l.Lookup? && g.id == l.id && g.kind == l.kind) || !g.kind.Deliver?
  {
    hide EnabledMove, ApplyMove;
  }

  // A winner is the agent that swaps.
  lemma WinnerFrom(s: State, l: Label, i: Id)
    requires Enabled(s, l) && i in Apply(s, l).entries && ResponseWon(Apply(s, l).entries[i])
    ensures
      || (i in s.entries && s.entries[i].winner == Apply(s, l).entries[i].winner)
      || (l.Swap? && l.a in s.agents && s.agents[l.a].id == i && Apply(s, l).entries[i].winner == Some(s.agents[l.a].kind))
  {
    if Moves(l) { WinnerMoved(s, l, i); } else { WinnerQuiet(s, l, i); }
  }

  lemma WinnerMoved(s: State, l: Label, i: Id)
    requires Enabled(s, l) && Moves(l) && i in Apply(s, l).entries
    ensures i in s.entries
    ensures s.entries[i].winner == Apply(s, l).entries[i].winner ||
      (l.Swap? && s.agents[l.a].id == i && Apply(s, l).entries[i].winner == Some(s.agents[l.a].kind))
  {
    hide EnabledOther, ApplyOther;
  }

  lemma WinnerQuiet(s: State, l: Label, i: Id)
    requires Enabled(s, l) && !Moves(l) && i in Apply(s, l).entries
    ensures if i in s.entries then s.entries[i].winner == Apply(s, l).entries[i].winner
            else Apply(s, l).entries[i].winner.None?
  {
    hide EnabledMove, ApplyMove;
  }

  lemma DeliveredMore(ls: seq<Label>, l: Label, id: Id, m: Message)
    requires WasDelivered(ls, id, m) || (l.Lookup? && l.id == id && l.kind == Deliver(m))
    ensures WasDelivered(ls + [l], id, m)
  {
    if WasDelivered(ls, id, m) {
      var n :| Lookup(n, id, Deliver(m)) in ls;
      assert Lookup(n, id, Deliver(m)) in ls + [l];
    } else {
      assert Lookup(l.n, id, Deliver(m)) in ls + [l];
    }
  }

  lemma FromStep(s: State, ls: seq<Label>, l: Label)
    requires FromLabels(s, ls) && Enabled(s, l)
    ensures FromLabels(Apply(s, l), ls + [l])
  {
    hide WasDelivered, Enabled, Apply;
    var t := Apply(s, l);
    forall a | a in t.agents && t.agents[a].kind.Deliver? ensures WasDelivered(ls + [l], t.agents[a].id, t.agents[a].kind.msg) {
      AgentFrom(s, l, a);
      DeliveredMore(ls, l, t.agents[a].id, t.agents[a].kind.msg);
    }
    forall i | i in t.entries && ResponseWon(t.entries[i]) ensures WasDelivered(ls + [l], i, t.entries[i].winner.value.msg) {
      WinnerFrom(s, l, i);
      DeliveredMore(ls, l, i, t.entries[i].winner.value.msg);
    }
  }

  lemma {:induction false} RunFromLabels(ls: seq<Label>)
    requires CanRun(Step, INIT, ls)
    ensures FromLabels(Run(Step, INIT, ls), ls)
  {
    hide WasDelivered, Apply;
    if ls != [] {
      RunFromLabels(ls[..|ls|-1]);
      FromStep(Run(Step, INIT, ls[..|ls|-1]), ls[..|ls|-1], ls[|ls|-1]);
      assert ls == ls[..|ls|-1] + [ls[|ls|-1]];
    }
  }

  predicate Left(c: Caller) { c.Leaving? || c.Returned? }

  /** In every run a caller that took its entry's resolution leaves with the response that won, or
      as cancelled if that was none or carried the cancel code; it leaves with a response in no
      other way, and then with one that a goroutine delivered for this id; it falls back only after two
      sends without taking anything. */
  lemma ReturnsTheWinner(ls: seq<Label>, id: Id)
    requires CanRun(Step, INIT, ls)
    requires var t := Run(Step, INIT, ls); id in t.callers && Left(t.callers[id])
    ensures var t := Run(Step, INIT, ls);
      id in t.entries &&
      var e, o := t.entries[id], t.callers[id].outcome;
      && (e.taken == 1 ==>
           e.winner.Some? &&
           match e.winner.value
           case Deliver(m) => if m.cancelCode then o == Cancelled else o == Response(m)
           case _ => o == Cancelled)
      && (forall m :: o == Response(m) ==>
           e.taken == 1 && e.winner == Some(Deliver(m)) && !m.cancelCode && WasDelivered(ls, id, m))
      && (o == Fallback ==> e.taken == 0 && e.sends == 2)
  {
    ReachableInv(ls);
    RunFromLabels(ls);
    assert CallerGood(Run(Step, INIT, ls), id);
  }

  // A response that won and was not taken before the caller left waits in the entry's channel.
  lemma WinnerIsTakenOrKept(ls: seq<Label>, id: Id, m: Message)
    requires CanRun(Step, INIT, ls)
    requires var t := Run(Step, INIT, ls);
      id in t.entries && t.entries[id].winner == Some(Deliver(m)) && t.entries[id].actor.None?
    ensures var e := Run(Step, INIT, ls).entries[id]; e.taken == 1 <==> e.buffer != Some(Answer(m))
  {
    ReachableInv(ls);
    assert Good(Run(Step, INIT, ls), id);
  }

  // Shutdown. A send checks for it before it writes, in two steps, so a caller already past
  // the check can still write; that is the only way.

  predicate CanStillWrite(s: State, id: Id) { id in s.callers && s.callers[id].Cleared? }

  lemma {:induction false} ShutKeepsQuiet(s: State, ls: seq<Label>, id: Id)
    requires Inv(s) && s.closed && CanRun(Step, s, ls) && !CanStillWrite(s, id)
    ensures var t := Run(Step, s, ls);
      t.closed && !CanStillWrite(t, id) && t.entries.Keys == s.entries.Keys &&
      (id in s.entries ==> t.entries[id].sends == s.entries[id].sends)
  {
    if ls != [] {
      ShutKeepsQuiet(s, ls[..|ls|-1], id);
      RunInv(s, ls[..|ls|-1]);
      QuietStep(Run(Step, s, ls[..|ls|-1]), ls[|ls|-1], id);
    }
  }

  lemma QuietStep(s: State, l: Label, id: Id)
    requires AgentInv(s) && s.closed && Enabled(s, l) && !CanStillWrite(s, id)
    ensures var t := Apply(s, l);
      t.closed && !CanStillWrite(t, id) && t.entries.Keys == s.entries.Keys &&
      (id in s.entries ==> t.entries[id].sends == s.entries[id].sends)
  {
    if Moves(l) { MoveFrame(s, l, id); }
  }

  /** After shutdown an entry's frame can be written again exactly when its caller had
      already passed the check. */
  lemma LateWriteExactly(s: State, id: Id)
    requires Inv(s) && s.closed && id in s.entries
    ensures (exists ls: seq<Label> :: CanRun(Step, s, ls) && id in Run(Step, s, ls).entries &&
                Run(Step, s, ls).entries[id].sends > s.entries[id].sends)
            <==> CanStillWrite(s, id)
  {
    if CanStillWrite(s, id) {
      RunOne(Step, s, WriteFrame(id, true));
      assert CanRun(Step, s, [WriteFrame(id, true)]);
      assert Run(Step, s, [WriteFrame(id, true)]).entries[id].sends > s.entries[id].sends;
    } else {
      forall ls: seq<Label> | CanRun(Step, s, ls) && id in Run(Step, s, ls).entries
        ensures Run(Step, s, ls).entries[id].sends == s.entries[id].sends
      {
        ShutKeepsQuiet(s, ls, id);
      }
    }
  }

  // The cascade has the same window: it too checks, then emits.

  predicate CanStillCascade(s: State, id: Id) {
    id in s.entries && s.entries[id].actor.Some? && s.entries[id].actor.value in s.agents &&
    s.agents[s.entries[id].actor.value].at.AtEmit?
  }

  predicate MuteAfter(s: State, t: State, id: Id) {
    t.closed && id in s.entries && id in t.entries && !CanStillCascade(t, id) &&
    t.entries[id].cascades == s.entries[id].cascades
  }

  lemma MuteStep(s: State, l: Label, id: Id)
    requires AgentInv(s) && s.closed && Enabled(s, l) && id in s.entries && !CanStillCascade(s, id)
    ensures MuteAfter(s, Apply(s, l), id)
  {
    if !Moves(l) {
      MuteQuiet(s, l, id);
    } else if MovesOn(s, l, id) {
      MuteMove(s, l, id);
    } else {
      OtherEntry(s, l, id);
      assert Stage(s, s.entries[id]) != 1;
    }
  }

  lemma MuteQuiet(s: State, l: Label, id: Id)
    requires AgentInv(s) && s.closed && Enabled(s, l) && id in s.entries && !CanStillCascade(s, id) && !Moves(l)
    ensures MuteAfter(s, Apply(s, l), id)
  {
    StageStays(s, l, id);
    hide AgentInv, EnabledMove, ApplyMove;
  }

  lemma MuteMove(s: State, l: Label, id: Id)
    requires AgentInv(s) && s.closed && Enabled(s, l) && id in s.entries && !CanStillCascade(s, id) && MovesOn(s, l, id)
    ensures MuteAfter(s, Apply(s, l), id)
  {
    hide EnabledOther, ApplyOther;
  }

  lemma {:induction false} ShutKeepsMute(s: State, ls: seq<Label>, id: Id)
    requires Inv(s) && s.closed && CanRun(Step, s, ls) && id in s.entries && !CanStillCascade(s, id)
    ensures var t := Run(Step, s, ls);
      t.closed && id in t.entries && !CanStillCascade(t, id) && t.entries[id].cascades == s.entries[id].cascades
  {
    if ls != [] {
      ShutKeepsMute(s, ls[..|ls|-1], id);
      RunInv(s, ls[..|ls|-1]);
      MuteStep(Run(Step, s, ls[..|ls|-1]), ls[|ls|-1], id);
    }
  }

  lemma LateCascadeExactly(s: State, id: Id)
    requires Inv(s) && s.closed && id in s.entries
    ensures (exists ls: seq<Label> :: CanRun(Step, s, ls) && id in Run(Step, s, ls).entries &&
                Run(Step, s, ls).entries[id].cascades > s.entries[id].cascades)
            <==> CanStillCascade(s, id)
  {
    if CanStillCascade(s, id) {
      var a := s.entries[id].actor.value;
      RunOne(Step, s, Emit(a));
      assert CanRun(Step, s, [Emit(a)]);
      assert Run(Step, s, [Emit(a)]).entries[id].cascades > s.entries[id].cascades;
    } else {
      forall ls: seq<Label> | CanRun(Step, s, ls) && id in Run(Step, s, ls).entries
        ensures Run(Step, s, ls).entries[id].cascades == s.entries[id].cascades
      {
        ShutKeepsMute(s, ls, id);
      }
    }
  }

  // The window is real: a write after Stop has drained the map.
  lemma WriteAfterStop() returns (ls: seq<Label>)
    ensures CanRun(Step, INIT, ls)
    ensures var t := Run(Step, INIT, ls); t.closed && CanStillWrite(t, 0) && 0 in t.entries
  {
    RunOne(Step, INIT, Register(0));
    RunSnoc(Step, INIT, [Register(0)], CheckClosed(0));
    RunSnoc(Step, INIT, [Register(0)] + [CheckClosed(0)], Stop);
    ls := [Register(0)] + [CheckClosed(0)] + [Stop];
  }

  // So is the cascade's: caller 0's context dies, its agent wins, and shutdown falls between
  // its check and its emit.
  lemma CascadeAfterStop() returns (ls: seq<Label>)
    ensures CanRun(Step, INIT, ls)
    ensures var t := Run(Step, INIT, ls); t.closed && CanStillCascade(t, 0)
  {
    ls := DyingCaller();
    var s := Run(Step, INIT, ls);
    var more := CancelToEmit(s, 0);
    var t := Run(Step, s, more);
    hide Enabled, Apply;
    RunConcat(Step, INIT, ls, more);
    ls := ls + more;
    StopBeforeEmit(t, 0);
    RunSnoc(Step, INIT, ls, Stop);
    ls := ls + [Stop];
  }

  lemma DyingCaller() returns (ls: seq<Label>)
    ensures CanRun(Step, INIT, ls)
    ensures Run(Step, INIT, ls) ==
      State(false, {0}, map[0 := Fresh().(sends := 1)], map[0 := Cancelling], map[Own(0) := Agent(0, Cancel, AtSwap)])
  {
    RunOne(Step, INIT, Register(0));
    RunSnoc(Step, INIT, [Register(0)], CheckClosed(0));
    RunSnoc(Step, INIT, [Register(0)] + [CheckClosed(0)], WriteFrame(0, true));
    ls := [Register(0)] + [CheckClosed(0)] + [WriteFrame(0, true)];
    RunSnoc(Step, INIT, ls, CtxDies(0));
    ls := ls + [CtxDies(0)];
  }

  // An agent about to swap for an open, unresolved entry is taken to its emit.
  lemma CancelToEmit(s: State, id: Id) returns (ls: seq<Label>)
    requires Own(id) in s.agents && s.agents[Own(id)] == Agent(id, Cancel, AtSwap)
    requires id in s.entries && !s.entries[id].done && s.entries[id].buffer.None? && !s.closed
    ensures CanRun(Step, s, ls)
    ensures var t := Run(Step, s, ls); CanStillCascade(t, id) && t.entries[id].actor == Some(Own(id)) && !t.closed
  {
    hide EnabledOther, ApplyOther;
    var a := Own(id);
    RunOne(Step, s, Swap(a));
    var s1 := Apply(s, Swap(a));
    RunSnoc(Step, s, [Swap(a)], Put(a));
    var s2 := Apply(s1, Put(a));
    RunSnoc(Step, s, [Swap(a)] + [Put(a)], Note(a));
    var s3 := Apply(s2, Note(a));
    RunSnoc(Step, s, [Swap(a)] + [Put(a)] + [Note(a)], Check(a));
    ls := [Swap(a)] + [Put(a)] + [Note(a)] + [Check(a)];
    assert Run(Step, s, ls) == Apply(s3, Check(a));
  }

  lemma StopBeforeEmit(s: State, id: Id)
    requires CanStillCascade(s, id) && s.entries[id].actor == Some(Own(id)) && !s.closed
    ensures Enabled(s, Stop)
    ensures var t := Apply(s, Stop); t.closed && CanStillCascade(t, id)
  {
  }
}
