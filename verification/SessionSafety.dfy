/** What the session lifecycle promises over every interleaving. */
module SessionSafety {
  import opened Runs
  import opened Sets
  import opened SessionProtocol

  // The turns counted in a state's WaitGroup.
  function TurnsOn(prompts: map<nat, Prompt>, r: Ref): set<nat> {
    set p | p in prompts && prompts[p].st == r && Counted(prompts[p])
  }

  function One(b: bool): int { if b then 1 else 0 }

  lemma TurnsPut(prompts: map<nat, Prompt>, p: nat, q: Prompt, r: Ref)
    ensures |TurnsOn(prompts[p := q], r)| ==
      |TurnsOn(prompts, r)| + One(q.st == r && Counted(q)) - One(p in TurnsOn(prompts, r))
  {
    assert TurnsOn(prompts[p := q], r) ==
      if q.st == r && Counted(q) then TurnsOn(prompts, r) + {p} else TurnsOn(prompts, r) - {p};
  }

  lemma TurnsDrop(prompts: map<nat, Prompt>, p: nat, r: Ref)
    ensures |TurnsOn(prompts - {p}, r)| == |TurnsOn(prompts, r)| - One(p in TurnsOn(prompts, r))
  {
    assert TurnsOn(prompts - {p}, r) == TurnsOn(prompts, r) - {p};
  }

  predicate TurnsOk(s: State, r: Ref) {
    r in s.states ==> s.states[r].turns == |TurnsOn(s.prompts, r)|
  }

  // A close whose drain returned in time finds only turns added since.
  ghost predicate LateOk(s: State, c: nat) {
    c in s.closes && (s.closes[c].at.Drained? || s.closes[c].at.Reaped?) ==>
      s.closes[c].at.since <= s.clock &&
      (!s.closes[c].at.timedOut ==>
        forall p :: p in TurnsOn(s.prompts, s.closes[c].at.st) ==> s.prompts[p].addedAt >= s.closes[c].at.since)
  }

  ghost predicate Inv(s: State) {
    BaseInv(s) && (forall r :: TurnsOk(s, r)) && (forall c :: LateOk(s, c))
  }

  lemma TurnsByPrompt(s: State, l: Label, r: Ref)
    requires PromptInv(s) && TurnsOk(s, r) && Enabled(s, l) && OfPrompt(l)
    ensures TurnsOk(Apply(s, l), r)
  {
    if l.PromptAdd? || l.PromptRefuse? || l.TurnEnd? { TurnsByCount(s, l, r); } else { TurnsByMove(s, l, r); }
  }

  // The turn count and the counted prompt change together.
  lemma TurnsByCount(s: State, l: Label, r: Ref)
    requires TurnsOk(s, r) && Enabled(s, l) && (l.PromptAdd? || l.PromptRefuse? || l.TurnEnd?)
    ensures TurnsOk(Apply(s, l), r)
  {
    hide EnabledLoad, EnabledClose, ApplyLoad, ApplyClose;
    if l.PromptAdd? {
      TurnsPut(s.prompts, l.p, s.prompts[l.p].(at := Added, addedAt := s.clock), r);
    } else {
      TurnsDrop(s.prompts, l.p, r);
    }
  }

  // The prompt moves while it is counted, or while it is not.
  lemma TurnsByMove(s: State, l: Label, r: Ref)
    requires TurnsOk(s, r) && Enabled(s, l) && (l.PromptLookup? || l.PromptGate? || l.PromptConfirm?)
    ensures TurnsOk(Apply(s, l), r)
  {
    hide EnabledLoad, EnabledClose, ApplyLoad, ApplyClose;
    match l {
      case PromptLookup(p, id) =>
        if id in s.sessions { TurnsPut(s.prompts, p, Prompt(id, s.sessions[id], Found, 0), r); }
      case PromptGate(p) =>
        TurnsPut(s.prompts, p, s.prompts[p].(at := Gated), r);
        TurnsDrop(s.prompts, p, r);
      case PromptConfirm(p) =>
        TurnsPut(s.prompts, p, s.prompts[p].(at := Running), r);
        TurnsPut(s.prompts, p, s.prompts[p].(at := Refusing), r);
    }
  }

  lemma TurnsByOther(s: State, l: Label, r: Ref)
    requires PromptInv(s) && TurnsOk(s, r) && Enabled(s, l) && !OfPrompt(l)
    ensures TurnsOk(Apply(s, l), r)
  {
    if r in Apply(s, l).states && r !in s.states {
      assert TurnsOn(s.prompts, r) == {} by {
        forall p | p in s.prompts ensures s.prompts[p].st != r { assert PromptOk(s, p); }
      }
    }
  }

  lemma LateByPrompt(s: State, l: Label, c: nat)
    requires LateOk(s, c) && Enabled(s, l) && OfPrompt(l)
    ensures LateOk(Apply(s, l), c)
  {
    hide EnabledLoad, EnabledClose, ApplyLoad, ApplyClose;
    var t := Apply(s, l);
    if c in s.closes && (s.closes[c].at.Drained? || s.closes[c].at.Reaped?) && !s.closes[c].at.timedOut {
      var st := s.closes[c].at.st;
      forall p | p in TurnsOn(t.prompts, st) ensures t.prompts[p].addedAt >= s.closes[c].at.since {
        if !(l == PromptAdd(p)) { assert p in TurnsOn(s.prompts, st); }
      }
    }
  }

  lemma LateByOther(s: State, l: Label, c: nat)
    requires LateOk(s, c) && Enabled(s, l) && !OfPrompt(l)
    requires l.DrainReturn? ==> CloseOk(s, l.c) && TurnsOk(s, s.closes[l.c].at.st)
    ensures LateOk(Apply(s, l), c)
  {
    if OfLoad(l) {
      LateByLoad(s, l, c);
    } else if l == DrainReturn(c) {
      assert TurnsOn(s.prompts, s.closes[c].at.st) == {};
    }
  }

  lemma LateByLoad(s: State, l: Label, c: nat)
    requires LateOk(s, c) && Enabled(s, l) && OfLoad(l)
    ensures LateOk(Apply(s, l), c)
  {
    LoadFrames(s, l);
    hide EnabledLoad, EnabledPrompt, EnabledClose, ApplyLoad, ApplyPrompt, ApplyClose;
  }

  lemma StepInv(s: State, l: Label)
    requires Inv(s) && Enabled(s, l)
    ensures Inv(Apply(s, l))
  {
    StepBase(s, l);
    forall r ensures TurnsOk(Apply(s, l), r) {
      assert TurnsOk(s, r);
      if OfPrompt(l) { TurnsByPrompt(s, l, r); } else { TurnsByOther(s, l, r); }
    }
    forall c ensures LateOk(Apply(s, l), c) {
      assert LateOk(s, c);
      if OfPrompt(l) {
        LateByPrompt(s, l, c);
      } else {
        if l.DrainReturn? { assert CloseOk(s, l.c) && TurnsOk(s, s.closes[l.c].at.st); }
        LateByOther(s, l, c);
      }
    }
  }

  lemma RunInv(s: State, ls: seq<Label>)
    requires Inv(s) && CanRun(Step, s, ls)
    ensures Inv(Run(Step, s, ls))
  {
    forall t, l | Inv(t) && Step(t, l).Some? ensures Inv(Step(t, l).value) { StepInv(t, l); }
    RunKeeps(Step, Inv, s, ls);
  }

  lemma InitInv()
    ensures Inv(INIT)
  {
  }

  // Loads and the prompt gate.

  /** Load exclusion: no two loads of one id are between registration and exit together. */
  lemma LoadExclusion(ls: seq<Label>, n: nat, m: nat)
    requires CanRun(Step, INIT, ls)
    requires var t := Run(Step, INIT, ls);
      n in t.loads && m in t.loads && Guarded(t.loads[n].at) && Guarded(t.loads[m].at) &&
      t.loads[n].id == t.loads[m].id
    ensures n == m
  {
    RunInv(INIT, ls);
    var t := Run(Step, INIT, ls);
    assert LoadOk(t, n) && LoadOk(t, m);
  }

  // An id being replayed is not in the live map before its own insert.
  lemma ReplayedIsNotLive(ls: seq<Label>, n: nat)
    requires CanRun(Step, INIT, ls)
    requires var t := Run(Step, INIT, ls); n in t.loads && BeforeInsert(t.loads[n].at)
    ensures var t := Run(Step, INIT, ls); t.loads[n].id !in t.sessions
  {
    RunInv(INIT, ls);
    assert LoadOk(Run(Step, INIT, ls), n);
  }

  /** Prompt gate: a prompt past the gate is on a state that session/new made or whose load
      had returned from Barrier, and that state was in the live map under the prompt's id. */
  lemma GateAfterBarrier(ls: seq<Label>, p: nat)
    requires CanRun(Step, INIT, ls)
    requires var t := Run(Step, INIT, ls); p in t.prompts && !t.prompts[p].at.Found?
    ensures var t := Run(Step, INIT, ls);
      t.prompts[p].st in t.states &&
      var st := t.states[t.prompts[p].st];
      st.inserted && st.id == t.prompts[p].id && (st.born || st.flushed)
  {
    RunInv(INIT, ls);
    var t := Run(Step, INIT, ls);
    assert PromptOk(t, p) && ReadyOk(t, t.prompts[p].st);
  }

  // Close and turns.

  // A drain returns only when no turn is counted on the state, so every turn whose Add came
  // before it is over.
  lemma DrainWaitsForAll(s: State, c: nat)
    requires Inv(s) && Enabled(s, DrainReturn(c))
    ensures TurnsOn(s.prompts, s.closes[c].at.st) == {}
  {
    assert TurnsOk(s, s.closes[c].at.st);
  }

  /** Close and turns linearise: from the drain's return to the map removal, the turns alive
      on the closed state are exactly those added since, unless the drain timed out. */
  lemma OnlyLateTurnsSurvive(ls: seq<Label>, c: nat)
    requires CanRun(Step, INIT, ls)
    requires var t := Run(Step, INIT, ls);
      c in t.closes && (t.closes[c].at.Drained? || t.closes[c].at.Reaped?) && !t.closes[c].at.timedOut
    ensures var t := Run(Step, INIT, ls); var st := t.closes[c].at.st;
      forall p :: p in t.prompts && t.prompts[p].st == st && Counted(t.prompts[p]) ==>
        t.prompts[p].addedAt >= t.closes[c].at.since
  {
    RunInv(INIT, ls);
    var t := Run(Step, INIT, ls);
    assert LateOk(t, c);
    forall p | p in t.prompts && t.prompts[p].st == t.closes[c].at.st && Counted(t.prompts[p])
      ensures p in TurnsOn(t.prompts, t.closes[c].at.st)
    {}
  }

  predicate InMap(s: State, r: Ref) {
    r in s.states && s.states[r].id in s.sessions && s.sessions[s.states[r].id] == r
  }

  predicate GoneFromMap(s: State, r: Ref) { r in s.states && s.states[r].inserted && !InMap(s, r) }

  lemma GoneByLoad(s: State, l: Label, r: Ref)
    requires GoneFromMap(s, r) && OfLoad(l) && LoadOk(s, l.n) && Enabled(s, l)
    ensures GoneFromMap(Apply(s, l), r) && Apply(s, l).prompts == s.prompts
  {
    LoadFrames(s, l);
    hide EnabledLoad, EnabledPrompt, EnabledClose, ApplyLoad, ApplyPrompt, ApplyClose;
  }

  lemma GoneByOther(s: State, l: Label, r: Ref)
    requires GoneFromMap(s, r) && !OfLoad(l) && Enabled(s, l)
    ensures GoneFromMap(Apply(s, l), r)
  {
  }

  predicate RunningOn(s: State, p: nat, r: Ref) {
    p in s.prompts && s.prompts[p].st == r && s.prompts[p].at.Running?
  }

  lemma GoneAdmitsNone(s: State, l: Label, r: Ref, p: nat)
    requires GoneFromMap(s, r) && PromptOk(s, p) && Enabled(s, l) && OfPrompt(l)
    ensures RunningOn(Apply(s, l), p, r) ==> RunningOn(s, p, r)
  {
    hide EnabledLoad, EnabledClose, ApplyLoad, ApplyClose;
  }

  lemma OnlyPromptsAdmit(s: State, l: Label)
    requires Enabled(s, l) && !OfPrompt(l) && !OfLoad(l)
    ensures Apply(s, l).prompts == s.prompts
  {
    hide EnabledLoad, EnabledPrompt, ApplyLoad, ApplyPrompt;
  }

  /** A state that has left the live map never returns, and no turn is admitted on it again:
      whoever runs on it later was already running. */
  lemma {:induction false} RemovedAdmitsNone(s: State, ls: seq<Label>, r: Ref, p: nat)
    requires Inv(s) && GoneFromMap(s, r) && CanRun(Step, s, ls)
    ensures GoneFromMap(Run(Step, s, ls), r)
    ensures RunningOn(Run(Step, s, ls), p, r) ==> RunningOn(s, p, r)
  {
    if ls != [] {
      var front, l := ls[..|ls|-1], ls[|ls|-1];
      RemovedAdmitsNone(s, front, r, p);
      RunInv(s, front);
      var t := Run(Step, s, front);
      if OfLoad(l) {
        assert LoadOk(t, l.n);
        GoneByLoad(t, l, r);
      } else {
        GoneByOther(t, l, r);
        if OfPrompt(l) { assert PromptOk(t, p); GoneAdmitsNone(t, l, r, p); } else { OnlyPromptsAdmit(t, l); }
      }
    }
  }

  // Deletion.

  lemma TombStep(s: State, l: Label, id: Id)
    requires s.tombs <= s.used && Enabled(s, l) && id in s.tombs && id !in s.sessions
    ensures id in Apply(s, l).tombs && id !in Apply(s, l).sessions
  {
    if OfLoad(l) { TombByLoad(s, l, id); }
  }

  lemma TombByLoad(s: State, l: Label, id: Id)
    requires OfLoad(l) && Enabled(s, l) && id in s.tombs && id !in s.sessions
    ensures id in Apply(s, l).tombs && id !in Apply(s, l).sessions
  {
    LoadFrames(s, l);
    hide EnabledLoad, EnabledPrompt, EnabledClose, ApplyLoad, ApplyPrompt, ApplyClose;
  }

  lemma {:induction false} TombKeepsOut(s: State, ls: seq<Label>, id: Id)
    requires Inv(s) && CanRun(Step, s, ls) && id in s.tombs && id !in s.sessions
    ensures var t := Run(Step, s, ls); id in t.tombs && id !in t.sessions
  {
    if ls != [] {
      TombKeepsOut(s, ls[..|ls|-1], id);
      RunInv(s, ls[..|ls|-1]);
      TombStep(Run(Step, s, ls[..|ls|-1]), ls[|ls|-1], id);
    }
  }

  /** Deleted stays deleted: once a session/delete whose tombstone write succeeded returns,
      its id is never in the live map again. */
  lemma DeletedStaysDeleted(ls: seq<Label>, c: nat, more: seq<Label>)
    requires CanRun(Step, INIT, ls)
    requires var t := Run(Step, INIT, ls); c in t.closes && t.closes[c].at.Closed? && t.closes[c].tombed
    requires CanRun(Step, Run(Step, INIT, ls), more)
    ensures Run(Step, INIT, ls).closes[c].id !in Run(Step, Run(Step, INIT, ls), more).sessions
  {
    RunInv(INIT, ls);
    var t := Run(Step, INIT, ls);
    assert CloseOk(t, c);
    TombKeepsOut(t, more, t.closes[c].id);
  }

  predicate StandsAtDoor(s: State, n: nat, id: Id) {
    id in s.tombs && (n in s.loads ==> s.loads[n].id == id && s.loads[n].at.Arrived?)
  }

  lemma DoorStep(s: State, l: Label, n: nat, id: Id)
    requires StandsAtDoor(s, n, id) && Enabled(s, l) && !(l.LoadArrive? && l.n == n)
    ensures StandsAtDoor(Apply(s, l), n, id)
  {
    if OfLoad(l) { DoorByLoad(s, l, n, id); } else { DoorByOther(s, l, n, id); }
  }

  lemma DoorByLoad(s: State, l: Label, n: nat, id: Id)
    requires StandsAtDoor(s, n, id) && Enabled(s, l) && !(l.LoadArrive? && l.n == n) && OfLoad(l)
    ensures StandsAtDoor(Apply(s, l), n, id)
  {
    hide EnabledPrompt, EnabledClose, ApplyPrompt, ApplyClose;
  }

  lemma DoorByOther(s: State, l: Label, n: nat, id: Id)
    requires StandsAtDoor(s, n, id) && Enabled(s, l) && !OfLoad(l)
    ensures StandsAtDoor(Apply(s, l), n, id)
  {
    hide EnabledLoad, ApplyLoad;
  }

  /** A load that arrives for a tombstoned id goes no further, whatever runs: it is turned away
      before it replays anything. */
  lemma {:induction false} TombedLoadIsTurnedAway(s: State, ls: seq<Label>, n: nat, id: Id)
    requires id in s.tombs && n in s.loads && s.loads[n] == Load(id, Arrived)
    requires CanRun(Step, s, ls) && forall l :: l in ls ==> !(l.LoadArrive? && l.n == n)
    ensures var t := Run(Step, s, ls); n in t.loads ==> t.loads[n] == Load(id, Arrived)
    ensures StandsAtDoor(Run(Step, s, ls), n, id)
  {
    if ls != [] {
      var front, l := ls[..|ls|-1], ls[|ls|-1];
      assert l in ls && forall m :: m in front ==> m in ls;
      TombedLoadIsTurnedAway(s, front, n, id);
      DoorStep(Run(Step, s, front), l, n, id);
    }
  }

  // A load already past its guard can be taken to its end, or goes live on the way with a
  // state that was in the map at no time before.
  lemma FinishLoad(s: State, id: Id) returns (ls: seq<Label>)
    requires MarkOk(s, id) && id !in s.tombs && id in s.loading && LoadOk(s, s.loading[id])
    ensures CanRun(Step, s, ls)
    ensures var t := Run(Step, s, ls);
      t.closes == s.closes && s.states.Keys <= t.states.Keys &&
      (t.sessions == s.sessions || (id in t.sessions && t.sessions[id] in s.states && !s.states[t.sessions[id]].inserted)) &&
      (id in t.sessions || (id !in t.loading && t.tombs == s.tombs))
  {
    var n := s.loading[id];
    match s.loads[n].at {
      case Replaying(_) =>
        RunOne(Step, s, LoadFail(n));
        RunSnoc(Step, s, [LoadFail(n)], LoadEnd(n));
        ls := [LoadFail(n)] + [LoadEnd(n)];
      case Flushed(_) =>
        RunOne(Step, s, LoadInsert(n));
        ls := [LoadInsert(n)];
      case Inserted(_) =>
        RunOne(Step, s, LoadReady(n));
        RunSnoc(Step, s, [LoadReady(n)], LoadEnd(n));
        ls := [LoadReady(n)] + [LoadEnd(n)];
      case Exiting =>
        RunOne(Step, s, LoadEnd(n));
        ls := [LoadEnd(n)];
    }
  }

  // A fresh load of an id nobody holds goes live.
  lemma LoadFresh(s: State, id: Id) returns (ls: seq<Label>)
    requires id !in s.tombs && id !in s.loading && id !in s.sessions
    ensures CanRun(Step, s, ls)
    ensures var t := Run(Step, s, ls);
      id in t.sessions && InMap(t, t.sessions[id]) && t.states[t.sessions[id]].id == id &&
      t.sessions[id] !in s.states &&
      t.closes == s.closes && t.clock == s.clock && forall r :: r in s.states ==> r in t.states && t.states[r] == s.states[r]
  {
    var n := UpperBound(s.loads.Keys);
    var st := UpperBound(s.states.Keys);
    ls := [LoadArrive(n, id)];
    RunOne(Step, s, LoadArrive(n, id));
    var s1 := Apply(s, LoadArrive(n, id));
    RunSnoc(Step, s, ls, LoadStat(n));
    ls := ls + [LoadStat(n)];
    var s2 := Apply(s1, LoadStat(n));
    RunSnoc(Step, s, ls, LoadGuard(n, st));
    ls := ls + [LoadGuard(n, st)];
    var s3 := Apply(s2, LoadGuard(n, st));
    assert s3.loads[n] == Load(id, Replaying(st));
    var more := ReplayAndInsert(s3, n, st);
    RunConcat(Step, s, ls, more);
    ls := ls + more;
  }

  lemma ReplayAndInsert(s: State, n: nat, st: Ref) returns (ls: seq<Label>)
    requires n in s.loads && s.loads[n].at == Replaying(st) && s.loads[n].id !in s.tombs
    requires st in s.states && s.states[st].id == s.loads[n].id
    ensures CanRun(Step, s, ls)
    ensures var t := Run(Step, s, ls);
      t.sessions == s.sessions[s.loads[n].id := st] && t.closes == s.closes && t.clock == s.clock &&
      t.states.Keys == s.states.Keys && t.states[st].id == s.states[st].id &&
      forall r :: r in s.states && r != st ==> t.states[r] == s.states[r]
  {
    ls := [LoadFlush(n)];
    RunOne(Step, s, LoadFlush(n));
    var s1 := Apply(s, LoadFlush(n));
    RunSnoc(Step, s, ls, LoadInsert(n));
    ls := ls + [LoadInsert(n)];
    assert Run(Step, s, ls) == Apply(s1, LoadInsert(n));
  }

  /** The tombstone is what deletion rests on, exactly: an id out of the live map stays out
      on every run if and only if its tombstone was written. */
  lemma OutForeverExactly(s: State, id: Id)
    requires Inv(s) && id !in s.sessions
    ensures (forall ls: seq<Label> :: CanRun(Step, s, ls) ==> id !in Run(Step, s, ls).sessions) <==> id in s.tombs
  {
    if id in s.tombs {
      forall ls: seq<Label> | CanRun(Step, s, ls) ensures id !in Run(Step, s, ls).sessions {
        TombKeepsOut(s, ls, id);
      }
    } else {
      var a: seq<Label> := [];
      if id in s.loading {
        assert MarkOk(s, id) && LoadOk(s, s.loading[id]);
        a := FinishLoad(s, id);
      }
      var t := Run(Step, s, a);
      if id !in t.sessions {
        var b := LoadFresh(t, id);
        RunConcat(Step, s, a, b);
        assert id in Run(Step, s, a + b).sessions;
      }
    }
  }

  // Two runs the code allows.

  // Prompt 0 is past the gate and close 0 has found the session.
  lemma PromptAndClose() returns (ls: seq<Label>)
    ensures CanRun(Step, INIT, ls)
    ensures var t := Run(Step, INIT, ls);
      t.sessions == map[0 := 5] && t.states == map[5 := Session(0, true, 0, true, false, true)] &&
      t.prompts == map[0 := Prompt(0, 5, Gated, 0)] && t.closes == map[0 := Close(0, Draining(5), false)] &&
      t.clock == 0 && t.loading == map[] && t.tombs == {}
  {
    ls := [New(0, 5)];
    RunOne(Step, INIT, New(0, 5));
    RunSnoc(Step, INIT, ls, PromptLookup(0, 0));
    ls := ls + [PromptLookup(0, 0)];
    RunSnoc(Step, INIT, ls, PromptGate(0));
    ls := ls + [PromptGate(0)];
    RunSnoc(Step, INIT, ls, CloseArrive(0, 0));
    ls := ls + [CloseArrive(0, 0)];
    RunSnoc(Step, INIT, ls, CloseLookup(0));
    ls := ls + [CloseLookup(0)];
  }

  // The drain has returned, and then the prompt adds its turn.
  lemma AddAfterDrain() returns (ls: seq<Label>)
    ensures CanRun(Step, INIT, ls)
    ensures var t := Run(Step, INIT, ls);
      && 0 in t.prompts && t.prompts[0] == Prompt(0, 5, Added, 0)
      && 0 in t.closes && t.closes[0].at == Drained(5, false, 0)
      && 0 in t.sessions && t.sessions[0] == 5 && 5 in t.states && t.states[5].turns == 1
  {
    ls := PromptAndClose();
    RunSnoc(Step, INIT, ls, DrainReturn(0));
    ls := ls + [DrainReturn(0)];
    RunSnoc(Step, INIT, ls, PromptAdd(0));
    ls := ls + [PromptAdd(0)];
  }

  // A prompt registers after the drain returned: its turn runs while close reaps.
  lemma TurnInTheCloseWindow() returns (ls: seq<Label>)
    ensures CanRun(Step, INIT, ls)
    ensures var t := Run(Step, INIT, ls);
      RunningOn(t, 0, 5) && 0 in t.closes && t.closes[0].at == Reaped(5, false, 0)
  {
    ls := AddAfterDrain();
    RunSnoc(Step, INIT, ls, PromptConfirm(0));
    ls := ls + [PromptConfirm(0)];
    RunSnoc(Step, INIT, ls, Reap(0));
    ls := ls + [Reap(0)];
  }

  // Close removes by id, not by identity.

  predicate AnotherIsLive(s: State, id: Id, r: Ref) { id in s.sessions && s.sessions[id] != r }

  // The removal close c is about to make takes a state that it never drained.
  predicate TakesAnother(s: State, c: nat) {
    Enabled(s, Remove(c)) && AnotherIsLive(s, s.closes[c].id, s.closes[c].at.st)
  }

  // A logout and a load put another state in the place of r, while the closes stand still.
  lemma Supersede(s: State, id: Id, r: Ref) returns (ls: seq<Label>)
    requires Inv(s) && id !in s.tombs && r in s.states && s.states[r].inserted
    ensures CanRun(Step, s, ls)
    ensures AnotherIsLive(Run(Step, s, ls), id, r) && Run(Step, s, ls).closes == s.closes
  {
    ls := [Logout(id)];
    RunOne(Step, s, Logout(id));
    RunInv(s, ls);
    var u := Run(Step, s, ls);
    if id in u.loading {
      assert MarkOk(u, id) && LoadOk(u, u.loading[id]);
      var more := FinishLoad(u, id);
      RunConcat(Step, s, ls, more);
      ls := ls + more;
    }
    var v := Run(Step, s, ls);
    if id !in v.sessions {
      var more := LoadFresh(v, id);
      RunConcat(Step, s, ls, more);
      ls := ls + more;
    }
  }

  // A close that no longer waits for its turns goes on to its removal.
  lemma GoOnToRemove(s: State, c: nat) returns (ls: seq<Label>)
    requires c in s.closes && s.closes[c].at.Draining? && AnotherIsLive(s, s.closes[c].id, s.closes[c].at.st)
    ensures CanRun(Step, s, ls) && TakesAnother(Run(Step, s, ls), c)
  {
    var t := Apply(s, DrainTimeout(c));
    ls := [DrainTimeout(c)] + [Reap(c)];
    RunOne(Step, s, DrainTimeout(c));
    RunSnoc(Step, s, [DrainTimeout(c)], Reap(c));
    assert t.closes[c].at == Drained(s.closes[c].at.st, true, s.clock);
    assert Run(Step, s, ls) == Apply(t, Reap(c));
  }

  lemma RemovalTakesANewerState(s: State, c: nat) returns (ls: seq<Label>)
    requires Inv(s) && c in s.closes && s.closes[c].at.Draining?
    requires s.closes[c].id !in s.tombs || AnotherIsLive(s, s.closes[c].id, s.closes[c].at.st)
    ensures CanRun(Step, s, ls) && TakesAnother(Run(Step, s, ls), c)
  {
    var id, r := s.closes[c].id, s.closes[c].at.st;
    assert r in s.states && s.states[r].inserted by { assert CloseOk(s, c); }
    hide Inv, Enabled, Apply, TakesAnother, AnotherIsLive;
    if AnotherIsLive(s, id, r) {
      ls := GoOnToRemove(s, c);
    } else {
      ls := Supersede(s, id, r);
      var more := GoOnToRemove(Run(Step, s, ls), c);
      RunConcat(Step, s, ls, more);
      ls := ls + more;
    }
  }

  // Close c of id has drained, or will drain, nothing but r; the id is tombstoned and no other
  // state of it is live.
  predicate TakesNoOther(s: State, c: nat, id: Id, r: Ref) {
    && c in s.closes && s.closes[c].id == id && (HoldsState(s.closes[c].at) ==> s.closes[c].at.st == r)
    && !s.closes[c].at.BeforeTombstone? && !s.closes[c].at.BeforeLookup?
    && id in s.tombs && id in s.used && !AnotherIsLive(s, id, r)
  }

  lemma NoOtherStep(s: State, l: Label, c: nat, id: Id, r: Ref)
    requires TakesNoOther(s, c, id, r) && Enabled(s, l)
    ensures TakesNoOther(Apply(s, l), c, id, r)
  {
    if OfLoad(l) { NoOtherByLoad(s, l, c, id, r); }
  }

  lemma NoOtherByLoad(s: State, l: Label, c: nat, id: Id, r: Ref)
    requires TakesNoOther(s, c, id, r) && OfLoad(l) && Enabled(s, l)
    ensures TakesNoOther(Apply(s, l), c, id, r)
  {
    LoadFrames(s, l);
    hide EnabledLoad, EnabledPrompt, EnabledClose, ApplyLoad, ApplyPrompt, ApplyClose;
  }

  lemma {:induction false} NoOtherRun(s: State, ls: seq<Label>, c: nat, id: Id, r: Ref)
    requires TakesNoOther(s, c, id, r) && CanRun(Step, s, ls)
    ensures TakesNoOther(Run(Step, s, ls), c, id, r)
  {
    if ls != [] {
      NoOtherRun(s, ls[..|ls|-1], c, id, r);
      NoOtherStep(Run(Step, s, ls[..|ls|-1]), ls[|ls|-1], c, id, r);
    }
  }

  /** A close that is draining can end up removing a state it never drained if and only if the
      id has no tombstone, or the live map already names another state. */
  lemma RemovalExactly(s: State, c: nat)
    requires Inv(s) && c in s.closes && s.closes[c].at.Draining?
    ensures (exists ls: seq<Label> :: CanRun(Step, s, ls) && TakesAnother(Run(Step, s, ls), c)) <==>
      (s.closes[c].id !in s.tombs || AnotherIsLive(s, s.closes[c].id, s.closes[c].at.st))
  {
    var id, r := s.closes[c].id, s.closes[c].at.st;
    if id !in s.tombs || AnotherIsLive(s, id, r) {
      var ls := RemovalTakesANewerState(s, c);
    } else {
      forall ls: seq<Label> | CanRun(Step, s, ls) ensures !TakesAnother(Run(Step, s, ls), c) {
        NoOtherRun(s, ls, c, id, r);
      }
    }
  }

  // Such a removal is reachable.
  lemma NewerStateIsTaken() returns (ls: seq<Label>)
    ensures CanRun(Step, INIT, ls) && TakesAnother(Run(Step, INIT, ls), 0)
  {
    ls := PromptAndClose();
    InitInv();
    RunInv(INIT, ls);
    var more := RemovalTakesANewerState(Run(Step, INIT, ls), 0);
    RunConcat(Step, INIT, ls, more);
    ls := ls + more;
  }
}
