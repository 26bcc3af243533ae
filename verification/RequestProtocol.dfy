/** Outbound requests: the pending map, the once-only guard and one-slot channel of each
    entry, the two-send ladder, the cancel cascade and shutdown.

    A label is one region under the registry mutex, one compare-and-swap, one channel
    operation or one call into the sink or the cascade. Every goroutine that tries to
    resolve an entry (a Deliver, a ResolveCancelled, a caller whose context died, the
    shutdown drain) is an agent; the agents interleave freely. */
module RequestProtocol {
  import opened Runs

  type Id = nat
  datatype Message = Message(body: int, cancelCode: bool)
  datatype Resolution = Answer(msg: Message) | CancelMark

  datatype Kind = Deliver(msg: Message) | Cancel | Shutdown
  datatype Point = AtSwap | AtPut | AtNote | AtCheck | AtEmit
  datatype Agent = Agent(id: Id, kind: Kind, at: Point)
  // The caller's own cancelPending, the shutdown drain's visit, or an outside goroutine.
  datatype AgentId = Own(id: Id) | Drain(id: Id) | Other(n: nat)

  datatype Entry = Entry(
    done: bool, buffer: Option<Resolution>,
    // History: who won the swap, the winner while it still acts, and what happened.
    winner: Option<Kind>, actor: Option<AgentId>,
    sends: nat, puts: nat, dropped: nat, taken: nat, notes: nat, cascades: nat)

  datatype Outcome = Response(msg: Message) | Cancelled | Fallback | SendError
  datatype Caller =
    | Clearing(attempt: nat)   // about to check for shutdown before a send
    | Cleared(attempt: nat)    // checked, about to write
    | Waiting(attempt: nat)
    | Cancelling               // inside cancelPending after its context died
    | Leaving(outcome: Outcome)
    | Returned(outcome: Outcome)

  datatype State = State(
    closed: bool, pending: set<Id>, entries: map<Id, Entry>,
    callers: map<Id, Caller>, agents: map<AgentId, Agent>)

  datatype Label =
    | Register(id: Id) | CheckClosed(id: Id) | WriteFrame(id: Id, ok: bool)
    | Receive(id: Id) | CtxDies(id: Id) | Timeout(id: Id) | CancelDone(id: Id) | Unregister(id: Id)
    | Lookup(n: nat, id: Id, kind: Kind)
    | Swap(a: AgentId) | Put(a: AgentId) | Note(a: AgentId) | Check(a: AgentId) | Emit(a: AgentId)
    | Stop

  const MAX_SEND_ATTEMPTS: nat := 2

  const INIT := State(false, {}, map[], map[], map[])

  function Fresh(): Entry { Entry(false, None, None, None, 0, 0, 0, 0, 0, 0) }

  function Delivered(k: Kind): Resolution { if k.Deliver? then Answer(k.msg) else CancelMark }

  predicate CallerAt(s: State, id: Id) { id in s.callers && id in s.entries }

  predicate AgentAt(s: State, a: AgentId, at: Point) {
    a in s.agents && s.agents[a].at == at && s.agents[a].id in s.entries
  }

  // The labels that move an agent.
  predicate Moves(l: Label) { l.Swap? || l.Put? || l.Note? || l.Check? || l.Emit? }

  predicate EnabledMove(s: State, l: Label)
    requires Moves(l)
  {
    match l
    case Swap(a) => AgentAt(s, a, AtSwap)
    case Put(a) => AgentAt(s, a, AtPut)
    case Note(a) => AgentAt(s, a, AtNote)
    case Check(a) => AgentAt(s, a, AtCheck)
    case Emit(a) => AgentAt(s, a, AtEmit)
  }

  predicate EnabledOther(s: State, l: Label)
    requires !Moves(l)
  {
    match l
    case Register(id) => id !in s.entries && id !in s.callers
    case CheckClosed(id) => CallerAt(s, id) && s.callers[id].Clearing?
    case WriteFrame(id, _) => CallerAt(s, id) && s.callers[id].Cleared?
    case Receive(id) => CallerAt(s, id) && s.callers[id].Waiting? && s.entries[id].buffer.Some?
    case CtxDies(id) => CallerAt(s, id) && s.callers[id].Waiting? && Own(id) !in s.agents
    case Timeout(id) => CallerAt(s, id) && s.callers[id].Waiting?
    case CancelDone(id) => CallerAt(s, id) && s.callers[id].Cancelling? && Own(id) !in s.agents
    case Unregister(id) => CallerAt(s, id) && s.callers[id].Leaving?
    case Lookup(n, id, kind) => Other(n) !in s.agents && !kind.Shutdown?
    case Stop => true
  }

  predicate Enabled(s: State, l: Label) { if Moves(l) then EnabledMove(s, l) else EnabledOther(s, l) }

  // What settle makes of a delivered resolution.
  function Settle(r: Resolution): Outcome {
    if r.CancelMark? || r.msg.cancelCode then Cancelled else Response(r.msg)
  }

  // The non-blocking send into the one-slot channel.
  function PutInto(e: Entry, k: Kind): Entry {
    if e.buffer.None? then e.(buffer := Some(Delivered(k)), puts := e.puts + 1)
    else e.(dropped := e.dropped + 1)
  }

  function NoteIn(e: Entry): Entry { e.(notes := e.notes + 1) }

  function SetEntry(s: State, id: Id, e: Entry): State { s.(entries := s.entries[id := e]) }
  function SetCaller(s: State, id: Id, c: Caller): State { s.(callers := s.callers[id := c]) }
  function Move(s: State, a: AgentId, at: Point): State
    requires a in s.agents
  {
    s.(agents := s.agents[a := s.agents[a].(at := at)])
  }
  // The agent returns; if it was an entry's winner it no longer acts.
  function Finish(s: State, a: AgentId): State
    requires a in s.agents && s.agents[a].id in s.entries
  {
    var id := s.agents[a].id;
    s.(agents := s.agents - {a},
       entries := if s.entries[id].actor == Some(a) then s.entries[id := s.entries[id].(actor := None)] else s.entries)
  }

  function ApplyMove(s: State, l: Label): State
    requires Moves(l) && EnabledMove(s, l)
  {
    match l
    case Swap(a) =>
      var ag := s.agents[a];
      var e := s.entries[ag.id];
      if e.done then Finish(s, a)
      else Move(SetEntry(s, ag.id, e.(done := true, winner := Some(ag.kind), actor := Some(a))), a, AtPut)
    case Put(a) =>
      var ag := s.agents[a];
      var t := SetEntry(s, ag.id, PutInto(s.entries[ag.id], ag.kind));
      if ag.kind.Deliver? then Finish(t, a) else Move(t, a, AtNote)
    case Note(a) =>
      var ag := s.agents[a];
      var t := SetEntry(s, ag.id, NoteIn(s.entries[ag.id]));
      if ag.kind.Cancel? then Move(t, a, AtCheck) else Finish(t, a)
    case Check(a) => if s.closed then Finish(s, a) else Move(s, a, AtEmit)
    case Emit(a) =>
      var ag := s.agents[a];
      Finish(SetEntry(s, ag.id, s.entries[ag.id].(cascades := s.entries[ag.id].cascades + 1)), a)
  }

  function ApplyOther(s: State, l: Label): State
    requires !Moves(l) && EnabledOther(s, l)
  {
    match l
    case Register(id) =>
      if s.closed then s
      else State(s.closed, s.pending + {id}, s.entries[id := Fresh()], s.callers[id := Clearing(1)], s.agents)
    case CheckClosed(id) =>
      SetCaller(s, id, if s.closed then Leaving(SendError) else Cleared(s.callers[id].attempt))
    case WriteFrame(id, ok) =>
      if ok then
        SetEntry(SetCaller(s, id, Waiting(s.callers[id].attempt)), id, s.entries[id].(sends := s.entries[id].sends + 1))
      else SetCaller(s, id, Leaving(SendError))
    case Receive(id) =>
      var e := s.entries[id];
      var r := e.buffer.value;
      var noted := if r.Answer? && r.msg.cancelCode then e.notes + 1 else e.notes;
      SetEntry(SetCaller(s, id, Leaving(Settle(r))), id, e.(buffer := None, taken := e.taken + 1, notes := noted))
    case CtxDies(id) =>
      SetCaller(s, id, Cancelling).(agents := s.agents[Own(id) := Agent(id, Cancel, AtSwap)])
    case Timeout(id) =>
      SetCaller(s, id, if s.callers[id].attempt < MAX_SEND_ATTEMPTS then Clearing(s.callers[id].attempt + 1)
                       else Leaving(Fallback))
    case CancelDone(id) => SetCaller(s, id, Leaving(Cancelled))
    case Unregister(id) => SetCaller(s, id, Returned(s.callers[id].outcome)).(pending := s.pending - {id})
    case Lookup(n, id, kind) =>
      if id in s.pending then s.(agents := s.agents[Other(n) := Agent(id, kind, AtSwap)]) else s
    case Stop =>
      if s.closed then s
      else s.(closed := true, pending := {},
              agents := s.agents + map d | d in (set id | id in s.pending :: Drain(id)) :: Agent(d.id, Shutdown, AtSwap))
  }

  function Apply(s: State, l: Label): State
    requires Enabled(s, l)
  {
    if Moves(l) then ApplyMove(s, l) else ApplyOther(s, l)
  }

  function Step(s: State, l: Label): Option<State> {
    if Enabled(s, l) then Some(Apply(s, l)) else None
  }

  // Where the winner stands, as a count of the stages it has still to pass.
  function Stage(s: State, e: Entry): nat {
    if e.actor.Some? && e.actor.value in s.agents then
      match s.agents[e.actor.value].at
      case AtSwap => 0 case AtPut => 4 case AtNote => 3 case AtCheck => 2 case AtEmit => 1
    else 0
  }

  predicate EntryOk(e: Entry, stage: nat, closed: bool) {
    && e.dropped == 0
    && e.taken + (if e.buffer.Some? then 1 else 0) == e.puts
    && (e.done <==> e.winner.Some?)
    && (e.buffer.Some? ==> e.done && e.buffer.value == Delivered(e.winner.value))
    && (!e.done ==> e.puts == 0 && e.notes == 0 && e.cascades == 0 && stage == 0)
    && (e.done ==> e.puts == (if stage == 4 then 0 else 1))
    && (e.done ==>
      match e.winner.value
      case Deliver(m) =>
        (stage == 0 || stage == 4) && e.cascades == 0 &&
        e.notes == (if m.cancelCode && e.taken == 1 then 1 else 0)
      case Cancel =>
        e.notes == (if stage >= 3 then 0 else 1) &&
        (if stage > 0 then e.cascades == 0 else e.cascades <= 1 && (e.cascades == 0 ==> closed))
      case Shutdown =>
        (stage == 0 || stage >= 3) && e.notes == (if stage >= 3 then 0 else 1) && e.cascades == 0)
  }

  predicate Good(s: State, i: Id) {
    i in s.entries && EntryOk(s.entries[i], Stage(s, s.entries[i]), s.closed)
  }

  predicate CallerGood(s: State, i: Id) {
    i in s.entries && i in s.callers && CallerOk(s.entries[i], s.callers[i])
  }

  // Agents belong to entries, and only an entry's winner is past the swap.
  ghost predicate AgentInv(s: State) {
    && s.pending <= s.entries.Keys && s.callers.Keys == s.entries.Keys
    && (forall a :: a in s.agents ==> s.agents[a].id in s.entries)
    && (forall a :: a in s.agents && !s.agents[a].at.AtSwap? ==> s.entries[s.agents[a].id].actor == Some(a))
    && (forall i :: i in s.entries && s.entries[i].actor.Some? ==>
         s.entries[i].actor.value in s.agents && s.agents[s.entries[i].actor.value].id == i &&
         !s.agents[s.entries[i].actor.value].at.AtSwap? &&
         s.entries[i].winner == Some(s.agents[s.entries[i].actor.value].kind))
    && (forall i :: Own(i) in s.agents ==> i in s.callers && s.callers[i].Cancelling?)
    && (forall i :: Drain(i) in s.agents ==> s.closed)
  }

  // What a caller that took the entry's resolution makes of it.
  predicate TookIt(e: Entry, o: Outcome) {
    e.winner.Some? &&
    o == if e.winner.value.Deliver? && !e.winner.value.msg.cancelCode then Response(e.winner.value.msg) else Cancelled
  }

  predicate OutcomeOk(e: Entry, o: Outcome) {
    && e.sends <= 2 && e.taken <= 1
    && (e.taken == 1 ==> TookIt(e, o))
    && (o.Response? ==> e.taken == 1)
    && (o.Fallback? ==> e.taken == 0 && e.sends == 2)
  }

  predicate CallerOk(e: Entry, c: Caller) {
    match c
    case Clearing(n) => 1 <= n <= 2 && e.sends == n - 1 && e.taken == 0
    case Cleared(n) => 1 <= n <= 2 && e.sends == n - 1 && e.taken == 0
    case Waiting(n) => 1 <= n <= 2 && e.sends == n && e.taken == 0
    case Cancelling => e.sends <= 2 && e.taken == 0
    case Leaving(o) => OutcomeOk(e, o)
    case Returned(o) => OutcomeOk(e, o)
  }

  ghost predicate Inv(s: State) {
    && AgentInv(s)
    && (forall i :: i in s.entries ==> Good(s, i))
    && (forall i :: i in s.entries ==> CallerGood(s, i))
  }

  lemma AgentsCtxDies(s: State, id: Id)
    requires AgentInv(s) && Enabled(s, CtxDies(id))
    ensures AgentInv(Apply(s, CtxDies(id)))
  {
    hide EnabledMove, ApplyMove;
  }

  lemma AgentsLookup(s: State, n: nat, id: Id, kind: Kind)
    requires AgentInv(s) && Enabled(s, Lookup(n, id, kind))
    ensures AgentInv(Apply(s, Lookup(n, id, kind)))
  {
    hide EnabledMove, ApplyMove;
  }

  lemma AgentsRegister(s: State, l: Label)
    requires AgentInv(s) && Enabled(s, l) && l.Register?
    ensures AgentInv(Apply(s, l))
  {
    hide EnabledMove, ApplyMove;
  }

  lemma AgentsLeave(s: State, l: Label)
    requires AgentInv(s) && Enabled(s, l) && (l.Unregister? || l.CancelDone?)
    ensures AgentInv(Apply(s, l))
  {
    hide EnabledMove, ApplyMove;
  }

  lemma AgentsSetCaller(s: State, id: Id, c: Caller)
    requires AgentInv(s) && id in s.callers && !s.callers[id].Cancelling?
    ensures AgentInv(SetCaller(s, id, c))
  {
  }

  lemma AgentsStop(s: State)
    requires AgentInv(s)
    ensures AgentInv(Apply(s, Stop))
  {
    hide EnabledMove, ApplyMove;
  }

  lemma AgentsSwap(s: State, a: AgentId)
    requires AgentInv(s) && Enabled(s, Swap(a))
    requires !s.entries[s.agents[a].id].done ==> s.entries[s.agents[a].id].actor.None?
    ensures AgentInv(Apply(s, Swap(a)))
  {
    hide EnabledOther, ApplyOther;
  }

  lemma AgentsFinish(s: State, a: AgentId)
    requires AgentInv(s) && a in s.agents
    ensures AgentInv(Finish(s, a))
  {
  }

  lemma AgentsEntry(s: State, id: Id, e: Entry)
    requires AgentInv(s) && id in s.entries
    requires e.actor == s.entries[id].actor && e.winner == s.entries[id].winner
    ensures AgentInv(SetEntry(s, id, e))
  {
  }

  lemma AgentsMove(s: State, a: AgentId, at: Point)
    requires AgentInv(s) && a in s.agents && !s.agents[a].at.AtSwap? && !at.AtSwap?
    ensures AgentInv(Move(s, a, at))
  {
  }

  lemma StepAgent(s: State, l: Label)
    requires AgentInv(s) && Enabled(s, l)
    requires l.Swap? ==> (!s.entries[s.agents[l.a].id].done ==> s.entries[s.agents[l.a].id].actor.None?)
    ensures AgentInv(Apply(s, l))
  {
    hide AgentInv;
    match l {
      case CheckClosed(id) =>
        AgentsSetCaller(s, id, if s.closed then Leaving(SendError) else Cleared(s.callers[id].attempt));
      case WriteFrame(id, ok) =>
        AgentsSetCaller(s, id, if ok then Waiting(s.callers[id].attempt) else Leaving(SendError));
        if ok {
          AgentsEntry(SetCaller(s, id, Waiting(s.callers[id].attempt)), id,
                      s.entries[id].(sends := s.entries[id].sends + 1));
        }
      case Receive(id) => AgentsReceive(s, id);
      case Timeout(id) =>
        AgentsSetCaller(s, id, if s.callers[id].attempt < MAX_SEND_ATTEMPTS then Clearing(s.callers[id].attempt + 1)
                               else Leaving(Fallback));
      case Swap(a) => AgentsSwap(s, a);
      case Put(a) => AgentsPut(s, a);
      case Note(a) => AgentsNote(s, a);
      case Check(a) =>
        if s.closed { AgentsFinish(s, a); } else { AgentsMove(s, a, AtEmit); }
      case Emit(a) =>
        var id := s.agents[a].id;
        AgentsEntry(s, id, s.entries[id].(cascades := s.entries[id].cascades + 1));
        AgentsFinish(SetEntry(s, id, s.entries[id].(cascades := s.entries[id].cascades + 1)), a);
      case Stop => AgentsStop(s);
      case Register(_) => AgentsRegister(s, l);
      case Unregister(_) => AgentsLeave(s, l);
      case CancelDone(_) => AgentsLeave(s, l);
      case CtxDies(id) => AgentsCtxDies(s, id);
      case Lookup(n, id, kind) => AgentsLookup(s, n, id, kind);
    }
  }

  lemma AgentsReceive(s: State, id: Id)
    requires AgentInv(s) && Enabled(s, Receive(id))
    ensures AgentInv(Apply(s, Receive(id)))
  {
    var e := s.entries[id];
    var r := e.buffer.value;
    AgentsSetCaller(s, id, Leaving(Settle(r)));
    AgentsEntry(SetCaller(s, id, Leaving(Settle(r))), id, Apply(s, Receive(id)).entries[id]);
  }

  lemma AgentsPut(s: State, a: AgentId)
    requires AgentInv(s) && Enabled(s, Put(a))
    ensures AgentInv(Apply(s, Put(a)))
  {
    hide EnabledOther, ApplyOther;
    var ag := s.agents[a];
    var t := SetEntry(s, ag.id, PutInto(s.entries[ag.id], ag.kind));
    AgentsEntry(s, ag.id, PutInto(s.entries[ag.id], ag.kind));
    if ag.kind.Deliver? { AgentsFinish(t, a); } else { AgentsMove(t, a, AtNote); }
  }

  lemma AgentsNote(s: State, a: AgentId)
    requires AgentInv(s) && Enabled(s, Note(a))
    ensures AgentInv(Apply(s, Note(a)))
  {
    hide EnabledOther, ApplyOther;
    var ag := s.agents[a];
    AgentsEntry(s, ag.id, NoteIn(s.entries[ag.id]));
    var t := SetEntry(s, ag.id, NoteIn(s.entries[ag.id]));
    if ag.kind.Cancel? { AgentsMove(t, a, AtCheck); } else { AgentsFinish(t, a); }
  }

  // Entry by entry. First the labels that move an agent.

  predicate MovesOn(s: State, l: Label, i: Id) { Moves(l) && l.a in s.agents && s.agents[l.a].id == i }

  // A move changes no agent but its own, no entry but that agent's, and no caller.
  lemma MoveConfined(s: State, l: Label, i: Id, b: AgentId)
    requires Enabled(s, l) && Moves(l) && s.agents[l.a].id != i && l.a != b
    ensures var t := Apply(s, l);
      && t.callers == s.callers && t.closed == s.closed
      && (i in t.entries <==> i in s.entries) && (i in s.entries ==> t.entries[i] == s.entries[i])
      && (b in t.agents <==> b in s.agents) && (b in s.agents ==> t.agents[b] == s.agents[b])
  {
    hide EnabledOther, ApplyOther;
  }

  lemma OtherEntry(s: State, l: Label, i: Id)
    requires AgentInv(s) && Enabled(s, l) && Moves(l) && !MovesOn(s, l, i) && i in s.entries
    ensures var t := Apply(s, l); i in t.entries && t.entries[i] == s.entries[i] && t.callers == s.callers
    ensures Stage(Apply(s, l), s.entries[i]) == Stage(s, s.entries[i]) && Apply(s, l).closed == s.closed
  {
    ActsElsewhere(s, l.a, i);
    var b := if s.entries[i].actor.Some? then s.entries[i].actor.value else if l.a == Own(0) then Own(1) else Own(0);
    MoveConfined(s, l, i, b);
    hide AgentInv, Apply, Enabled;
  }

  lemma ActsElsewhere(s: State, a: AgentId, i: Id)
    requires AgentInv(s) && i in s.entries && (a in s.agents ==> s.agents[a].id != i)
    ensures s.entries[i].actor != Some(a)
  {
  }

  lemma SwapEntry(s: State, l: Label, i: Id)
    requires AgentInv(s) && Good(s, i) && Enabled(s, l) && MovesOn(s, l, i) && l.Swap?
    ensures Good(Apply(s, l), i)
  {
    hide EnabledOther, ApplyOther;
    assert s.entries[i].actor != Some(l.a);
  }

  // The winner's later moves: what its entry says.
  lemma WinnerAt(s: State, a: AgentId)
    requires AgentInv(s) && a in s.agents && !s.agents[a].at.AtSwap?
    ensures var i := s.agents[a].id;
      i in s.entries && s.entries[i].actor == Some(a) && s.entries[i].winner == Some(s.agents[a].kind)
  {
  }

  lemma PutEntry(s: State, l: Label, i: Id)
    requires AgentInv(s) && Good(s, i) && Enabled(s, l) && MovesOn(s, l, i) && l.Put?
    ensures Good(Apply(s, l), i)
  {
    hide EnabledOther, ApplyOther;
    WinnerAt(s, l.a);
  }

  lemma NoteEntry(s: State, l: Label, i: Id)
    requires AgentInv(s) && Good(s, i) && Enabled(s, l) && MovesOn(s, l, i) && l.Note?
    ensures Good(Apply(s, l), i)
  {
    hide EnabledOther, ApplyOther;
    WinnerAt(s, l.a);
  }

  lemma CascadeEntry(s: State, l: Label, i: Id)
    requires AgentInv(s) && Good(s, i) && Enabled(s, l) && MovesOn(s, l, i) && (l.Check? || l.Emit?)
    ensures Good(Apply(s, l), i)
  {
    hide EnabledOther, ApplyOther;
    WinnerAt(s, l.a);
  }

  lemma MovedEntry(s: State, l: Label, i: Id)
    requires AgentInv(s) && Good(s, i) && Enabled(s, l) && Moves(l)
    ensures Good(Apply(s, l), i)
  {
    if !MovesOn(s, l, i) { OtherEntry(s, l, i); }
    else if l.Swap? { SwapEntry(s, l, i); }
    else if l.Put? { PutEntry(s, l, i); }
    else if l.Note? { NoteEntry(s, l, i); }
    else { CascadeEntry(s, l, i); }
  }

  // Labels that move no agent leave every winner where it was.
  lemma ActorStays(s: State, l: Label, i: Id)
    requires Enabled(s, l) && !Moves(l) && i in s.entries
    ensures i in Apply(s, l).entries && Apply(s, l).entries[i].actor == s.entries[i].actor
  {
    hide EnabledMove, ApplyMove;
  }

  lemma AgentStays(s: State, l: Label, a: AgentId)
    requires Enabled(s, l) && !Moves(l) && a in s.agents && (a.Drain? ==> s.closed)
    ensures a in Apply(s, l).agents && Apply(s, l).agents[a] == s.agents[a]
  {
    hide EnabledMove, ApplyMove;
  }

  lemma StageStays(s: State, l: Label, i: Id)
    requires AgentInv(s) && Enabled(s, l) && !Moves(l) && i in s.entries
    ensures i in Apply(s, l).entries && Apply(s, l).entries[i].actor == s.entries[i].actor
    ensures Stage(Apply(s, l), Apply(s, l).entries[i]) == Stage(s, s.entries[i])
  {
    ActorStays(s, l, i);
    if s.entries[i].actor.Some? {
      var a := s.entries[i].actor.value;
      assert a in s.agents && (a.Drain? ==> s.closed);
      AgentStays(s, l, a);
    }
    hide AgentInv, Enabled, Apply;
  }

  lemma QuietEntry(s: State, l: Label, i: Id)
    requires AgentInv(s) && Good(s, i) && CallerGood(s, i) && Enabled(s, l) && !Moves(l)
    ensures Good(Apply(s, l), i)
  {
    hide EnabledMove, ApplyMove;
    StageStays(s, l, i);
  }

  lemma MoverCaller(s: State, l: Label, i: Id)
    requires CallerGood(s, i) && Enabled(s, l) && MovesOn(s, l, i)
    requires i in s.entries && (l.Swap? ==> !s.entries[i].done ==> s.entries[i].winner.None? && s.entries[i].puts == 0)
    ensures CallerGood(Apply(s, l), i)
  {
    hide EnabledOther, ApplyOther;
  }

  lemma MovedCaller(s: State, l: Label, i: Id)
    requires AgentInv(s) && Good(s, i) && CallerGood(s, i) && Enabled(s, l) && Moves(l)
    ensures CallerGood(Apply(s, l), i)
  {
    if !MovesOn(s, l, i) { OtherEntry(s, l, i); } else { MoverCaller(s, l, i); }
    hide AgentInv, Enabled, Apply;
  }

  lemma QuietCaller(s: State, l: Label, i: Id)
    requires Good(s, i) && CallerGood(s, i) && Enabled(s, l) && !Moves(l)
    ensures CallerGood(Apply(s, l), i)
  {
    hide EnabledMove, ApplyMove;
  }

  lemma StepEntry(s: State, l: Label, i: Id)
    requires AgentInv(s) && Enabled(s, l) && i in Apply(s, l).entries
    requires i in s.entries ==> Good(s, i) && CallerGood(s, i)
    ensures Good(Apply(s, l), i) && CallerGood(Apply(s, l), i)
  {
    if i !in s.entries {
      NewEntry(s, l, i);
    } else if Moves(l) {
      MovedEntry(s, l, i);
      MovedCaller(s, l, i);
    } else {
      QuietEntry(s, l, i);
      QuietCaller(s, l, i);
    }
  }

  lemma MovesAddNone(s: State, l: Label, i: Id)
    requires Enabled(s, l) && Moves(l)
    ensures i in Apply(s, l).entries <==> i in s.entries
  {
    hide EnabledOther, ApplyOther;
  }

  lemma NewEntry(s: State, l: Label, i: Id)
    requires AgentInv(s) && Enabled(s, l) && i !in s.entries && i in Apply(s, l).entries
    ensures Good(Apply(s, l), i) && CallerGood(Apply(s, l), i)
  {
    if Moves(l) { MovesAddNone(s, l, i); }
    hide EnabledMove, ApplyMove;
    assert l == Register(i);
  }

  lemma StepInv(s: State, l: Label)
    requires Inv(s) && Enabled(s, l)
    ensures Inv(Apply(s, l))
  {
    if l.Swap? { assert Good(s, s.agents[l.a].id); }
    StepAgent(s, l);
    forall i | i in Apply(s, l).entries ensures Good(Apply(s, l), i) && CallerGood(Apply(s, l), i) {
      StepEntry(s, l, i);
    }
  }

  lemma RunInv(s: State, ls: seq<Label>)
    requires Inv(s) && CanRun(Step, s, ls)
    ensures Inv(Run(Step, s, ls))
  {
    forall t, l | Inv(t) && Step(t, l).Some? ensures Inv(Step(t, l).value) { StepInv(t, l); }
    RunKeeps(Step, Inv, s, ls);
  }
}
