/** Session lifecycle: new, load, prompt, close, delete and logout racing over the live map,
    the loading marks, the tombstones and each session's WaitGroup.

    A label is one region under the server or session mutex, one file-system step or one
    WaitGroup operation. Any number of handlers are in flight at once, on any ids. */
module SessionProtocol {
  import opened Runs

  type Id = nat
  type Ref = nat    // the identity of a sessionState object

  datatype Session = Session(
    id: Id, ready: bool, turns: nat,
    // History: made by session/new; load returned from Barrier; put in the live map.
    born: bool, flushed: bool, inserted: bool)

  datatype LoadPoint =
    | Arrived | Checked | Replaying(st: Ref) | Flushed(st: Ref) | Inserted(st: Ref) | Exiting
  datatype Load = Load(id: Id, at: LoadPoint)

  datatype PromptPoint = Found | Gated | Added | Running | Refusing
  datatype Prompt = Prompt(id: Id, st: Ref, at: PromptPoint, addedAt: nat)

  datatype ClosePoint =
    | BeforeTombstone | BeforeLookup | Draining(st: Ref)
    | Drained(st: Ref, timedOut: bool, since: nat)    // about to reap
    | Reaped(st: Ref, timedOut: bool, since: nat)     // about to remove
    | Closed
  datatype Close = Close(id: Id, at: ClosePoint, tombed: bool)

  datatype State = State(
    sessions: map<Id, Ref>, tombs: set<Id>,
    loading: map<Id, nat>,    // the mark, with the load that set it
    states: map<Ref, Session>,
    loads: map<nat, Load>, prompts: map<nat, Prompt>, closes: map<nat, Close>,
    used: set<Id>, clock: nat)

  datatype Label =
    | New(id: Id, st: Ref)
    | LoadArrive(n: nat, id: Id) | LoadReject(n: nat) | LoadStat(n: nat) | LoadGuard(n: nat, st: Ref)
    | LoadFail(n: nat) | LoadFlush(n: nat) | LoadInsert(n: nat) | LoadReady(n: nat) | LoadEnd(n: nat)
    | PromptLookup(p: nat, id: Id) | PromptGate(p: nat) | PromptAdd(p: nat)
    | PromptConfirm(p: nat) | PromptRefuse(p: nat) | TurnEnd(p: nat)
    | CloseArrive(c: nat, id: Id) | DeleteArrive(c: nat, id: Id) | Tombstone(c: nat, ok: bool)
    | CloseLookup(c: nat) | DrainReturn(c: nat) | DrainTimeout(c: nat) | Reap(c: nat) | Remove(c: nat)
    | Logout(id: Id)

  const INIT := State(map[], {}, map[], map[], map[], map[], map[], {}, 0)

  predicate Guarded(at: LoadPoint) { !at.Arrived? && !at.Checked? }
  predicate BeforeInsert(at: LoadPoint) { at.Replaying? || at.Flushed? }

  // The state object a load works on, while it holds one.
  predicate HasState(at: LoadPoint) { at.Replaying? || at.Flushed? || at.Inserted? }

  // A turn is counted in its session's WaitGroup from the Add to the Done.
  predicate Counted(p: Prompt) { p.at.Added? || p.at.Running? || p.at.Refusing? }

  predicate LoadAt(s: State, n: nat) {
    n in s.loads && (HasState(s.loads[n].at) ==> s.loads[n].at.st in s.states)
  }
  predicate PromptAt(s: State, p: nat) { p in s.prompts && s.prompts[p].st in s.states }

  predicate OfLoad(l: Label) {
    l.LoadArrive? || l.LoadReject? || l.LoadStat? || l.LoadGuard? || l.LoadFail? || l.LoadFlush? ||
    l.LoadInsert? || l.LoadReady? || l.LoadEnd?
  }

  // A load between its registration and its exit.
  predicate OfProgress(l: Label) { l.LoadFail? || l.LoadFlush? || l.LoadInsert? || l.LoadReady? }

  predicate OfPrompt(l: Label) {
    l.PromptLookup? || l.PromptGate? || l.PromptAdd? || l.PromptConfirm? || l.PromptRefuse? || l.TurnEnd?
  }

  predicate EnabledLoad(s: State, l: Label)
    requires OfLoad(l)
  {
    match l
    case LoadArrive(n, id) => n !in s.loads
    case LoadReject(n) => LoadAt(s, n) && s.loads[n].at.Arrived?
    case LoadStat(n) => LoadAt(s, n) && s.loads[n].at.Arrived?
    case LoadGuard(n, st) => LoadAt(s, n) && s.loads[n].at.Checked? && st !in s.states
    case LoadFail(n) => LoadAt(s, n) && s.loads[n].at.Replaying?
    case LoadFlush(n) => LoadAt(s, n) && s.loads[n].at.Replaying?
    case LoadInsert(n) => LoadAt(s, n) && s.loads[n].at.Flushed?
    case LoadReady(n) => LoadAt(s, n) && s.loads[n].at.Inserted?
    case LoadEnd(n) => LoadAt(s, n) && s.loads[n].at.Exiting?
  }

  predicate EnabledPrompt(s: State, l: Label)
    requires OfPrompt(l)
  {
    match l
    case PromptLookup(p, id) => p !in s.prompts
    case PromptGate(p) => PromptAt(s, p) && s.prompts[p].at.Found?
    case PromptAdd(p) => PromptAt(s, p) && s.prompts[p].at.Gated?
    case PromptConfirm(p) => PromptAt(s, p) && s.prompts[p].at.Added?
    case PromptRefuse(p) => PromptAt(s, p) && s.prompts[p].at.Refusing? && s.states[s.prompts[p].st].turns > 0
    case TurnEnd(p) => PromptAt(s, p) && s.prompts[p].at.Running? && s.states[s.prompts[p].st].turns > 0
  }

  predicate EnabledClose(s: State, l: Label)
    requires !OfLoad(l) && !OfPrompt(l)
  {
    match l
    case New(id, st) => id !in s.used && st !in s.states
    case CloseArrive(c, id) => c !in s.closes
    case DeleteArrive(c, id) => c !in s.closes
    case Tombstone(c, _) => c in s.closes && s.closes[c].at.BeforeTombstone?
    case CloseLookup(c) => c in s.closes && s.closes[c].at.BeforeLookup?
    case DrainReturn(c) =>
      c in s.closes && s.closes[c].at.Draining? && s.closes[c].at.st in s.states &&
      s.states[s.closes[c].at.st].turns == 0
    case DrainTimeout(c) => c in s.closes && s.closes[c].at.Draining?
    case Reap(c) => c in s.closes && s.closes[c].at.Drained?
    case Remove(c) => c in s.closes && s.closes[c].at.Reaped?
    case Logout(id) => true
  }

  predicate Enabled(s: State, l: Label) {
    if OfLoad(l) then EnabledLoad(s, l) else if OfPrompt(l) then EnabledPrompt(s, l) else EnabledClose(s, l)
  }

  function MoveLoad(s: State, n: nat, at: LoadPoint): State
    requires n in s.loads
  {
    s.(loads := s.loads[n := s.loads[n].(at := at)])
  }

  function MovePrompt(s: State, p: nat, at: PromptPoint): State
    requires p in s.prompts
  {
    s.(prompts := s.prompts[p := s.prompts[p].(at := at)])
  }

  function MoveClose(s: State, c: nat, at: ClosePoint): State
    requires c in s.closes
  {
    s.(closes := s.closes[c := s.closes[c].(at := at)])
  }

  function DropTurn(s: State, p: nat): State
    requires PromptAt(s, p) && s.states[s.prompts[p].st].turns > 0
  {
    var st := s.prompts[p].st;
    s.(prompts := s.prompts - {p}, states := s.states[st := s.states[st].(turns := s.states[st].turns - 1)])
  }

  function ApplyLoad(s: State, l: Label): State
    requires OfLoad(l) && EnabledLoad(s, l)
  {
    match l
    case LoadArrive(n, id) => s.(loads := s.loads[n := Load(id, Arrived)], used := s.used + {id})
    case LoadReject(n) => s.(loads := s.loads - {n})
    case LoadStat(n) =>
      if s.loads[n].id in s.tombs then s.(loads := s.loads - {n}) else MoveLoad(s, n, Checked)
    case LoadGuard(n, st) =>
      var id := s.loads[n].id;
      if id in s.sessions || id in s.loading then s.(loads := s.loads - {n})
      else MoveLoad(s, n, Replaying(st)).(loading := s.loading[id := n],
             states := s.states[st := Session(id, false, 0, false, false, false)])
    case LoadFail(n) => MoveLoad(s, n, Exiting)
    case LoadFlush(n) =>
      var st := s.loads[n].at.st;
      MoveLoad(s, n, Flushed(st)).(states := s.states[st := s.states[st].(flushed := true)])
    case LoadInsert(n) =>
      var id, st := s.loads[n].id, s.loads[n].at.st;
      if id in s.tombs then MoveLoad(s, n, Exiting)
      else MoveLoad(s, n, Inserted(st)).(sessions := s.sessions[id := st],
             states := s.states[st := s.states[st].(inserted := true)])
    case LoadReady(n) =>
      var st := s.loads[n].at.st;
      MoveLoad(s, n, Exiting).(states := s.states[st := s.states[st].(ready := true)])
    case LoadEnd(n) => s.(loads := s.loads - {n}, loading := s.loading - {s.loads[n].id})
  }

  function ApplyPrompt(s: State, l: Label): State
    requires OfPrompt(l) && EnabledPrompt(s, l)
  {
    match l
    case PromptLookup(p, id) =>
      if id in s.sessions then s.(prompts := s.prompts[p := Prompt(id, s.sessions[id], Found, 0)]) else s
    case PromptGate(p) =>
      if s.states[s.prompts[p].st].ready then MovePrompt(s, p, Gated) else s.(prompts := s.prompts - {p})
    case PromptAdd(p) =>
      var st := s.prompts[p].st;
      s.(prompts := s.prompts[p := s.prompts[p].(at := Added, addedAt := s.clock)], clock := s.clock + 1,
         states := s.states[st := s.states[st].(turns := s.states[st].turns + 1)])
    case PromptConfirm(p) =>
      var q := s.prompts[p];
      MovePrompt(s, p, if q.id in s.sessions && s.sessions[q.id] == q.st then Running else Refusing)
    case PromptRefuse(p) => DropTurn(s, p)
    case TurnEnd(p) => DropTurn(s, p)
  }

  function ApplyClose(s: State, l: Label): State
    requires !OfLoad(l) && !OfPrompt(l) && EnabledClose(s, l)
  {
    match l
    case New(id, st) =>
      s.(sessions := s.sessions[id := st], used := s.used + {id},
         states := s.states[st := Session(id, true, 0, true, false, true)])
    case CloseArrive(c, id) => s.(closes := s.closes[c := Close(id, BeforeLookup, false)])
    case DeleteArrive(c, id) => s.(closes := s.closes[c := Close(id, BeforeTombstone, false)], used := s.used + {id})
    case Tombstone(c, ok) =>
      s.(closes := s.closes[c := s.closes[c].(at := BeforeLookup, tombed := ok)],
         tombs := if ok then s.tombs + {s.closes[c].id} else s.tombs)
    case CloseLookup(c) =>
      var id := s.closes[c].id;
      MoveClose(s, c, if id in s.sessions then Draining(s.sessions[id]) else Closed)
    case DrainReturn(c) => MoveClose(s, c, Drained(s.closes[c].at.st, false, s.clock))
    case DrainTimeout(c) => MoveClose(s, c, Drained(s.closes[c].at.st, true, s.clock))
    case Reap(c) =>
      var at := s.closes[c].at;
      MoveClose(s, c, Reaped(at.st, at.timedOut, at.since))
    case Remove(c) => MoveClose(s, c, Closed).(sessions := s.sessions - {s.closes[c].id})
    case Logout(id) => s.(sessions := s.sessions - {id})
  }

  function Apply(s: State, l: Label): State
    requires Enabled(s, l)
  {
    if OfLoad(l) then ApplyLoad(s, l) else if OfPrompt(l) then ApplyPrompt(s, l) else ApplyClose(s, l)
  }

  function Step(s: State, l: Label): Option<State> {
    if Enabled(s, l) then Some(Apply(s, l)) else None
  }

  // Item by item, what every reachable state satisfies.

  // An id in the live map names an inserted state of its own.
  predicate LiveOk(s: State, i: Id) {
    i in s.sessions ==>
      i in s.used && s.sessions[i] in s.states && s.states[s.sessions[i]].id == i && s.states[s.sessions[i]].inserted
  }

  predicate ReadyOk(s: State, r: Ref) {
    r in s.states && s.states[r].ready ==> s.states[r].born || s.states[r].flushed
  }

  predicate MarkOk(s: State, i: Id) {
    i in s.loading ==>
      s.loading[i] in s.loads && s.loads[s.loading[i]].id == i && Guarded(s.loads[s.loading[i]].at)
  }

  // A load past its guard owns its id's mark and, until its insert, keeps the id out of the map.
  predicate LoadOk(s: State, n: nat) {
    n in s.loads ==>
      var id, at := s.loads[n].id, s.loads[n].at;
      && id in s.used
      && (Guarded(at) ==> id in s.loading && s.loading[id] == n)
      && (BeforeInsert(at) ==> id !in s.sessions)
      && (HasState(at) ==>
           at.st in s.states && s.states[at.st].id == id && !s.states[at.st].born &&
           (s.states[at.st].inserted <==> at.Inserted?) && (s.states[at.st].flushed <==> !at.Replaying?))
  }

  // A prompt past the gate saw its state ready.
  predicate PromptOk(s: State, p: nat) {
    p in s.prompts ==>
      var q := s.prompts[p];
      q.st in s.states && s.states[q.st].inserted && s.states[q.st].id == q.id &&
      (!q.at.Found? ==> s.states[q.st].ready)
  }

  predicate HoldsState(at: ClosePoint) { at.Draining? || at.Drained? || at.Reaped? }

  // A close works on a state that was live; a finished one whose tombstone landed left
  // the id tombstoned and out of the map.
  predicate CloseOk(s: State, c: nat) {
    c in s.closes ==>
      && (HoldsState(s.closes[c].at) ==> s.closes[c].at.st in s.states && s.states[s.closes[c].at.st].inserted)
      && (s.closes[c].at.BeforeTombstone? ==> s.closes[c].id in s.used && !s.closes[c].tombed)
      && (s.closes[c].tombed ==>
           s.closes[c].id in s.tombs && (s.closes[c].at.Closed? ==> s.closes[c].id !in s.sessions))
  }

  ghost predicate MapInv(s: State) {
    s.tombs <= s.used && (forall i :: LiveOk(s, i)) && (forall r :: ReadyOk(s, r))
  }
  ghost predicate LoadInv(s: State) { (forall i :: MarkOk(s, i)) && (forall n :: LoadOk(s, n)) }
  ghost predicate PromptInv(s: State) { forall p :: PromptOk(s, p) }
  ghost predicate CloseInv(s: State) { forall c :: CloseOk(s, c) }

  // A session's history only grows; its turns are the prompts' affair.
  predicate Grown(a: Session, b: Session) {
    b.id == a.id && b.born == a.born && (a.ready ==> b.ready) && (a.flushed ==> b.flushed) && (a.inserted ==> b.inserted)
  }

  // What a load leaves alone: every map but its own, and the live map except at its insert.
  ghost predicate LoadFrame(s: State, l: Label, t: State) {
    && t.prompts == s.prompts && t.closes == s.closes && t.tombs == s.tombs && t.clock == s.clock && s.used <= t.used
    && (forall r :: r in s.states ==> r in t.states && Grown(s.states[r], t.states[r]) && t.states[r].turns == s.states[r].turns)
    && (t.sessions == s.sessions ||
        (l.LoadInsert? && LoadAt(s, l.n) && s.loads[l.n].at.Flushed? && s.loads[l.n].id !in s.tombs &&
         t.sessions == s.sessions[s.loads[l.n].id := s.loads[l.n].at.st]))
  }

  lemma EdgeFrame(s: State, l: Label)
    requires OfLoad(l) && !OfProgress(l) && !l.LoadGuard? && Enabled(s, l)
    ensures LoadFrame(s, l, Apply(s, l))
  {
    assert Apply(s, l).states == s.states;
    hide EnabledPrompt, EnabledClose, ApplyPrompt, ApplyClose;
  }

  lemma GuardFrame(s: State, l: Label)
    requires l.LoadGuard? && Enabled(s, l)
    ensures LoadFrame(s, l, Apply(s, l))
  {
    hide EnabledPrompt, EnabledClose, ApplyPrompt, ApplyClose;
  }

  lemma ProgressFrame(s: State, l: Label)
    requires OfProgress(l) && Enabled(s, l)
    ensures LoadFrame(s, l, Apply(s, l))
  {
    hide EnabledPrompt, EnabledClose, ApplyPrompt, ApplyClose;
  }

  lemma LoadFrames(s: State, l: Label)
    requires OfLoad(l) && Enabled(s, l)
    ensures LoadFrame(s, l, Apply(s, l))
  {
    if OfProgress(l) { ProgressFrame(s, l); } else if l.LoadGuard? { GuardFrame(s, l); } else { EdgeFrame(s, l); }
  }

  lemma LiveByLoad(s: State, l: Label, i: Id)
    requires LiveOk(s, i) && Enabled(s, l) && OfLoad(l) && LoadOk(s, l.n)
    ensures LiveOk(Apply(s, l), i)
  {
    hide EnabledPrompt, EnabledClose, ApplyPrompt, ApplyClose;
  }

  lemma LiveByOther(s: State, l: Label, i: Id)
    requires LiveOk(s, i) && Enabled(s, l) && !OfLoad(l)
    ensures LiveOk(Apply(s, l), i)
  {
  }

  lemma StepReady(s: State, l: Label, r: Ref)
    requires ReadyOk(s, r) && Enabled(s, l) && (l.LoadReady? ==> LoadOk(s, l.n))
    ensures ReadyOk(Apply(s, l), r)
  {
  }

  lemma MarkByEdge(s: State, l: Label, i: Id)
    requires MarkOk(s, i) && OfLoad(l) && !OfProgress(l) && LoadOk(s, l.n) && Enabled(s, l)
    ensures MarkOk(Apply(s, l), i)
  {
    hide EnabledPrompt, EnabledClose, ApplyPrompt, ApplyClose;
  }

  lemma MarkByProgress(s: State, l: Label, i: Id)
    requires MarkOk(s, i) && OfProgress(l) && Enabled(s, l)
    ensures MarkOk(Apply(s, l), i)
  {
    hide EnabledPrompt, EnabledClose, ApplyPrompt, ApplyClose;
  }

  lemma StepMark(s: State, l: Label, i: Id)
    requires MarkOk(s, i) && (OfLoad(l) ==> LoadOk(s, l.n)) && Enabled(s, l)
    ensures MarkOk(Apply(s, l), i)
  {
    if OfProgress(l) { MarkByProgress(s, l, i); } else if OfLoad(l) { MarkByEdge(s, l, i); }
  }

  lemma LoadByItself(s: State, l: Label)
    requires OfLoad(l) && LoadOk(s, l.n) && Enabled(s, l)
    ensures LoadOk(Apply(s, l), l.n)
  {
    hide EnabledPrompt, EnabledClose, ApplyPrompt, ApplyClose;
  }

  // Two loads past their guards are on different ids, so on different states.
  lemma LoadsApart(s: State, n: nat, m: nat)
    requires n != m && n in s.loads && m in s.loads && LoadOk(s, n) && LoadOk(s, m)
    ensures Guarded(s.loads[n].at) && Guarded(s.loads[m].at) ==> s.loads[n].id != s.loads[m].id
    ensures HasState(s.loads[n].at) && HasState(s.loads[m].at) ==> s.loads[n].at.st != s.loads[m].at.st
  {
  }

  // Another load that registers, or only comes or goes.
  lemma LoadByGuard(s: State, l: Label, n: nat)
    requires l.LoadGuard? && n != l.n && LoadOk(s, n) && Enabled(s, l)
    ensures LoadOk(Apply(s, l), n)
  {
    hide EnabledPrompt, EnabledClose, ApplyPrompt, ApplyClose;
  }

  lemma LoadByEdge(s: State, l: Label, n: nat)
    requires OfLoad(l) && !OfProgress(l) && !l.LoadGuard? && n != l.n && LoadOk(s, n) && LoadOk(s, l.n) && Enabled(s, l)
    ensures LoadOk(Apply(s, l), n)
  {
    hide EnabledPrompt, EnabledClose, ApplyPrompt, ApplyClose;
  }

  lemma LoadByProgress(s: State, l: Label, n: nat)
    requires OfProgress(l) && n != l.n && LoadOk(s, n) && LoadOk(s, l.n) && Enabled(s, l)
    ensures LoadOk(Apply(s, l), n)
  {
    hide EnabledPrompt, EnabledClose, ApplyPrompt, ApplyClose;
    if n in s.loads { LoadsApart(s, n, l.n); }
  }

  lemma LoadByPrompt(s: State, l: Label, n: nat)
    requires LoadOk(s, n) && PromptInv(s) && Enabled(s, l) && OfPrompt(l)
    ensures LoadOk(Apply(s, l), n)
  {
    hide EnabledLoad, EnabledClose, ApplyLoad, ApplyClose;
  }

  lemma LoadByClose(s: State, l: Label, n: nat)
    requires LoadOk(s, n) && Enabled(s, l) && !OfLoad(l) && !OfPrompt(l)
    ensures LoadOk(Apply(s, l), n)
  {
    hide EnabledLoad, EnabledPrompt, ApplyLoad, ApplyPrompt;
  }

  lemma StepLoad(s: State, l: Label, n: nat)
    requires (forall m :: LoadOk(s, m)) && PromptInv(s) && Enabled(s, l)
    ensures LoadOk(Apply(s, l), n)
  {
    if OfLoad(l) {
      assert LoadOk(s, l.n) && LoadOk(s, n);
      if n == l.n { LoadByItself(s, l); }
      else if OfProgress(l) { LoadByProgress(s, l, n); }
      else if l.LoadGuard? { LoadByGuard(s, l, n); }
      else { LoadByEdge(s, l, n); }
    } else if OfPrompt(l) { LoadByPrompt(s, l, n); }
    else { LoadByClose(s, l, n); }
  }

  lemma PromptByLoad(s: State, l: Label, p: nat)
    requires PromptOk(s, p) && Enabled(s, l) && OfLoad(l)
    ensures PromptOk(Apply(s, l), p)
  {
    LoadFrames(s, l);
    hide EnabledLoad, EnabledPrompt, EnabledClose, ApplyLoad, ApplyPrompt, ApplyClose;
  }

  lemma StepPrompt(s: State, l: Label, p: nat)
    requires PromptOk(s, p) && (l.PromptLookup? ==> LiveOk(s, l.id)) && Enabled(s, l)
    ensures PromptOk(Apply(s, l), p)
  {
    if OfLoad(l) { PromptByLoad(s, l, p); }
  }

  lemma CloseByLoad(s: State, l: Label, c: nat)
    requires CloseOk(s, c) && Enabled(s, l) && OfLoad(l)
    ensures CloseOk(Apply(s, l), c)
  {
    LoadFrames(s, l);
    hide EnabledLoad, EnabledPrompt, EnabledClose, ApplyLoad, ApplyPrompt, ApplyClose;
  }

  lemma CloseByPrompt(s: State, l: Label, c: nat)
    requires CloseOk(s, c) && Enabled(s, l) && OfPrompt(l)
    ensures CloseOk(Apply(s, l), c)
  {
    hide EnabledLoad, EnabledClose, ApplyLoad, ApplyClose;
  }

  lemma CloseByOther(s: State, l: Label, c: nat)
    requires CloseOk(s, c) && s.tombs <= s.used && Enabled(s, l) && !OfLoad(l) && !OfPrompt(l)
    requires l.CloseLookup? ==> CloseOk(s, l.c) && LiveOk(s, s.closes[l.c].id)
    ensures CloseOk(Apply(s, l), c)
  {
    hide EnabledLoad, EnabledPrompt, ApplyLoad, ApplyPrompt;
  }

  lemma StepClose(s: State, l: Label, c: nat)
    requires CloseInv(s) && MapInv(s) && Enabled(s, l)
    ensures CloseOk(Apply(s, l), c)
  {
    if OfLoad(l) { CloseByLoad(s, l, c); }
    else if OfPrompt(l) { CloseByPrompt(s, l, c); }
    else {
      if l.CloseLookup? { assert CloseOk(s, l.c) && LiveOk(s, s.closes[l.c].id); }
      CloseByOther(s, l, c);
    }
  }

  ghost predicate BaseInv(s: State) { MapInv(s) && LoadInv(s) && PromptInv(s) && CloseInv(s) }

  lemma StepTombs(s: State, l: Label)
    requires s.tombs <= s.used && CloseInv(s) && Enabled(s, l)
    ensures Apply(s, l).tombs <= Apply(s, l).used
  {
    if l.Tombstone? { assert CloseOk(s, l.c); }
  }

  lemma StepMapInv(s: State, l: Label)
    requires BaseInv(s) && Enabled(s, l)
    ensures MapInv(Apply(s, l))
  {
    StepTombs(s, l);
    forall i ensures LiveOk(Apply(s, l), i) {
      assert LiveOk(s, i);
      if OfLoad(l) { assert LoadOk(s, l.n); LiveByLoad(s, l, i); } else { LiveByOther(s, l, i); }
    }
    forall r ensures ReadyOk(Apply(s, l), r) {
      assert ReadyOk(s, r);
      if OfLoad(l) { assert LoadOk(s, l.n); }
      StepReady(s, l, r);
    }
  }

  lemma StepLoadInv(s: State, l: Label)
    requires BaseInv(s) && Enabled(s, l)
    ensures LoadInv(Apply(s, l))
  {
    forall i ensures MarkOk(Apply(s, l), i) {
      assert MarkOk(s, i);
      if OfLoad(l) { assert LoadOk(s, l.n); }
      StepMark(s, l, i);
    }
    forall n ensures LoadOk(Apply(s, l), n) { StepLoad(s, l, n); }
  }

  lemma StepBase(s: State, l: Label)
    requires BaseInv(s) && Enabled(s, l)
    ensures BaseInv(Apply(s, l))
  {
    StepMapInv(s, l);
    StepLoadInv(s, l);
    forall p ensures PromptOk(Apply(s, l), p) {
      assert PromptOk(s, p);
      if l.PromptLookup? { assert LiveOk(s, l.id); }
      StepPrompt(s, l, p);
    }
    forall c ensures CloseOk(Apply(s, l), c) { StepClose(s, l, c); }
  }
}
