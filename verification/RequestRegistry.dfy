/** The registry object itself: the closed flag, the pending ids and the entries, with each
    region, swap and channel operation proved to take the protocol's step. Where callers and
    resolving goroutines stand is history. */
module RequestRegistry {
  import opened Runs
  import opened RequestProtocol

  // What an entry holds: the once-only guard and the one-slot channel.
  datatype Slot = Slot(done: bool, buffer: Option<Resolution>)

  class Registry {
    var closed: bool
    var pending: set<Id>
    var slots: map<Id, Slot>
    ghost var entries: map<Id, Entry>
    ghost var callers: map<Id, Caller>
    ghost var agents: map<AgentId, Agent>

    ghost function View(): State
      reads this
    {
      State(closed, pending, entries, callers, agents)
    }

    ghost predicate Valid()
      reads this
    {
      Inv(View()) && SlotsAre(slots, entries)
    }

    constructor ()
      ensures View() == INIT && Valid()
    {
      closed, pending, slots, entries, callers, agents := false, {}, map[], map[], map[], map[];
    }

    // The protocol's step, as history.
    ghost method Record(l: Label)
      requires Enabled(View(), l) && Inv(View())
      modifies this`entries, this`callers, this`agents
      ensures var t := Apply(old(View()), l);
              Inv(t) && entries == t.entries && callers == t.callers && agents == t.agents
    {
      hide Inv;
      StepInv(View(), l);
      var t := Apply(View(), l);
      entries, callers, agents := t.entries, t.callers, t.agents;
    }

    // Claim an entry for a freshly minted id; rejected after shutdown.
    method Register(id: Id) returns (ok: bool)
      requires Enabled(View(), Label.Register(id)) && Valid()
      modifies this
      ensures View() == Apply(old(View()), Label.Register(id)) && Valid()
      ensures ok == !closed && (!ok ==> View() == old(View()))
      ensures ok ==> pending == old(pending) + {id} && slots == old(slots)[id := Slot(false, None)]
    {
      hide Inv;
      Record(Label.Register(id));
      if closed {
        return false;
      }
      slots := slots[id := Slot(false, None)];
      pending := pending + {id};
      return true;
    }

    // The region of send that looks for a shutdown; the write itself comes after it.
    method SendAllowed(id: Id) returns (ok: bool)
      requires Enabled(View(), CheckClosed(id)) && Valid()
      modifies this
      ensures View() == Apply(old(View()), CheckClosed(id)) && Valid()
      ensures ok == !closed
    {
      hide Inv;
      Record(CheckClosed(id));
      return !closed;
    }

    // A resolution taken from the entry's channel, and what Call makes of it.
    method Receive(id: Id) returns (o: Outcome)
      requires Enabled(View(), Label.Receive(id)) && Valid()
      modifies this
      ensures View() == Apply(old(View()), Label.Receive(id)) && Valid()
      ensures match old(slots)[id].buffer.value
              case CancelMark => o == Cancelled
              case Answer(msg) => if msg.cancelCode then o == Cancelled else o == Response(msg)
      ensures callers[id] == Leaving(o)
      ensures slots == old(slots)[id := old(slots)[id].(buffer := None)]
    {
      hide Inv;
      Record(Label.Receive(id));
      var r := slots[id].buffer.value;
      slots := slots[id := slots[id].(buffer := None)];
      match r {
        case CancelMark => o := Cancelled;
        case Answer(msg) => o := if msg.cancelCode then Cancelled else Response(msg);
      }
    }

    method Unregister(id: Id)
      requires Enabled(View(), Label.Unregister(id)) && Valid()
      modifies this
      ensures View() == Apply(old(View()), Label.Unregister(id)) && Valid()
      ensures pending == old(pending) - {id} && slots == old(slots) && closed == old(closed)
    {
      hide Inv;
      Record(Label.Unregister(id));
      pending := pending - {id};
    }

    // The region in which a goroutine finds the entry of an id.
    method Lookup(ghost n: nat, id: Id, ghost kind: Kind) returns (ok: bool)
      requires Enabled(View(), Label.Lookup(n, id, kind)) && Valid()
      modifies this
      ensures View() == Apply(old(View()), Label.Lookup(n, id, kind)) && Valid()
      ensures ok == (id in old(pending)) && slots == old(slots)
    {
      hide Inv;
      Record(Label.Lookup(n, id, kind));
      return id in pending;
    }

    // The compare-and-swap of an entry's guard.
    method SwapDone(ghost a: AgentId, id: Id) returns (won: bool)
      requires Enabled(View(), Swap(a)) && agents[a].id == id && Valid()
      modifies this
      ensures View() == Apply(old(View()), Swap(a)) && Valid()
      ensures won == !old(slots)[id].done
      ensures slots == if won then old(slots)[id := old(slots)[id].(done := true)] else old(slots)
    {
      hide Inv;
      Record(Swap(a));
      if slots[id].done {
        return false;
      }
      slots := slots[id := slots[id].(done := true)];
      return true;
    }

    // The send into the one-slot channel, which would drop a second resolution but never meets one.
    method PutResolution(ghost a: AgentId, id: Id, kind: Kind) returns (kept: bool)
      requires Enabled(View(), Put(a)) && agents[a].id == id && agents[a].kind == kind && Valid()
      modifies this
      ensures View() == Apply(old(View()), Put(a)) && Valid()
      ensures kept && slots == old(slots)[id := old(slots)[id].(buffer := Some(Delivered(kind)))]
    {
      hide Inv;
      PutHasRoom(View(), a);
      Record(Put(a));
      kept := slots[id].buffer.None?;
      if kept {
        slots := slots[id := slots[id].(buffer := Some(Delivered(kind)))];
      }
    }

    // The region in which a cascade looks for a shutdown.
    method CascadeAllowed(ghost a: AgentId, id: Id) returns (ok: bool)
      requires Enabled(View(), Label.Check(a)) && agents[a].id == id && Valid()
      modifies this
      ensures View() == Apply(old(View()), Label.Check(a)) && Valid()
      ensures ok == !closed && slots == old(slots)
    {
      hide Inv;
      Record(Label.Check(a));
      return !closed;
    }

    // The cancel counter's hook and the cascade's send leave the registry's own state alone.
    method NoteOrEmit(ghost a: AgentId, ghost l: Label)
      requires (l == Note(a) || l == Emit(a)) && Enabled(View(), l) && Valid()
      modifies this
      ensures View() == Apply(old(View()), l) && Valid()
      ensures slots == old(slots)
    {
      hide Inv;
      Record(l);
    }

    /** A response frame, with nothing else running: the first one for a pending id is kept for the
        caller; one for an id that is unknown or already resolved changes nothing. */
    method Deliver(ghost n: nat, id: Id, msg: Message) returns (accepted: bool)
      requires Other(n) !in agents && Valid()
      modifies this
      ensures Valid()
      ensures accepted <==> Unresolved(old(View()), id)
      ensures View() == if accepted then WithAnswer(old(View()), id, msg) else old(View())
    {
      hide Inv, Apply, Enabled;
      ghost var s, kind := View(), Kind.Deliver(msg);
      LookupAlone(s, n, id, kind);
      var ok := Lookup(n, id, kind);
      if !ok {
        return false;
      }
      var won := SwapDone(Other(n), id);
      if !won {
        RefusedAlone(s, n, id, kind);
        return false;
      }
      WonAlone(s, n, id, kind);
      DeliverAlone(s, n, id, msg);
      var kept := PutResolution(Other(n), id, Kind.Deliver(msg));
      return true;
    }

    /** A synthetic cancellation, with nothing else running: the first resolution of a pending id
        marks it cancelled, counts it once and cascades once unless the registry has shut down. */
    method ResolveCancelled(ghost n: nat, id: Id) returns (accepted: bool)
      requires Other(n) !in agents && Valid()
      modifies this
      ensures Valid()
      ensures accepted <==> Unresolved(old(View()), id)
      ensures View() == if accepted then WithCancel(old(View()), id) else old(View())
    {
      hide Inv, Apply, Enabled;
      ghost var s := View();
      LookupAlone(s, n, id, Cancel);
      var ok := Lookup(n, id, Cancel);
      if !ok {
        return false;
      }
      var won := SwapDone(Other(n), id);
      if !won {
        RefusedAlone(s, n, id, Cancel);
        return false;
      }
      WonAlone(s, n, id, Cancel);
      PutAlone(s, n, id);
      var kept := PutResolution(Other(n), id, Cancel);
      NoteAlone(s, n, id);
      NoteOrEmit(Other(n), Note(Other(n)));
      CheckAlone(s, n, id);
      var allowed := CascadeAllowed(Other(n), id);
      if allowed {
        EmitAlone(s, n, id);
        NoteOrEmit(Other(n), Emit(Other(n)));
      }
      return true;
    }

    // The region in which Stop closes the registry and takes the pending entries to drain.
    method TakePending() returns (drained: seq<Id>)
      requires Valid()
      modifies this
      ensures View() == Apply(old(View()), Label.Stop) && Valid()
      ensures closed && (if old(closed) then drained == [] else pending == {} && Lists(drained, old(pending)))
    {
      hide Inv;
      drained := [];
      Record(Label.Stop);
      if closed {
        return;
      }
      closed := true;
      var rest := pending;
      while rest != {}
        invariant rest <= pending && Lists(drained, pending - rest)
      {
        var id :| id in rest;
        drained := drained + [id];
        rest := rest - {id};
      }
      assert pending - rest == pending;
      pending := {};
    }

    // Stop's visit to one entry that it took.
    method Visit(id: Id)
      requires Valid() && Visits(View(), id)
      modifies this
      ensures Valid() && View() == Visited(old(View()), id)
    {
      hide Inv, Apply, Enabled;
      ghost var s, a := View(), AgentId.Drain(id);
      VisitOpens(s, id);
      var won := SwapDone(a, id);
      if !won {
        return;
      }
      var _ := PutResolution(a, id, Shutdown);
      NoteOrEmit(a, Note(a));
    }

    /** Shutdown with nothing else running: the first call closes the registry, empties the map
        and resolves exactly the pending entries that no one had resolved, each as cancelled,
        counted once and without a cascade; a second call changes nothing. */
    method Stop()
      requires Valid()
      modifies this
      ensures Valid()
      ensures View() == if old(closed) then old(View()) else ShutDown(old(View()))
    {
      hide Inv, Apply, Enabled, EntryShut;
      ghost var s := View();
      StopTakes(s);
      if closed {
        return;
      }
      var drained := TakePending();
      ghost var t := View();
      DrainedNone(t);
      for i := 0 to |drained|
        invariant Valid() && View() == DrainedTo(t, drained[..i])
      {
        StillToVisit(t, drained, i);
        Visit(drained[i]);
      }
      assert drained[..|drained|] == drained;
      DrainedAll(s, t, drained);
    }
  }

  // The slots are what the entries' history says.
  ghost predicate SlotsAre(slots: map<Id, Slot>, entries: map<Id, Entry>) {
    slots.Keys == entries.Keys && forall i :: i in slots ==> slots[i] == Slot(entries[i].done, entries[i].buffer)
  }

  // Each id once.
  ghost predicate Lists(ids: seq<Id>, s: set<Id>) {
    (forall i :: i in ids <==> i in s) && forall j, k :: 0 <= j < k < |ids| ==> ids[j] != ids[k]
  }

  lemma PutHasRoom(s: State, a: AgentId)
    requires Inv(s) && Enabled(s, Put(a))
    ensures s.entries[s.agents[a].id].buffer.None?
  {
    WinnerAt(s, a);
    assert Good(s, s.agents[a].id);
  }

  ghost predicate Unresolved(s: State, id: Id) { id in s.pending && id in s.entries && !s.entries[id].done }

  // The state with the first resolution of id accepted, a response or a cancellation.
  ghost function WithAnswer(s: State, id: Id, msg: Message): State
    requires Unresolved(s, id)
  {
    SetEntry(s, id, s.entries[id].(done := true, winner := Some(Kind.Deliver(msg)), actor := None,
                                   buffer := Some(Answer(msg)), puts := s.entries[id].puts + 1))
  }

  ghost function WithCancel(s: State, id: Id): State
    requires id in s.entries
  {
    var e := s.entries[id];
    SetEntry(s, id, e.(done := true, winner := Some(Cancel), actor := None, buffer := Some(CancelMark),
                       puts := e.puts + 1, notes := e.notes + 1,
                       cascades := e.cascades + if s.closed then 0 else 1))
  }

  // A goroutine with no place in s, and the entry it has found.
  ghost predicate Alone(s: State, n: nat, id: Id) {
    id in s.pending && id in s.entries && Other(n) !in s.agents && s.entries[id].actor != Some(Other(n)) &&
    (!s.entries[id].done ==> s.entries[id].buffer.None?)
  }

  lemma LookupAlone(s: State, n: nat, id: Id, kind: Kind)
    requires Inv(s) && Other(n) !in s.agents && !kind.Shutdown?
    ensures var l := Lookup(n, id, kind);
            Enabled(s, l) &&
            if id !in s.pending then Apply(s, l) == s
            else
              && Alone(s, n, id) && Enabled(Apply(s, l), Swap(Other(n)))
              && Apply(s, l).agents[Other(n)] == Agent(id, kind, AtSwap)
              && Apply(s, l).entries == s.entries
  {
    if id in s.pending {
      assert Good(s, id);
      NotActing(s, Other(n));
    }
  }

  lemma RefusedAlone(s: State, n: nat, id: Id, kind: Kind)
    requires Alone(s, n, id) && s.entries[id].done && !kind.Shutdown?
    ensures Enabled(s, Lookup(n, id, kind)) && Enabled(Apply(s, Lookup(n, id, kind)), Swap(Other(n)))
    ensures Apply(Apply(s, Lookup(n, id, kind)), Swap(Other(n))) == s
  {
    var t := Apply(s, Lookup(n, id, kind));
    assert t.agents - {Other(n)} == s.agents;
  }

  // Past the swap the goroutine has won.
  ghost function Won(s: State, n: nat, id: Id, kind: Kind, at: Point): State
    requires id in s.entries
  {
    SetEntry(s, id, s.entries[id].(done := true, winner := Some(kind), actor := Some(Other(n)))).(
      agents := s.agents[Other(n) := Agent(id, kind, at)])
  }

  lemma WonAlone(s: State, n: nat, id: Id, kind: Kind)
    requires Alone(s, n, id) && !s.entries[id].done && !kind.Shutdown?
    ensures Enabled(s, Lookup(n, id, kind)) && Enabled(Apply(s, Lookup(n, id, kind)), Swap(Other(n)))
    ensures Apply(Apply(s, Lookup(n, id, kind)), Swap(Other(n))) == Won(s, n, id, kind, AtPut)
    ensures Enabled(Won(s, n, id, kind, AtPut), Put(Other(n)))
  {
  }

  lemma DeliverAlone(s: State, n: nat, id: Id, msg: Message)
    requires Alone(s, n, id) && Unresolved(s, id)
    ensures var t := Won(s, n, id, Kind.Deliver(msg), AtPut);
            Enabled(t, Put(Other(n))) && Apply(t, Put(Other(n))) == WithAnswer(s, id, msg)
  {
    var t := Won(s, n, id, Kind.Deliver(msg), AtPut);
    assert t.agents - {Other(n)} == s.agents;
    assert Apply(t, Put(Other(n))).entries == WithAnswer(s, id, msg).entries;
  }

  // The cancelling goroutine after its put, after its count and at its cascade.
  ghost function Marked(s: State, n: nat, id: Id, notes: nat, at: Point): State
    requires id in s.entries
  {
    var e := s.entries[id];
    SetEntry(s, id, e.(done := true, winner := Some(Cancel), actor := Some(Other(n)), buffer := Some(CancelMark),
                       puts := e.puts + 1, notes := e.notes + notes)).(
      agents := s.agents[Other(n) := Agent(id, Cancel, at)])
  }

  lemma PutAlone(s: State, n: nat, id: Id)
    requires Alone(s, n, id) && !s.entries[id].done
    ensures var t, u := Won(s, n, id, Cancel, AtPut), Marked(s, n, id, 0, AtNote);
            Enabled(t, Put(Other(n))) && Apply(t, Put(Other(n))) == u
  {
  }

  lemma NoteAlone(s: State, n: nat, id: Id)
    requires Alone(s, n, id)
    ensures var t, u := Marked(s, n, id, 0, AtNote), Marked(s, n, id, 1, AtCheck);
            Enabled(t, Note(Other(n))) && Apply(t, Note(Other(n))) == u
  {
  }

  lemma CheckAlone(s: State, n: nat, id: Id)
    requires Alone(s, n, id)
    ensures var t := Marked(s, n, id, 1, AtCheck);
            Enabled(t, Label.Check(Other(n))) &&
            Apply(t, Label.Check(Other(n))) == if s.closed then WithCancel(s, id) else Marked(s, n, id, 1, AtEmit)
  {
    assert Marked(s, n, id, 1, AtCheck).agents - {Other(n)} == s.agents;
  }

  lemma EmitAlone(s: State, n: nat, id: Id)
    requires Alone(s, n, id) && !s.closed
    ensures var t := Marked(s, n, id, 1, AtEmit);
            Enabled(t, Emit(Other(n))) && Apply(t, Emit(Other(n))) == WithCancel(s, id)
  {
    assert Marked(s, n, id, 1, AtEmit).agents - {Other(n)} == s.agents;
  }

  // What shutdown makes of an entry it finds: resolved as cancelled unless someone was first.
  ghost function EntryShut(e: Entry): Entry {
    if e.done then e
    else e.(done := true, winner := Some(Shutdown), buffer := Some(CancelMark), puts := e.puts + 1, notes := e.notes + 1)
  }

  ghost function ShutDown(s: State): State {
    State(true, {}, map i | i in s.entries :: if i in s.pending then EntryShut(s.entries[i]) else s.entries[i],
          s.callers, s.agents)
  }

  // The state when shutdown has visited the entries ids, having closed the registry in t.
  ghost function DrainedTo(t: State, ids: seq<Id>): State {
    t.(entries := map i | i in t.entries :: if i in ids then EntryShut(t.entries[i]) else t.entries[i],
       agents := t.agents - set d | d in ids :: Drain(d))
  }

  ghost predicate Visits(s: State, id: Id) {
    Drain(id) in s.agents && s.agents[Drain(id)] == Agent(id, Shutdown, AtSwap)
  }

  ghost function Visited(s: State, id: Id): State
    requires id in s.entries
  {
    s.(entries := s.entries[id := EntryShut(s.entries[id])], agents := s.agents - {Drain(id)})
  }

  lemma DrainedNone(t: State)
    ensures DrainedTo(t, []) == t
  {
    assert (set d: Id | d in [] :: Drain(d)) == {};
    assert DrainedTo(t, []).entries == t.entries;
  }

  ghost predicate StopTook(s: State, t: State) {
    && t.closed && t.pending == {} && t.entries == s.entries && t.callers == s.callers
    && s.pending <= s.entries.Keys && (forall d :: d in s.pending ==> Visits(t, d))
    && t.agents - (set d | d in s.pending :: Drain(d)) == s.agents
  }

  lemma StopTakes(s: State)
    requires Inv(s)
    ensures Enabled(s, Stop) && if s.closed then Apply(s, Stop) == s else StopTook(s, Apply(s, Stop))
  {
    hide EnabledMove, ApplyMove;
    if !s.closed {
      var t, ds := Apply(s, Stop), set d | d in s.pending :: Drain(d);
      forall d | d in s.pending ensures Visits(t, d) { assert Drain(d) in ds; }
      assert forall a :: a in ds ==> a !in s.agents;
      assert t.agents - ds == s.agents;
    }
  }

  lemma StillToVisit(t: State, ids: seq<Id>, i: nat)
    requires i < |ids| && ids[i] !in ids[..i] && ids[i] in t.entries && Visits(t, ids[i])
    ensures var u := DrainedTo(t, ids[..i]);
      ids[i] in u.entries && Visits(u, ids[i]) && Visited(u, ids[i]) == DrainedTo(t, ids[..i + 1])
  {
    hide EntryShut;
    var u, v := DrainedTo(t, ids[..i]), DrainedTo(t, ids[..i + 1]);
    assert ids[..i + 1] == ids[..i] + [ids[i]];
    assert (set d | d in ids[..i + 1] :: Drain(d)) == (set d | d in ids[..i] :: Drain(d)) + {Drain(ids[i])};
    assert Visited(u, ids[i]).agents == v.agents;
    assert Visited(u, ids[i]).entries == v.entries;
  }

  lemma DrainedAll(s: State, t: State, ids: seq<Id>)
    requires StopTook(s, t) && forall d :: d in ids <==> d in s.pending
    ensures DrainedTo(t, ids) == ShutDown(s)
  {
    hide EntryShut, Visits;
    assert (set d | d in ids :: Drain(d)) == (set d | d in s.pending :: Drain(d));
    assert DrainedTo(t, ids).entries == ShutDown(s).entries;
  }

  lemma VisitOpens(s: State, id: Id)
    requires Inv(s) && Visits(s, id)
    ensures id in s.entries && Enabled(s, Swap(Drain(id)))
    ensures s.entries[id].done ==> Apply(s, Swap(Drain(id))) == Visited(s, id)
    ensures !s.entries[id].done ==>
      var t := Apply(s, Swap(Drain(id)));
      Enabled(t, Put(Drain(id))) && t.agents[Drain(id)] == Agent(id, Shutdown, AtPut) &&
      var u := Apply(t, Put(Drain(id)));
      Enabled(u, Note(Drain(id))) && Apply(u, Note(Drain(id))) == Visited(s, id)
  {
    assert Good(s, id);
    assert s.entries[id].actor != Some(Drain(id));
    assert s.entries[id].done ==> s.entries[id := s.entries[id]] == s.entries;
    hide Inv, AgentInv;
    if !s.entries[id].done { VisitWins(s, id); }
  }

  lemma VisitWins(s: State, id: Id)
    requires Visits(s, id) && id in s.entries && EntryOk(s.entries[id], Stage(s, s.entries[id]), s.closed)
    requires !s.entries[id].done && s.entries[id].actor.None?
    ensures Enabled(s, Swap(Drain(id)))
    ensures var t := Apply(s, Swap(Drain(id)));
      Enabled(t, Put(Drain(id))) && t.agents[Drain(id)] == Agent(id, Shutdown, AtPut) &&
      var u := Apply(t, Put(Drain(id)));
      Enabled(u, Note(Drain(id))) && Apply(u, Note(Drain(id))) == Visited(s, id)
  {
    hide EnabledOther, ApplyOther;
    var a, e := Drain(id), s.entries[id];
    var t := Apply(s, Swap(a));
    assert t == s.(entries := s.entries[id := e.(done := true, winner := Some(Shutdown), actor := Some(a))],
                   agents := s.agents[a := Agent(id, Shutdown, AtPut)]);
    var u := Apply(t, Put(a));
    assert u.agents[a] == Agent(id, Shutdown, AtNote);
    var v := Apply(u, Note(a));
    assert v.agents == s.agents - {a};
    assert v.entries[id] == EntryShut(e);
    assert v.entries == s.entries[id := EntryShut(e)];
  }

  lemma NotActing(s: State, a: AgentId)
    requires Inv(s) && a !in s.agents
    ensures forall i :: i in s.entries ==> s.entries[i].actor != Some(a)
  {
  }
}
