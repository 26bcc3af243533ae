/** The server's own session state: the live map, the loading marks, the tombstone files and the
    ready flag and WaitGroup count of each session object, with each region proved to take the
    protocol's step. What handlers stand where is history. */
module SessionServer {
  import opened Runs
  import opened SessionProtocol
  import opened SessionSafety

  datatype Object = Object(ready: bool, turns: nat)

  class Server {
    var sessions: map<Id, Ref>
    var loading: set<Id>
    var tombstones: set<Id>
    var objects: map<Ref, Object>
    ghost var s: State

    ghost predicate Valid()
      reads this
    {
      Inv(s) && Tied()
    }

    // The fields are what the protocol's state says.
    ghost predicate Tied()
      reads this
    {
      sessions == s.sessions && loading == s.loading.Keys && tombstones == s.tombs && ObjectsAre(objects, s.states)
    }

    constructor ()
      ensures Valid() && s == INIT
    {
      sessions, loading, tombstones, objects, s := map[], {}, {}, map[], INIT;
      new;
      InitInv();
    }

    // The protocol's step, as history.
    ghost method Record(l: Label)
      requires Enabled(s, l) && Inv(s)
      modifies this`s
      ensures s == Apply(old(s), l) && Inv(s)
    {
      hide Inv;
      StepInv(s, l);
      s := Apply(s, l);
    }

    // session/new: ready from the start.
    method InsertNew(id: Id, st: Ref)
      requires Enabled(s, New(id, st)) && Valid()
      modifies this
      ensures s == Apply(old(s), New(id, st)) && Valid()
      ensures sessions == old(sessions)[id := st] && objects == old(objects)[st := Object(true, 0)]
      ensures loading == old(loading) && tombstones == old(tombstones)
    {
      hide Inv;
      Record(New(id, st));
      objects := objects[st := Object(true, 0)];
      sessions := sessions[id := st];
    }

    // The registration guard of session/load: both tests and the mark in one region.
    method GuardLoad(ghost n: nat, id: Id, st: Ref) returns (admitted: bool)
      requires Enabled(s, LoadGuard(n, st)) && s.loads[n].id == id && Valid()
      modifies this
      ensures s == Apply(old(s), LoadGuard(n, st)) && Valid()
      ensures admitted == (id !in old(sessions) && id !in old(loading))
      ensures sessions == old(sessions) && loading == old(loading) + if admitted then {id} else {}
      ensures objects == (if admitted then old(objects)[st := Object(false, 0)] else old(objects)) && tombstones == old(tombstones)
    {
      hide Inv;
      Record(LoadGuard(n, st));
      if id in sessions || id in loading {
        return false;
      }
      loading := loading + {id};
      objects := objects[st := Object(false, 0)];
      return true;
    }

    // The last region of session/load: look for a tombstone again, then insert.
    method InsertLoaded(ghost n: nat, id: Id, st: Ref) returns (ok: bool)
      requires Enabled(s, LoadInsert(n)) && s.loads[n].id == id && s.loads[n].at.st == st && Valid()
      modifies this
      ensures s == Apply(old(s), LoadInsert(n)) && Valid()
      ensures ok == (id !in tombstones)
      ensures sessions == if ok then old(sessions)[id := st] else old(sessions)
      ensures objects == old(objects) && loading == old(loading) && tombstones == old(tombstones)
    {
      hide Inv;
      Record(LoadInsert(n));
      if id in tombstones {
        return false;
      }
      sessions := sessions[id := st];
      return true;
    }

    method SetReady(ghost n: nat, st: Ref)
      requires Enabled(s, LoadReady(n)) && s.loads[n].at.st == st && Valid()
      modifies this
      ensures s == Apply(old(s), LoadReady(n)) && Valid()
      ensures st in old(objects) && objects == old(objects)[st := old(objects)[st].(ready := true)]
      ensures sessions == old(sessions) && loading == old(loading) && tombstones == old(tombstones)
    {
      hide Inv;
      Record(LoadReady(n));
      objects := objects[st := objects[st].(ready := true)];
    }

    method EndLoading(ghost n: nat, id: Id)
      requires Enabled(s, LoadEnd(n)) && s.loads[n].id == id && Valid()
      modifies this
      ensures s == Apply(old(s), LoadEnd(n)) && Valid()
      ensures loading == old(loading) - {id}
      ensures sessions == old(sessions) && objects == old(objects) && tombstones == old(tombstones)
    {
      hide Inv;
      Record(LoadEnd(n));
      loading := loading - {id};
    }

    method FindForPrompt(ghost p: nat, id: Id) returns (found: Option<Ref>)
      requires Enabled(s, PromptLookup(p, id)) && Valid()
      modifies this`s
      ensures s == Apply(old(s), PromptLookup(p, id)) && Valid()
      ensures found == if id in sessions then Some(sessions[id]) else None
    {
      hide Inv;
      Record(PromptLookup(p, id));
      found := if id in sessions then Some(sessions[id]) else None;
    }

    // The ready gate.
    method IsReady(ghost p: nat, st: Ref) returns (ready: bool)
      requires Enabled(s, PromptGate(p)) && s.prompts[p].st == st && Valid()
      modifies this`s
      ensures s == Apply(old(s), PromptGate(p)) && Valid()
      ensures st in objects && ready == objects[st].ready
      ensures ready ==> p in s.prompts && s.prompts[p] == old(s).prompts[p].(at := Gated)
    {
      hide Inv;
      Record(PromptGate(p));
      ready := objects[st].ready;
    }

    // Add on the session's WaitGroup.
    method AddTurn(ghost p: nat, st: Ref)
      requires Enabled(s, PromptAdd(p)) && s.prompts[p].st == st && Valid()
      modifies this
      ensures s == Apply(old(s), PromptAdd(p)) && Valid()
      ensures st in old(objects) && objects == old(objects)[st := old(objects)[st].(turns := old(objects)[st].turns + 1)]
      ensures sessions == old(sessions) && loading == old(loading) && tombstones == old(tombstones)
    {
      hide Inv;
      Record(PromptAdd(p));
      objects := objects[st := objects[st].(turns := objects[st].turns + 1)];
    }

    // Done on the session's WaitGroup.
    method DoneTurn(ghost l: Label, ghost p: nat, st: Ref)
      requires (l == TurnEnd(p) || l == PromptRefuse(p)) && Enabled(s, l) && s.prompts[p].st == st && Valid()
      modifies this
      ensures s == Apply(old(s), l) && Valid()
      ensures st in old(objects) && old(objects)[st].turns > 0
      ensures objects == old(objects)[st := old(objects)[st].(turns := old(objects)[st].turns - 1)]
      ensures sessions == old(sessions) && loading == old(loading) && tombstones == old(tombstones)
    {
      hide Inv;
      Record(l);
      objects := objects[st := objects[st].(turns := objects[st].turns - 1)];
    }

    // The liveness test, by identity.
    method ConfirmTurn(ghost p: nat, id: Id, st: Ref) returns (live: bool)
      requires Enabled(s, PromptConfirm(p)) && s.prompts[p].st == st && s.prompts[p].id == id && Valid()
      modifies this`s
      ensures s == Apply(old(s), PromptConfirm(p)) && Valid()
      ensures live == (id in sessions && sessions[id] == st)
    {
      hide Inv;
      Record(PromptConfirm(p));
      live := id in sessions && sessions[id] == st;
    }

    /** A whole registration with nothing else running: the turn counts exactly if the state the
        gate vetted is still the live one, and a refusal leaves no trace in the WaitGroup. */
    method RegisterTurn(ghost p: nat, id: Id, st: Ref) returns (ok: bool)
      requires Enabled(s, PromptAdd(p)) && s.prompts[p].st == st && s.prompts[p].id == id && Valid()
      modifies this
      ensures Valid() && sessions == old(sessions)
      ensures ok == (id in sessions && sessions[id] == st)
      ensures st in old(objects)
      ensures objects == if ok then old(objects)[st := old(objects)[st].(turns := old(objects)[st].turns + 1)]
                         else old(objects)
      ensures ok ==> p in s.prompts && s.prompts[p].at.Running?
    {
      AddSteps(s, p);
      hide Inv, Apply, Enabled;
      AddTurn(p, st);
      ok := ConfirmTurn(p, id, st);
      if !ok {
        DoneTurn(PromptRefuse(p), p, st);
        assert objects == old(objects);
      }
    }

    // The marker file of session/delete; writing it may fail.
    method WriteTombstone(ghost c: nat, id: Id, ok: bool)
      requires Enabled(s, Tombstone(c, ok)) && s.closes[c].id == id && Valid()
      modifies this
      ensures s == Apply(old(s), Tombstone(c, ok)) && Valid()
      ensures tombstones == old(tombstones) + if ok then {id} else {}
      ensures sessions == old(sessions) && loading == old(loading) && objects == old(objects)
    {
      hide Inv;
      Record(Tombstone(c, ok));
      if ok {
        tombstones := tombstones + {id};
      }
    }

    method FindForClose(ghost c: nat, id: Id) returns (found: Option<Ref>)
      requires Enabled(s, CloseLookup(c)) && s.closes[c].id == id && Valid()
      modifies this`s
      ensures s == Apply(old(s), CloseLookup(c)) && Valid()
      ensures found == if id in sessions then Some(sessions[id]) else None
    {
      hide Inv;
      Record(CloseLookup(c));
      found := if id in sessions then Some(sessions[id]) else None;
    }

    // The bounded wait: it returns drained once the count is zero, or gives up.
    method WaitTurnDrain(ghost c: nat, st: Ref, giveUp: bool) returns (drained: bool)
      requires Enabled(s, DrainTimeout(c)) && s.closes[c].at.st == st && Valid()
      requires st in objects && (objects[st].turns == 0 || giveUp)
      modifies this`s
      ensures s == Apply(old(s), if giveUp then DrainTimeout(c) else DrainReturn(c)) && Valid()
      ensures drained ==> objects[st].turns == 0
      ensures drained == !giveUp
    {
      hide Inv;
      Record(if giveUp then DrainTimeout(c) else DrainReturn(c));
      return !giveUp;
    }

    // The map entry goes by id, whatever state it names by now.
    method RemoveSession(ghost c: nat, id: Id)
      requires Enabled(s, Remove(c)) && s.closes[c].id == id && Valid()
      modifies this
      ensures s == Apply(old(s), Remove(c)) && Valid()
      ensures sessions == old(sessions) - {id}
      ensures loading == old(loading) && tombstones == old(tombstones) && objects == old(objects)
    {
      hide Inv;
      Record(Remove(c));
      sessions := sessions - {id};
    }

    /** A whole close with nothing else running, for a session whose turns have returned or whose
        drain is given up: the id alone leaves the live map. */
    method CloseSessionSequence(ghost c: nat, id: Id, giveUp: bool)
      requires Enabled(s, CloseLookup(c)) && s.closes[c].id == id && Valid()
      requires id in sessions && sessions[id] in objects ==> objects[sessions[id]].turns == 0 || giveUp
      modifies this
      ensures Valid() && sessions == old(sessions) - {id}
      ensures loading == old(loading) && tombstones == old(tombstones) && objects == old(objects)
      ensures c in s.closes && s.closes[c].id == id && s.closes[c].at.Closed? && s.closes[c].tombed == old(s).closes[c].tombed
    {
      LiveIsKnown(s, id);
      LookupSteps(s, c);
      hide Inv, Apply, Enabled;
      var found := FindForClose(c, id);
      if found.None? {
        assert sessions == old(sessions) - {id};
        return;
      }
      DrainSteps(s, c, giveUp);
      var drained := WaitTurnDrain(c, found.value, giveUp);
      ReapSteps(s, c);
      Record(Reap(c));
      RemoveSession(c, id);
    }

    /** A whole delete with nothing else running: the marker first, then the close. */
    method DeleteSession(ghost c: nat, id: Id, tombOk: bool, giveUp: bool)
      requires Enabled(s, Tombstone(c, tombOk)) && s.closes[c].id == id && !s.closes[c].tombed && Valid()
      requires id in sessions && sessions[id] in objects ==> objects[sessions[id]].turns == 0 || giveUp
      modifies this
      ensures Valid() && sessions == old(sessions) - {id}
      ensures tombstones == old(tombstones) + if tombOk then {id} else {}
      ensures c in s.closes && s.closes[c].at.Closed? && s.closes[c].tombed == tombOk
    {
      hide Inv;
      WriteTombstone(c, id, tombOk);
      CloseSessionSequence(c, id, giveUp);
    }
  }

  ghost predicate ObjectsAre(objects: map<Ref, Object>, states: map<Ref, Session>) {
    objects.Keys == states.Keys && forall r :: r in objects ==> objects[r] == Object(states[r].ready, states[r].turns)
  }

  // A registration's steps.
  lemma AddSteps(s: State, p: nat)
    requires Enabled(s, PromptAdd(p))
    ensures var t, q := Apply(s, PromptAdd(p)), s.prompts[p];
            && p in t.prompts && t.prompts[p] == q.(at := Added, addedAt := s.clock)
            && Enabled(t, PromptConfirm(p))
            && var u := Apply(t, PromptConfirm(p));
               p in u.prompts && u.prompts[p].st == q.st &&
               if q.id in t.sessions && t.sessions[q.id] == q.st then u.prompts[p].at.Running?
               else Enabled(u, PromptRefuse(p))
  {
  }

  // A close's steps, as moves of its own point.

  lemma LookupSteps(s: State, c: nat)
    requires Enabled(s, CloseLookup(c))
    ensures var id := s.closes[c].id;
            Apply(s, CloseLookup(c)) == MoveClose(s, c, if id in s.sessions then Draining(s.sessions[id]) else Closed)
  {
  }

  lemma DrainSteps(s: State, c: nat, giveUp: bool)
    requires c in s.closes && s.closes[c].at.Draining?
    ensures Enabled(s, DrainTimeout(c))
    ensures giveUp || Enabled(s, DrainReturn(c)) ==>
              Apply(s, if giveUp then DrainTimeout(c) else DrainReturn(c)) ==
              MoveClose(s, c, Drained(s.closes[c].at.st, giveUp, s.clock))
    ensures s.closes[c].at.st in s.states && s.states[s.closes[c].at.st].turns == 0 ==> Enabled(s, DrainReturn(c))
  {
  }

  lemma ReapSteps(s: State, c: nat)
    requires c in s.closes && s.closes[c].at.Drained?
    ensures var at := s.closes[c].at;
            var t := MoveClose(s, c, Reaped(at.st, at.timedOut, at.since));
            && Enabled(s, Reap(c)) && Apply(s, Reap(c)) == t
            && Enabled(t, Remove(c))
            && Apply(t, Remove(c)) == MoveClose(t, c, Closed).(sessions := t.sessions - {t.closes[c].id})
  {
  }

  lemma LiveIsKnown(s: State, id: Id)
    requires Inv(s)
    ensures id in s.sessions ==> s.sessions[id] in s.states
  {
    assert LiveOk(s, id);
  }
}
