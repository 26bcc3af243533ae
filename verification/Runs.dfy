/** Runs of a labelled step function: a run is a sequence of labels, each enabled in the
    state the earlier ones reach. The protocols of this project share these definitions. */
module Runs {
  datatype Option<+T> = None | Some(value: T)

  function Exec<S, L>(step: (S, L) -> Option<S>, s: S, ls: seq<L>): Option<S> {
    if ls == [] then Some(s)
    else
      var front := Exec(step, s, ls[..|ls|-1]);
      if front.None? then None else step(front.value, ls[|ls|-1])
  }

  predicate CanRun<S, L>(step: (S, L) -> Option<S>, s: S, ls: seq<L>) {
    Exec(step, s, ls).Some?
  }

  function Run<S, L>(step: (S, L) -> Option<S>, s: S, ls: seq<L>): S
    requires CanRun(step, s, ls)
  {
    Exec(step, s, ls).value
  }

  lemma {:induction false} RunConcat<S, L>(step: (S, L) -> Option<S>, s: S, a: seq<L>, b: seq<L>)
    requires CanRun(step, s, a)
    ensures Exec(step, s, a + b) == Exec(step, Run(step, s, a), b)
  {
    if b == [] {
      assert a + b == a;
    } else {
      var front := b[..|b|-1];
      RunConcat(step, s, a, front);
      assert (a + b)[..|a + b|-1] == a + front;
    }
  }

  lemma RunSnoc<S, L>(step: (S, L) -> Option<S>, s: S, ls: seq<L>, l: L)
    requires CanRun(step, s, ls)
    ensures Exec(step, s, ls + [l]) == step(Run(step, s, ls), l)
  {
    assert (ls + [l])[..|ls + [l]|-1] == ls;
  }

  lemma RunOne<S, L>(step: (S, L) -> Option<S>, s: S, l: L)
    ensures Exec(step, s, [l]) == step(s, l)
  {
    assert [l][..0] == [];
    assert Exec(step, s, [l][..0]) == Some(s);
  }

  // An invariant of the steps is one of the runs.
  lemma {:induction false} RunKeeps<S(!new), L(!new)>(
    step: (S, L) -> Option<S>, inv: S -> bool, s: S, ls: seq<L>)
    requires inv(s) && CanRun(step, s, ls)
    requires forall t, l :: inv(t) && step(t, l).Some? ==> inv(step(t, l).value)
    ensures inv(Run(step, s, ls))
  {
    if ls != [] {
      RunKeeps(step, inv, s, ls[..|ls|-1]);
    }
  }
}
