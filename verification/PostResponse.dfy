/** One request and its after-response callbacks: the handler runs and registers, the response is
    written, the slot is drained. Registration can come from any goroutine at any time, and the
    handler or any callback may panic. */
module PostResponse {
  import opened Runs

  type Callback = nat    // in order of registration

  // What the request does in order: it hands its answer to the Writer, or calls a callback.
  datatype Item = Answer | Fired(cb: Callback)

  // Where the request's goroutine stands. A panic of the handler unwinds through the deferred
  // drain first; a panic of a callback ends the drain; either is answered by the recovery.
  datatype Point = Handling | Answering | Draining | Firing(todo: seq<Callback>) | Recovering | Done

  datatype State = State(
    at: Point, panicked: bool, fns: seq<Callback>,
    // History: how many were registered, when the drain swapped, and the callback that panicked.
    registered: nat, cut: Option<nat>, burst: Option<Callback>,
    out: seq<Item>)

  datatype Label = Register | Return | Panic | Respond | Swap | Fire | Burst | Leave | Recover

  const INIT := State(Handling, false, [], 0, None, None, [])

  predicate Enabled(s: State, l: Label) {
    match l
    case Register => true
    case Return => s.at.Handling?
    case Panic => s.at.Handling?
    case Respond => s.at.Answering?
    case Swap => s.at.Draining?
    case Fire => s.at.Firing? && s.at.todo != []
    case Burst => s.at.Firing? && s.at.todo != []
    case Leave => s.at.Firing? && s.at.todo == []
    case Recover => s.at.Recovering?
  }

  function Apply(s: State, l: Label): State
    requires Enabled(s, l)
  {
    match l
    case Register => s.(fns := s.fns + [s.registered], registered := s.registered + 1)
    case Return => s.(at := Answering)
    case Panic => s.(at := Draining, panicked := true)
    case Respond => s.(at := Draining, out := s.out + [Answer])
    case Swap => s.(at := Firing(s.fns), fns := [], cut := Some(s.registered))
    case Fire => s.(at := Firing(s.at.todo[1..]), out := s.out + [Fired(s.at.todo[0])])
    case Burst => s.(at := Recovering, burst := Some(s.at.todo[0]), out := s.out + [Fired(s.at.todo[0])])
    case Leave => s.(at := if s.panicked then Recovering else Done)
    case Recover => s.(at := Done, out := s.out + [Answer])
  }

  function Step(s: State, l: Label): Option<State> {
    if Enabled(s, l) then Some(Apply(s, l)) else None
  }

  // The callbacks from a to b.
  function From(a: nat, b: nat): seq<Callback>
    requires a <= b
  {
    seq(b - a, i requires 0 <= i => a + i)
  }

  function FiredItems(n: nat): seq<Item> { seq(n, i requires 0 <= i => Fired(i)) }

  function AnswerIf(b: bool): seq<Item> { if b then [Answer] else [] }

  // The handler's own answer is out; the recovery's answer is out.
  predicate AnsweredFirst(s: State) { !s.panicked && !s.at.Handling? && !s.at.Answering? }
  predicate AnsweredLast(s: State) { s.at.Done? && (s.panicked || s.burst.Some?) }

  // How many callbacks were called: up to and with the one that panicked, else all those before
  // the cut that are not still to do.
  function FiredCount(s: State): int {
    if s.burst.Some? then s.burst.value + 1
    else if s.cut.None? then 0
    else s.cut.value - if s.at.Firing? then |s.at.todo| else 0
  }

  /** Everything the request has done: the handler's answer unless it panicked, then the callbacks in
      order of registration, then the recovery's answer if the handler or a callback panicked. */
  ghost predicate Inv(s: State) {
    && (s.cut.Some? <==> s.at.Firing? || s.at.Recovering? || s.at.Done?)
    && (s.cut.Some? ==> s.cut.value <= s.registered)
    && s.fns == From(if s.cut.Some? then s.cut.value else 0, s.registered)
    && (s.burst.Some? ==> (s.at.Recovering? || s.at.Done?) && s.burst.value < s.cut.value)
    && 0 <= FiredCount(s)
    && (s.at.Firing? ==> s.at.todo == From(FiredCount(s), s.cut.value))
    && (s.at.Recovering? ==> s.panicked || s.burst.Some?) && (s.at.Handling? || s.at.Answering? ==> !s.panicked)
    && s.out == AnswerIf(AnsweredFirst(s)) + FiredItems(FiredCount(s)) + AnswerIf(AnsweredLast(s))
  }

  lemma StepInv(s: State, l: Label)
    requires Inv(s) && Enabled(s, l)
    ensures Inv(Apply(s, l))
  {
    if l.Fire? || l.Burst? { CallInv(s, l); } else { OtherInv(s, l); }
  }

  lemma CallInv(s: State, l: Label)
    requires Inv(s) && Enabled(s, l) && (l.Fire? || l.Burst?)
    ensures Inv(Apply(s, l))
  {
    var t, k := Apply(s, l), FiredCount(s);
    assert s.at.todo[0] == k;
    assert FiredItems(k + 1) == FiredItems(k) + [Fired(k)];
    if l.Fire? { assert t.at.todo == From(k + 1, s.cut.value); }
  }

  lemma OtherInv(s: State, l: Label)
    requires Inv(s) && Enabled(s, l) && !l.Fire? && !l.Burst?
    ensures Inv(Apply(s, l))
  {
    var t := Apply(s, l);
    if l.Register? { assert t.fns == From(if s.cut.Some? then s.cut.value else 0, t.registered); }
    if l.Swap? { assert FiredItems(0) == []; }
  }

  lemma RunInv(ls: seq<Label>)
    requires CanRun(Step, INIT, ls)
    ensures Inv(Run(Step, INIT, ls))
  {
    assert From(0, 0) == [] && FiredItems(0) == [];
    forall t, l | Inv(t) && Step(t, l).Some? ensures Inv(Step(t, l).value) { StepInv(t, l); }
    RunKeeps(Step, Inv, INIT, ls);
  }

  predicate Before(out: seq<Item>, x: Item, y: Item) { exists i, j :: 0 <= i < j < |out| && out[i] == x && out[j] == y }

  function Times(out: seq<Item>, x: Item): nat { multiset(out)[x] }

  lemma FiredTimes(n: nat, x: Item)
    ensures Times(FiredItems(n), x) == if x.Fired? && x.cb < n then 1 else 0
  {
    if n > 0 {
      FiredTimes(n - 1, x);
      assert FiredItems(n) == FiredItems(n - 1) + [Fired(n - 1)];
    } else {
      assert FiredItems(n) == [];
    }
  }

  /** A finished request has one answer if and only if the handler panicked or no callback did,
      and two otherwise. It called exactly the callbacks registered before the drain, up to and
      with the first that panicked, each once: all of them if and only if none panicked or only
      the last one did. One registered after the drain is never called. */
  lemma AnswersAndCallbacksExactly(ls: seq<Label>, cb: Callback)
    requires CanRun(Step, INIT, ls) && Run(Step, INIT, ls).at.Done?
    ensures var t := Run(Step, INIT, ls);
      && t.cut.Some? && (t.burst.Some? ==> t.burst.value < t.cut.value)
      && Times(t.out, Answer) == (if t.panicked || t.burst.None? then 1 else 2)
      && Times(t.out, Fired(cb)) == (if cb < t.cut.value && (t.burst.Some? ==> cb <= t.burst.value) then 1 else 0)
      && ((forall c: Callback :: c < t.cut.value ==> Times(t.out, Fired(c)) == 1)
          <==> t.burst.None? || t.burst.value + 1 == t.cut.value)
  {
    RunInv(ls);
    var t := Run(Step, INIT, ls);
    FinishedTimes(t, Answer);
    forall c: Callback
      ensures Times(t.out, Fired(c)) == if c < t.cut.value && (t.burst.Some? ==> c <= t.burst.value) then 1 else 0
    {
      FinishedTimes(t, Fired(c));
    }
    if t.burst.Some? && t.burst.value + 1 < t.cut.value {
      var skipped: Callback := t.burst.value + 1;
      assert Times(t.out, Fired(skipped)) == 0;
    }
  }

  lemma FinishedTimes(t: State, x: Item)
    requires Inv(t) && t.at.Done?
    ensures Times(t.out, x) ==
      if x.Answer? then (if t.panicked || t.burst.None? then 1 else 2) else if x.cb < FiredCount(t) then 1 else 0
  {
    FiredTimes(FiredCount(t), x);
  }

  /** The answer comes before a callback exactly if the handler did not panic; an answer comes
      after it exactly if the handler or some callback did. */
  lemma AfterResponseExactly(ls: seq<Label>, cb: Callback)
    requires CanRun(Step, INIT, ls) && Run(Step, INIT, ls).at.Done? && Fired(cb) in Run(Step, INIT, ls).out
    ensures var t := Run(Step, INIT, ls);
      && (Before(t.out, Answer, Fired(cb)) <==> !t.panicked)
      && (Before(t.out, Fired(cb), Answer) <==> t.panicked || t.burst.Some?)
  {
    RunInv(ls);
    var t := Run(Step, INIT, ls);
    FinishedTimes(t, Fired(cb));
    BeforeAndAfter(!t.panicked, FiredCount(t), t.panicked || t.burst.Some?, cb);
  }

  lemma BeforeAndAfter(first: bool, n: nat, last: bool, cb: Callback)
    requires cb < n
    ensures var out := AnswerIf(first) + FiredItems(n) + AnswerIf(last);
      (Before(out, Answer, Fired(cb)) <==> first) && (Before(out, Fired(cb), Answer) <==> last)
  {
    var out, d := AnswerIf(first) + FiredItems(n) + AnswerIf(last), |AnswerIf(first)|;
    assert forall i :: d <= i < d + n ==> out[i] == Fired(i - d);
    assert out[d + cb] == Fired(cb);
    if first { assert out[0] == Answer; }
    if last { assert out[d + n] == Answer; }
  }

  // A panicking handler's callback goes out before the answer.
  lemma PanicFiresFirst() returns (ls: seq<Label>)
    ensures CanRun(Step, INIT, ls) && Run(Step, INIT, ls).out == [Fired(0), Answer]
  {
    ls := PanickedWithOne();
    RunSnoc(Step, INIT, ls, Fire);
    ls := ls + [Fire];
    RunSnoc(Step, INIT, ls, Leave);
    ls := ls + [Leave];
    RunSnoc(Step, INIT, ls, Recover);
    ls := ls + [Recover];
  }

  lemma PanickedWithOne() returns (ls: seq<Label>)
    ensures CanRun(Step, INIT, ls)
    ensures Run(Step, INIT, ls) == State(Firing([0]), true, [], 1, Some(1), None, [])
  {
    RunOne(Step, INIT, Register);
    RunSnoc(Step, INIT, [Register], Panic);
    var s2 := Apply(Apply(INIT, Register), Panic);
    assert s2.fns == [0];
    RunSnoc(Step, INIT, [Register] + [Panic], Swap);
    ls := [Register] + [Panic] + [Swap];
    assert Run(Step, INIT, ls) == Apply(s2, Swap);
  }

  lemma AnsweredWithTwo() returns (ls: seq<Label>)
    ensures CanRun(Step, INIT, ls)
    ensures Run(Step, INIT, ls) == State(Draining, false, [0, 1], 2, None, None, [Answer])
  {
    RunOne(Step, INIT, Register);
    RunSnoc(Step, INIT, [Register], Register);
    RunSnoc(Step, INIT, [Register] + [Register], Return);
    RunSnoc(Step, INIT, [Register] + [Register] + [Return], Respond);
    ls := [Register] + [Register] + [Return] + [Respond];
  }

  // A callback that panics after the answer: the request is answered again, and the callback
  // behind it is never called.
  lemma CallbackPanicAnswersTwice() returns (ls: seq<Label>)
    ensures CanRun(Step, INIT, ls)
    ensures var t := Run(Step, INIT, ls); t.at.Done? && t.cut == Some(2) && t.out == [Answer, Fired(0), Answer]
  {
    ls := AnsweredWithTwo();
    RunSnoc(Step, INIT, ls, Swap);
    ls := ls + [Swap];
    RunSnoc(Step, INIT, ls, Burst);
    ls := ls + [Burst];
    RunSnoc(Step, INIT, ls, Recover);
    ls := ls + [Recover];
  }

  // The slot and the request, with nothing else running. The callbacks in bad panic.

  class Slot {
    var fns: seq<Callback>

    constructor ()
      ensures fns == []
    {
      fns := [];
    }

    method Register(fn: Callback)
      modifies this
      ensures fns == old(fns) + [fn]
    {
      fns := fns + [fn];
    }

    // Drain: take all under the lock, then call them in order until one panics.
    method RunAll(out: seq<Item>, bad: set<Callback>) returns (after: seq<Item>, ok: bool)
      modifies this
      ensures fns == [] && after == out + AllFired(old(fns)[..Reach(old(fns), bad)])
      ensures ok <==> forall fn :: fn in old(fns) ==> fn !in bad
    {
      var taken := fns;
      fns := [];
      after := out;
      for i := 0 to |taken|
        invariant fns == [] && forall k :: 0 <= k < i ==> taken[k] !in bad
        invariant after == out + AllFired(taken[..i])
        invariant Reach(taken, bad) == i + Reach(taken[i..], bad)
      {
        assert AllFired(taken[..i+1]) == AllFired(taken[..i]) + [Fired(taken[i])];
        after := after + [Fired(taken[i])];
        if taken[i] in bad {
          return after, false;
        }
        assert taken[i..][1..] == taken[i+1..];
      }
      assert taken[..|taken|] == taken;
      return after, true;
    }
  }

  // How many callbacks of a list are called: up to and with the first bad one.
  function Reach(fns: seq<Callback>, bad: set<Callback>): (n: nat)
    ensures n <= |fns| && (n < |fns| ==> n > 0)
    ensures forall i :: 0 <= i < n - 1 ==> fns[i] !in bad
    ensures n == |fns| || fns[n-1] in bad
  {
    if fns == [] then 0 else if fns[0] in bad then 1 else 1 + Reach(fns[1..], bad)
  }

  function AllFired(fns: seq<Callback>): seq<Item> { seq(|fns|, i requires 0 <= i < |fns| => Fired(fns[i])) }

  // How the handler ends: no handler for the method, an error, a result that marshals or not, a panic.
  datatype Outcome = NoHandler | Error | Result(marshals: bool) | Panicked

  // The callbacks called when n are registered: up to and with the first bad one.
  ghost predicate CallsTo(n: nat, bad: set<Callback>, k: nat) {
    k <= n && (forall i :: 0 <= i < k - 1 ==> i !in bad) && (k == n || (k > 0 && k - 1 in bad))
  }

  lemma ReachFrom(n: nat, bad: set<Callback>)
    ensures var k := Reach(From(0, n), bad);
      CallsTo(n, bad, k) && ((k > 0 && k - 1 in bad) <==> exists fn :: fn in From(0, n) && fn in bad)
  {
    var fns := From(0, n);
    var k := Reach(fns, bad);
    assert forall i :: 0 <= i < n ==> fns[i] == i;
    forall i: nat | i + 1 < k ensures i !in bad { assert fns[i] == i; }
    if k > 0 { assert fns[k-1] == k - 1 && fns[k-1] in fns; }
    if fn :| fn in fns && fn in bad { assert fns[fn] == fn; }
  }

  // What a request with these n callbacks does when k of them are called.
  ghost predicate Did(outcome: Outcome, n: nat, bad: set<Callback>, k: nat, out: seq<Item>) {
    CallsTo(n, bad, k) &&
    out == AnswerIf(!outcome.Panicked?) + FiredItems(k) + AnswerIf(outcome.Panicked? || (k > 0 && k - 1 in bad))
  }

  ghost predicate Handled(outcome: Outcome, n: nat, bad: set<Callback>, out: seq<Item>) {
    exists k :: Did(outcome, n, bad, k, out)
  }

  /** A whole request whose handler registers n callbacks, of which those in bad panic. */
  method HandleRequest(outcome: Outcome, n: nat, bad: set<Callback>) returns (out: seq<Item>)
    ensures Handled(outcome, if outcome.NoHandler? then 0 else n, bad, out)
  {
    var slot := new Slot();
    if !outcome.NoHandler? {
      for i := 0 to n
        invariant slot.fns == From(0, i)
      {
        slot.Register(i);
      }
    }
    var m := if outcome.NoHandler? then 0 else n;
    assert slot.fns == From(0, m);
    ghost var k := Reach(slot.fns, bad);
    ReachFrom(m, bad);
    assert AllFired(slot.fns[..k]) == FiredItems(k);
    out := if outcome.Panicked? then [] else [Answer];
    ghost var before := out;
    var ok;
    out, ok := slot.RunAll(out, bad);
    assert out == before + FiredItems(k) && (ok <==> !(k > 0 && k - 1 in bad));
    if outcome.Panicked? || !ok {
      out := out + [Answer];
    } else {
      assert out == out + AnswerIf(false);
    }
    assert Did(outcome, m, bad, k, out);
  }
}
