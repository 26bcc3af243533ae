/** Mining the work log for repeated tool sequences: windows of two to four names, counted,
    kept from three occurrences on, and thinned to those no longer sequence subsumes. */
module SequenceMining {
  import opened Sets

  type Name = string
  datatype Proposal = Proposal(steps: seq<Name>, occurrences: nat)
  datatype Counted = Counted(steps: seq<Name>, n: nat)

  const MIN_LEN := 2
  const MAX_LEN := 4
  const ENOUGH := 3

  // small stands in big at position i.
  predicate At(small: seq<Name>, big: seq<Name>, i: int) {
    0 <= i && i + |small| <= |big| && big[i..i+|small|] == small
  }

  predicate Inside(small: seq<Name>, big: seq<Name>) {
    small != [] && exists i :: 0 <= i <= |big| && At(small, big, i)
  }

  // The start positions of w in tools before m, and all of them.
  function StartsBefore(w: seq<Name>, tools: seq<Name>, m: int): set<int> {
    set i | 0 <= i < m && At(w, tools, i)
  }

  function Occurrences(w: seq<Name>, tools: seq<Name>): nat {
    |StartsBefore(w, tools, |tools| + 1)|
  }

  predicate Frequent(w: seq<Name>, tools: seq<Name>) {
    MIN_LEN <= |w| <= MAX_LEN && Occurrences(w, tools) >= ENOUGH
  }

  predicate Subsumes(q: Proposal, p: Proposal) {
    |q.steps| > |p.steps| && q.occurrences >= p.occurrences && Inside(p.steps, q.steps)
  }

  // Keys: names joined by a bar.

  function Join(names: seq<Name>): string {
    if names == [] then "" else if |names| == 1 then names[0] else names[0] + "|" + Join(names[1..])
  }

  predicate BarFree(names: seq<Name>) { forall i :: 0 <= i < |names| ==> '|' !in names[i] }

  lemma SplitAtBar(a: string, x: string, b: string, y: string)
    requires '|' !in a && '|' !in b && a + "|" + x == b + "|" + y
    ensures a == b && x == y
  {
    var s := a + "|" + x;
    assert s == b + "|" + y;
    assert s[|a|] == '|' && s[|b|] == '|';
    assert forall i :: 0 <= i < |a| ==> s[i] == a[i];
    assert forall i :: 0 <= i < |b| ==> s[i] == b[i];
    assert |a| == |b|;
    assert a == s[..|a|] && b == s[..|b|];
    assert x == s[|a|+1..] && y == s[|b|+1..];
  }

  lemma JoinHasBar(a: seq<Name>)
    requires |a| > 1
    ensures '|' in Join(a)
  {
    assert (a[0] + "|" + Join(a[1..]))[|a[0]|] == '|';
  }

  // Without bars in the names, a key determines its window, whatever the lengths.
  lemma {:induction false} JoinInjective(a: seq<Name>, b: seq<Name>)
    requires a != [] && b != [] && BarFree(a) && BarFree(b) && Join(a) == Join(b)
    ensures a == b
  {
    if |a| > 1 { JoinHasBar(a); }
    if |b| > 1 { JoinHasBar(b); }
    if |a| > 1 && |b| > 1 {
      SplitAtBar(a[0], Join(a[1..]), b[0], Join(b[1..]));
      JoinInjective(a[1..], b[1..]);
      assert a == [a[0]] + a[1..] && b == [b[0]] + b[1..];
    }
  }

  // With a bar in a name two different windows share a key, so one is counted as the other.
  lemma BarsCollide()
    ensures Join(["a|b", "c"]) == Join(["a", "b|c"]) && ["a|b", "c"] != ["a", "b|c"]
  {
    assert Join(["c"]) == "c" && Join(["b|c"]) == "b|c";
    assert ["a|b", "c"][1..] == ["c"] && ["a", "b|c"][1..] == ["b|c"];
    assert Join(["a|b", "c"]) == "a|b" + "|" + "c" == "a|b|c";
    assert Join(["a", "b|c"]) == "a" + "|" + "b|c" == "a|b|c";
    assert ["a|b", "c"][0] != ["a", "b|c"][0];
  }

  // Counting, by key.

  predicate IsWindow(w: seq<Name>) { MIN_LEN <= |w| <= MAX_LEN }

  // The window of this length at i has the key.
  predicate KeyAt(key: string, tools: seq<Name>, len: int, i: int) {
    0 <= len && 0 <= i && i + len <= |tools| && Join(tools[i..i+len]) == key
  }

  function KeyStarts(key: string, tools: seq<Name>, len: int, m: int): set<int> {
    set i | 0 <= i < m && KeyAt(key, tools, len, i)
  }

  // How many windows with the key the counting loops have passed when they stand at (len, m).
  function Passed(key: string, tools: seq<Name>, len: int, m: int): nat
    decreases len
  {
    if len < MIN_LEN then 0
    else |KeyStarts(key, tools, len, m)| + Passed(key, tools, len - 1, |tools| + 1)
  }

  function KeyCount(key: string, tools: seq<Name>): nat { Passed(key, tools, MAX_LEN, |tools| + 1) }

  predicate Earlier(len: int, i: int, len': int, i': int) { len < len' || (len == len' && i <= i') }

  // The window with the key that the loops come to first stands at (len, i).
  ghost predicate FirstAt(key: string, tools: seq<Name>, len: int, i: int) {
    && MIN_LEN <= len <= MAX_LEN && KeyAt(key, tools, len, i)
    && forall l, j :: MIN_LEN <= l <= MAX_LEN && KeyAt(key, tools, l, j) ==> Earlier(len, i, l, j)
  }

  ghost predicate IsFirst(tools: seq<Name>, w: seq<Name>) {
    exists i :: FirstAt(Join(w), tools, |w|, i) && w == tools[i..i+|w|]
  }

  lemma OneMoreStart(key: string, tools: seq<Name>, len: int, i: int)
    requires 0 <= i
    ensures |KeyStarts(key, tools, len, i + 1)| ==
            |KeyStarts(key, tools, len, i)| + if KeyAt(key, tools, len, i) then 1 else 0
  {
    assert KeyStarts(key, tools, len, i + 1) ==
           KeyStarts(key, tools, len, i) + if KeyAt(key, tools, len, i) then {i} else {};
  }

  // Positions too late for the length hold none.
  lemma AllStarts(key: string, tools: seq<Name>, len: int, m: int)
    requires |tools| - len < m && 0 <= len
    ensures KeyStarts(key, tools, len, m) == KeyStarts(key, tools, len, |tools| + 1)
  {
  }

  // A window that has been passed is counted.
  lemma {:induction false} PassedCounts(key: string, tools: seq<Name>, len: int, m: int, l: int, j: int)
    requires MIN_LEN <= l && KeyAt(key, tools, l, j) && (l < len || (l == len && j < m))
    ensures Passed(key, tools, len, m) > 0
    decreases len
  {
    if l == len { assert j in KeyStarts(key, tools, len, m); }
    else { PassedCounts(key, tools, len - 1, |tools| + 1, l, j); }
  }

  // An entry belongs to its key, holds the first window with it, and has the count so far.
  ghost predicate EntryOk(tools: seq<Name>, counts: map<string, Counted>, k: string, len: int, i: int) {
    k in counts ==>
      IsWindow(counts[k].steps) && Join(counts[k].steps) == k && IsFirst(tools, counts[k].steps) &&
      counts[k].n == Passed(k, tools, len, i) && counts[k].n > 0
  }

  // The table is right for the position (len, i), and every key seen so far has an entry.
  ghost predicate TableOk(tools: seq<Name>, counts: map<string, Counted>, order: seq<string>, len: int, i: int) {
    && (forall k :: k in counts <==> k in order)
    && (forall a, b :: 0 <= a < b < |order| ==> order[a] != order[b])
    && (forall k :: EntryOk(tools, counts, k, len, i))
    && (forall k :: Passed(k, tools, len, i) > 0 ==> k in counts)
  }

  // One turn of the counting loop.
  function Bump(counts: map<string, Counted>, w: seq<Name>): map<string, Counted> {
    var k := Join(w);
    counts[k := if k in counts then counts[k].(n := counts[k].n + 1) else Counted(w, 1)]
  }

  // A window not seen before is the first with its key.
  lemma NewIsFirst(tools: seq<Name>, len: int, i: int)
    requires MIN_LEN <= len <= MAX_LEN && 0 <= i && i + len <= |tools|
    requires Passed(Join(tools[i..i+len]), tools, len, i) == 0
    ensures IsFirst(tools, tools[i..i+len])
  {
    var w := tools[i..i+len];
    forall l, j | MIN_LEN <= l <= MAX_LEN && KeyAt(Join(w), tools, l, j) ensures Earlier(len, i, l, j) {
      if !Earlier(len, i, l, j) { PassedCounts(Join(w), tools, len, i, l, j); }
    }
    assert FirstAt(Join(w), tools, |w|, i);
  }

  lemma PassedNext(key: string, tools: seq<Name>, len: int, i: int)
    requires MIN_LEN <= len && 0 <= i
    ensures Passed(key, tools, len, i + 1) == Passed(key, tools, len, i) + if KeyAt(key, tools, len, i) then 1 else 0
  {
    OneMoreStart(key, tools, len, i);
  }

  lemma TableBump(tools: seq<Name>, counts: map<string, Counted>, order: seq<string>, len: int, i: int)
    requires MIN_LEN <= len <= MAX_LEN && 0 <= i && i + len <= |tools|
    requires TableOk(tools, counts, order, len, i)
    ensures var w := tools[i..i+len];
      TableOk(tools, Bump(counts, w), if Join(w) in counts then order else order + [Join(w)], len, i + 1)
  {
    hide Passed, IsFirst, Join;
    var w := tools[i..i+len];
    var k := Join(w);
    var after := Bump(counts, w);
    assert KeyAt(k, tools, len, i);
    forall j ensures Passed(j, tools, len, i + 1) == Passed(j, tools, len, i) + if j == k then 1 else 0 {
      PassedNext(j, tools, len, i);
    }
    if k !in counts { NewIsFirst(tools, len, i); }
    var next := i + 1;
    forall j ensures EntryOk(tools, after, j, len, next) {
      assert EntryOk(tools, counts, j, len, i);
    }
  }

  // The loops have finished one length and start the next.
  lemma TableNext(tools: seq<Name>, counts: map<string, Counted>, order: seq<string>, len: int, i: int)
    requires TableOk(tools, counts, order, len, i) && MIN_LEN <= len && 0 <= i && |tools| < i + len
    ensures TableOk(tools, counts, order, len + 1, 0)
  {
    hide IsFirst, Join;
    forall k ensures Passed(k, tools, len + 1, 0) == Passed(k, tools, len, i) {
      AllStarts(k, tools, len, i);
      assert KeyStarts(k, tools, len + 1, 0) == {};
      assert Passed(k, tools, len + 1, 0) == Passed(k, tools, len, |tools| + 1);
    }
    var next := len + 1;
    forall k ensures EntryOk(tools, counts, k, next, 0) { assert EntryOk(tools, counts, k, len, i); }
  }

  lemma TableStart(tools: seq<Name>)
    ensures TableOk(tools, map[], [], MIN_LEN, 0)
  {
    forall k ensures Passed(k, tools, MIN_LEN, 0) == 0 { assert KeyStarts(k, tools, MIN_LEN, 0) == {}; }
  }

  method CountWindows(tools: seq<Name>) returns (counts: map<string, Counted>, order: seq<string>)
    ensures TableOk(tools, counts, order, MAX_LEN + 1, 0)
  {
    hide TableOk;
    counts, order := map[], [];
    var len := MIN_LEN;
    TableStart(tools);
    while len <= MAX_LEN
      invariant MIN_LEN <= len <= MAX_LEN + 1
      invariant TableOk(tools, counts, order, len, 0)
    {
      var i := 0;
      while i + len <= |tools|
        invariant 0 <= i
        invariant TableOk(tools, counts, order, len, i)
        decreases |tools| - i
      {
        var key := Join(tools[i..i+len]);
        TableBump(tools, counts, order, len, i);
        if key in counts {
          counts := counts[key := counts[key].(n := counts[key].n + 1)];
        } else {
          counts := counts[key := Counted(tools[i..i+len], 1)];
          order := order + [key];
        }
        i := i + 1;
      }
      TableNext(tools, counts, order, len, i);
      len := len + 1;
    }
  }

  method IsContiguousSubSlice(small: seq<Name>, big: seq<Name>) returns (found: bool)
    ensures found <==> Inside(small, big)
  {
    if |small| == 0 || |small| > |big| {
      return false;
    }
    var i := 0;
    while i + |small| <= |big|
      invariant 0 <= i <= |big| + 1
      invariant forall j :: 0 <= j < i ==> !At(small, big, j)
      decreases |big| - i
    {
      var match_ := true;
      var k := 0;
      while k < |small| && match_
        invariant 0 <= k <= |small|
        invariant match_ ==> forall m :: 0 <= m < k ==> big[i+m] == small[m]
        invariant !match_ ==> !At(small, big, i)
        decreases |small| - k, match_
      {
        if big[i+k] != small[k] {
          match_ := false;
          assert big[i..i+|small|][k] != small[k];
        } else {
          k := k + 1;
        }
      }
      if match_ {
        assert At(small, big, i);
        return true;
      }
      i := i + 1;
    }
    return false;
  }

  // Keeping the frequent ones.

  predicate DistinctSteps(ps: seq<Proposal>) {
    forall i, j :: 0 <= i < j < |ps| ==> ps[i].steps != ps[j].steps
  }

  // The first window with a key that enough windows have, with that number.
  ghost predicate Listed(tools: seq<Name>, p: Proposal) {
    IsFirst(tools, p.steps) && p.occurrences == KeyCount(Join(p.steps), tools) >= ENOUGH
  }

  ghost predicate AllListed(tools: seq<Name>, ps: seq<Proposal>) {
    DistinctSteps(ps) && forall p :: p in ps <==> Listed(tools, p)
  }

  predicate Entry(counts: map<string, Counted>, key: string, p: Proposal) {
    key in counts && p == Proposal(counts[key].steps, counts[key].n)
  }

  method KeepFrequent(tools: seq<Name>, counts: map<string, Counted>, order: seq<string>) returns (ps: seq<Proposal>)
    requires TableOk(tools, counts, order, MAX_LEN + 1, 0)
    ensures AllListed(tools, ps)
  {
    hide KeptFrom, TableOk;
    ps := [];
    KeptFromNone(counts);
    for k := 0 to |order|
      invariant KeptFrom(counts, order[..k], ps)
    {
      TableKey(tools, counts, order, k);
      var c := counts[order[k]];
      assert order[..k+1] == order[..k] + [order[k]];
      KeepOne(counts, order[..k], order[k], ps);
      if c.n >= ENOUGH {
        ps := ps + [Proposal(c.steps, c.n)];
      }
    }
    assert order[..|order|] == order;
    KeptIsFrequent(tools, counts, order, ps);
  }

  // The frequent entries among the keys, each once.
  ghost predicate KeptFrom(counts: map<string, Counted>, keys: seq<string>, ps: seq<Proposal>) {
    && (forall p :: p in ps ==> p.occurrences >= ENOUGH && Join(p.steps) in keys && Entry(counts, Join(p.steps), p))
    && (forall j :: 0 <= j < |keys| && keys[j] in counts && counts[keys[j]].n >= ENOUGH ==>
          Proposal(counts[keys[j]].steps, counts[keys[j]].n) in ps)
    && DistinctSteps(ps)
  }

  lemma KeptFromNone(counts: map<string, Counted>)
    ensures KeptFrom(counts, [], [])
  {
  }

  lemma TableKey(tools: seq<Name>, counts: map<string, Counted>, order: seq<string>, k: nat)
    requires TableOk(tools, counts, order, MAX_LEN + 1, 0) && k < |order|
    ensures order[k] in counts && order[k] !in order[..k] && Join(counts[order[k]].steps) == order[k]
  {
    assert order[k] in order && EntryOk(tools, counts, order[k], MAX_LEN + 1, 0);
  }

  lemma KeepOne(counts: map<string, Counted>, keys: seq<string>, key: string, ps: seq<Proposal>)
    requires KeptFrom(counts, keys, ps) && key in counts && key !in keys && Join(counts[key].steps) == key
    ensures var c := counts[key];
            KeptFrom(counts, keys + [key], if c.n >= ENOUGH then ps + [Proposal(c.steps, c.n)] else ps)
  {
    var all := keys + [key];
    assert forall k :: k in all <==> k in keys || k == key;
  }

  lemma KeptIsFrequent(tools: seq<Name>, counts: map<string, Counted>, order: seq<string>, ps: seq<Proposal>)
    requires TableOk(tools, counts, order, MAX_LEN + 1, 0) && KeptFrom(counts, order, ps)
    ensures AllListed(tools, ps)
  {
    forall p ensures p in ps <==> Listed(tools, p) {
      if p in ps {
        EntryIsListed(tools, counts, order, p);
      }
      if Listed(tools, p) {
        ListedHasEntry(tools, counts, order, p);
        var j :| 0 <= j < |order| && order[j] == Join(p.steps);
        assert Proposal(counts[order[j]].steps, counts[order[j]].n) == p;
      }
    }
  }

  lemma FinalCount(tools: seq<Name>, key: string)
    ensures Passed(key, tools, MAX_LEN + 1, 0) == KeyCount(key, tools)
  {
    assert KeyStarts(key, tools, MAX_LEN + 1, 0) == {};
  }

  lemma EntryIsListed(tools: seq<Name>, counts: map<string, Counted>, order: seq<string>, p: Proposal)
    requires TableOk(tools, counts, order, MAX_LEN + 1, 0)
    requires p.occurrences >= ENOUGH && Entry(counts, Join(p.steps), p)
    ensures Listed(tools, p)
  {
    hide Passed;
    assert EntryOk(tools, counts, Join(p.steps), MAX_LEN + 1, 0);
    FinalCount(tools, Join(p.steps));
  }

  // There is one first window for a key.
  lemma FirstIsOne(tools: seq<Name>, v: seq<Name>, w: seq<Name>)
    requires IsFirst(tools, v) && IsFirst(tools, w) && Join(v) == Join(w)
    ensures v == w
  {
    hide Join;
    var i :| FirstAt(Join(v), tools, |v|, i) && v == tools[i..i+|v|];
    var j :| FirstAt(Join(w), tools, |w|, j) && w == tools[j..j+|w|];
  }

  lemma ListedHasEntry(tools: seq<Name>, counts: map<string, Counted>, order: seq<string>, p: Proposal)
    requires TableOk(tools, counts, order, MAX_LEN + 1, 0) && Listed(tools, p)
    ensures Entry(counts, Join(p.steps), p) && Join(p.steps) in order
  {
    hide Passed, IsFirst;
    var key := Join(p.steps);
    FinalCount(tools, key);
    assert EntryOk(tools, counts, key, MAX_LEN + 1, 0);
    FirstIsOne(tools, counts[key].steps, p.steps);
  }

  // Thinning.

  predicate Survives(ps: seq<Proposal>, p: Proposal) { forall q :: q in ps ==> !Subsumes(q, p) }

  method DedupeSubsumed(ps: seq<Proposal>) returns (out: seq<Proposal>)
    requires DistinctSteps(ps)
    ensures DistinctSteps(out)
    ensures forall p :: p in out <==> p in ps && Survives(ps, p)
  {
    out := [];
    for i := 0 to |ps|
      invariant forall p :: p in out <==> p in ps[..i] && Survives(ps, p)
      invariant DistinctSteps(out)
    {
      var sub := ps[i];
      var dropped := false;
      var j := 0;
      while j < |ps| && !dropped
        invariant 0 <= j <= |ps|
        invariant dropped <==> !(forall k :: 0 <= k < j ==> !Subsumes(ps[k], sub))
        decreases |ps| - j, !dropped
      {
        var other := ps[j];
        if i != j && |other.steps| > |sub.steps| && other.occurrences >= sub.occurrences {
          dropped := IsContiguousSubSlice(sub.steps, other.steps);
        }
        j := j + 1;
      }
      assert dropped <==> !Survives(ps, sub);
      assert ps[..i+1] == ps[..i] + [sub];
      if !dropped {
        assert forall p :: p in out ==> p.steps != sub.steps;
        out := out + [sub];
      }
    }
    assert ps[..|ps|] == ps;
  }

  // The order of the output: more occurrences first, then by key.

  predicate StrLe(a: string, b: string) {
    a == "" || (b != "" && (a[0] < b[0] || (a[0] == b[0] && StrLe(a[1..], b[1..]))))
  }

  lemma {:induction false} StrTotal(a: string, b: string)
    ensures StrLe(a, b) || StrLe(b, a)
    ensures StrLe(a, b) && StrLe(b, a) ==> a == b
  {
    if a != "" && b != "" {
      StrTotal(a[1..], b[1..]);
      if a[1..] == b[1..] && a[0] == b[0] { assert a == [a[0]] + a[1..] == b; }
    }
  }

  lemma {:induction false} StrTransitive(a: string, b: string, c: string)
    requires StrLe(a, b) && StrLe(b, c)
    ensures StrLe(a, c)
  {
    if a != "" && a[0] == b[0] && b[0] == c[0] { StrTransitive(a[1..], b[1..], c[1..]); }
  }

  predicate Le(p: Proposal, q: Proposal) {
    p.occurrences > q.occurrences || (p.occurrences == q.occurrences && StrLe(Join(p.steps), Join(q.steps)))
  }

  predicate Ordered(ps: seq<Proposal>) { forall i, j :: 0 <= i < j < |ps| ==> Le(ps[i], ps[j]) }

  // Character by character: a ends first, or the first difference is a smaller character.
  ghost predicate Precedes(a: string, b: string) {
    exists n :: 0 <= n <= |a| && n <= |b| && FirstDifference(a, b, n)
  }

  predicate FirstDifference(a: string, b: string, n: nat)
    requires n <= |a| && n <= |b|
  {
    a[..n] == b[..n] && (n == |a| || (n < |b| && a[n] < b[n]))
  }

  lemma {:induction false} StrLePrecedes(a: string, b: string)
    ensures StrLe(a, b) <==> Precedes(a, b)
  {
    if a == "" {
      assert FirstDifference(a, b, 0);
    } else if b != "" {
      if a[0] < b[0] { assert FirstDifference(a, b, 0); }
      if a[0] == b[0] {
        StrLePrecedes(a[1..], b[1..]);
        if n :| 0 <= n <= |a[1..]| && n <= |b[1..]| && FirstDifference(a[1..], b[1..], n) {
          assert a[..n+1] == [a[0]] + a[1..][..n] && b[..n+1] == [b[0]] + b[1..][..n];
          assert FirstDifference(a, b, n + 1);
        }
      }
      if n :| 0 <= n <= |a| && n <= |b| && FirstDifference(a, b, n) {
        if n > 0 {
          assert a[0] == a[..n][0] == b[..n][0] == b[0];
          assert a[1..][..n-1] == a[..n][1..] && b[1..][..n-1] == b[..n][1..];
          assert FirstDifference(a[1..], b[1..], n - 1);
        }
      }
    }
  }

  /** What the order says: more occurrences first, and among equals the names joined by bars in
      the order of their characters. */
  lemma OrderMeans(ps: seq<Proposal>, i: int, j: int)
    requires Ordered(ps) && 0 <= i < j < |ps|
    ensures ps[i].occurrences >= ps[j].occurrences
    ensures ps[i].occurrences == ps[j].occurrences ==> Precedes(Join(ps[i].steps), Join(ps[j].steps))
  {
    StrLePrecedes(Join(ps[i].steps), Join(ps[j].steps));
  }

  lemma JoinNext(a: Name, rest: seq<Name>)
    requires rest != []
    ensures Join([a] + rest) == a + "|" + Join(rest)
  {
    assert ([a] + rest)[1..] == rest;
  }

  lemma JoinSpelled(a: Name, b: Name, c: Name, d: Name)
    ensures Join([a, b]) == a + "|" + b && Join([a, b, c]) == a + "|" + (b + "|" + c)
    ensures Join([a, b, c, d]) == a + "|" + (b + "|" + (c + "|" + d))
  {
    JoinNext(a, [b]);
    JoinNext(b, [c]);
    JoinNext(a, [b, c]);
    JoinNext(c, [d]);
    JoinNext(b, [c, d]);
    JoinNext(a, [b, c, d]);
    assert Join([b]) == b && Join([c]) == c && Join([d]) == d;
    assert [a] + [b] == [a, b] && [b] + [c] == [b, c] && [a] + [b, c] == [a, b, c];
    assert [c] + [d] == [c, d] && [b] + [c, d] == [b, c, d] && [a] + [b, c, d] == [a, b, c, d];
  }

  function Place(p: Proposal, ps: seq<Proposal>): seq<Proposal> {
    if ps == [] || Le(p, ps[0]) then [p] + ps else [ps[0]] + Place(p, ps[1..])
  }

  function SortProposals(ps: seq<Proposal>): seq<Proposal> {
    if ps == [] then [] else Place(ps[0], SortProposals(ps[1..]))
  }

  lemma LeTransitive(p: Proposal, q: Proposal, r: Proposal)
    requires Le(p, q) && Le(q, r)
    ensures Le(p, r)
  {
    if p.occurrences == q.occurrences == r.occurrences {
      StrTransitive(Join(p.steps), Join(q.steps), Join(r.steps));
    }
  }

  lemma {:induction false} PlaceKeeps(p: Proposal, ps: seq<Proposal>)
    ensures multiset(Place(p, ps)) == multiset(ps) + multiset{p}
  {
    if ps != [] && !Le(p, ps[0]) {
      PlaceKeeps(p, ps[1..]);
      assert ps == [ps[0]] + ps[1..];
    }
  }

  lemma {:induction false} PlaceOrders(p: Proposal, ps: seq<Proposal>)
    requires Ordered(ps)
    ensures Ordered(Place(p, ps))
  {
    var out := Place(p, ps);
    if ps == [] {
    } else if Le(p, ps[0]) {
      forall j | 1 <= j < |out| ensures Le(p, out[j]) {
        if j > 1 { LeTransitive(p, ps[0], ps[j-1]); }
      }
    } else {
      StrTotal(Join(p.steps), Join(ps[0].steps));
      PlaceOrders(p, ps[1..]);
      PlaceKeeps(p, ps[1..]);
      forall j | 1 <= j < |out| ensures Le(ps[0], out[j]) {
        assert out[j] in multiset(Place(p, ps[1..]));
        if out[j] != p { assert out[j] in ps[1..]; }
      }
    }
  }

  lemma {:induction false} SortIsTheOrder(ps: seq<Proposal>)
    ensures Ordered(SortProposals(ps)) && multiset(SortProposals(ps)) == multiset(ps)
  {
    if ps != [] {
      SortIsTheOrder(ps[1..]);
      PlaceOrders(ps[0], SortProposals(ps[1..]));
      PlaceKeeps(ps[0], SortProposals(ps[1..]));
      assert ps == [ps[0]] + ps[1..];
    }
  }

  lemma DistinctByCount(ps: seq<Proposal>, qs: seq<Proposal>)
    requires DistinctSteps(ps) && multiset(qs) == multiset(ps)
    ensures DistinctSteps(qs)
  {
    forall i, j | 0 <= i < j < |qs| ensures qs[i].steps != qs[j].steps {
      if qs[i] == qs[j] {
        assert qs == qs[..i] + [qs[i]] + qs[i+1..j] + [qs[j]] + qs[j+1..];
        assert multiset(qs)[qs[i]] >= 2;
        OnceEach(ps, qs[i]);
      } else {
        assert qs[i] in multiset(ps) && qs[j] in multiset(ps);
      }
    }
  }

  lemma {:induction false} OnceEach(ps: seq<Proposal>, p: Proposal)
    requires DistinctSteps(ps)
    ensures multiset(ps)[p] <= 1
  {
    if ps != [] {
      OnceEach(ps[1..], p);
      assert ps == [ps[0]] + ps[1..];
      if p == ps[0] { assert p !in ps[1..]; }
    }
  }

  // What the miner returns, and what follows from it.

  ghost predicate Surviving(tools: seq<Name>, p: Proposal) {
    Listed(tools, p) && forall q :: Listed(tools, q) ==> !Subsumes(q, p)
  }

  // No two different windows of the log share a key that enough windows have.
  ghost predicate KeysApart(tools: seq<Name>) {
    forall k, l, i, l', i' :: Sharing(k, tools, l, i, l', i') ==> tools[i..i+l] == tools[i'..i'+l']
  }

  predicate Sharing(k: string, tools: seq<Name>, l: int, i: int, l': int, i': int) {
    KeyCount(k, tools) >= ENOUGH && MIN_LEN <= l <= MAX_LEN && MIN_LEN <= l' <= MAX_LEN &&
    KeyAt(k, tools, l, i) && KeyAt(k, tools, l', i')
  }

  predicate Counts(tools: seq<Name>, p: Proposal) {
    Frequent(p.steps, tools) && p.occurrences == Occurrences(p.steps, tools)
  }

  // Frequent, truly counted, and inside no longer frequent window of at least equal count.
  ghost predicate Minable(tools: seq<Name>, p: Proposal) {
    Counts(tools, p) &&
    forall q :: Frequent(q, tools) && |q| > |p.steps| && Inside(p.steps, q) ==> Occurrences(q, tools) < p.occurrences
  }

  ghost predicate IsResult(tools: seq<Name>, out: seq<Proposal>) {
    DistinctSteps(out) && Ordered(out) && forall p :: p in out <==> Minable(tools, p)
  }

  /** For any log the output is the listed sequences no listed one subsumes, each once, in order;
      where keys tell the windows apart, exactly the minable sequences. */
  method ProposeHooks(tools: seq<Name>) returns (out: seq<Proposal>)
    ensures DistinctSteps(out) && Ordered(out) && forall p :: p in out <==> Surviving(tools, p)
    ensures KeysApart(tools) ==> IsResult(tools, out)
  {
    hide KeysApart, Listed, Minable, Ordered, TableOk;
    var counts, order := CountWindows(tools);
    var ps := KeepFrequent(tools, counts, order);
    var kept := DedupeSubsumed(ps);
    out := SortProposals(kept);
    SortIsTheOrder(kept);
    DistinctByCount(kept, out);
    forall p ensures p in out <==> Surviving(tools, p) {
      assert p in out <==> p in multiset(out);
      assert p in kept <==> p in multiset(kept);
    }
    if KeysApart(tools) {
      forall p ensures p in out <==> Minable(tools, p) { SurvivorsAreMinable(tools, p); }
    }
  }

  // Keys and windows.

  // The starts of a window are starts of its key.
  lemma StartsAreKeyed(tools: seq<Name>, w: seq<Name>)
    ensures StartsBefore(w, tools, |tools| + 1) <= KeyStarts(Join(w), tools, |w|, |tools| + 1)
  {
  }

  lemma KeyCountIsSum(key: string, tools: seq<Name>)
    ensures KeyCount(key, tools) ==
            |KeyStarts(key, tools, 4, |tools| + 1)| + |KeyStarts(key, tools, 3, |tools| + 1)| +
            |KeyStarts(key, tools, 2, |tools| + 1)|
  {
    var n := |tools| + 1;
    assert Passed(key, tools, 1, n) == 0;
    assert Passed(key, tools, 2, n) == |KeyStarts(key, tools, 2, n)| + Passed(key, tools, 1, n);
    assert Passed(key, tools, 3, n) == |KeyStarts(key, tools, 3, n)| + Passed(key, tools, 2, n);
  }

  // All windows with the key are w.
  ghost predicate KeyIs(tools: seq<Name>, w: seq<Name>) {
    forall l, i :: MIN_LEN <= l <= MAX_LEN && KeyAt(Join(w), tools, l, i) ==> tools[i..i+l] == w
  }

  lemma KeyCountAtLeast(tools: seq<Name>, w: seq<Name>)
    requires IsWindow(w)
    ensures KeyCount(Join(w), tools) >= Occurrences(w, tools)
  {
    StartsAreKeyed(tools, w);
    Within(StartsBefore(w, tools, |tools| + 1), KeyStarts(Join(w), tools, |w|, |tools| + 1));
    KeyCountIsSum(Join(w), tools);
  }

  // The key's count is the window's exactly if no other window has the key.
  lemma KeyCountExactly(tools: seq<Name>, w: seq<Name>)
    requires IsWindow(w)
    ensures KeyCount(Join(w), tools) == Occurrences(w, tools) <==> KeyIs(tools, w)
  {
    var k, n := Join(w), |tools| + 1;
    KeyCountIsSum(k, tools);
    StartsAreKeyed(tools, w);
    var sw, sk := StartsBefore(w, tools, n), KeyStarts(k, tools, |w|, n);
    Within(sw, sk);
    if KeyIs(tools, w) {
      assert sk == sw;
      assert |w| != 2 ==> KeyStarts(k, tools, 2, n) == {};
      assert |w| != 3 ==> KeyStarts(k, tools, 3, n) == {};
      assert |w| != 4 ==> KeyStarts(k, tools, 4, n) == {};
    }
    if KeyCount(k, tools) == Occurrences(w, tools) {
      SameSize(sw, sk);
      forall l, i | MIN_LEN <= l <= MAX_LEN && KeyAt(k, tools, l, i) ensures tools[i..i+l] == w {
        assert i in KeyStarts(k, tools, l, n);
        assert |KeyStarts(k, tools, l, n)| > 0;
        assert l == |w| && i in sw;
      }
    }
  }

  /** Every listed count is the true number of start positions exactly if keys tell the windows
      of the log apart. */
  lemma CountsTrueExactly(tools: seq<Name>)
    ensures (forall p :: Listed(tools, p) ==> p.occurrences == Occurrences(p.steps, tools)) <==> KeysApart(tools)
  {
    hide KeyCount, Join;
    if KeysApart(tools) {
      forall p | Listed(tools, p) ensures p.occurrences == Occurrences(p.steps, tools) {
        ApartIsKeyIs(tools, p.steps);
        KeyCountExactly(tools, p.steps);
      }
    }
    if forall p :: Listed(tools, p) ==> p.occurrences == Occurrences(p.steps, tools) {
      forall k, l, i, l', i' | Sharing(k, tools, l, i, l', i')
        ensures tools[i..i+l] == tools[i'..i'+l']
      {
        var w := SomeFirst(tools, l, i);
        FirstIsWindow(tools, w);
        assert Listed(tools, Proposal(w, KeyCount(k, tools)));
        KeyCountExactly(tools, w);
      }
    }
  }

  lemma ApartIsKeyIs(tools: seq<Name>, w: seq<Name>)
    requires KeysApart(tools) && IsFirst(tools, w) && KeyCount(Join(w), tools) >= ENOUGH
    ensures IsWindow(w) && KeyIs(tools, w)
  {
    hide KeyCount, Join;
    FirstIsWindow(tools, w);
    var j :| KeyAt(Join(w), tools, |w|, j) && tools[j..j+|w|] == w;
    forall l, i | MIN_LEN <= l <= MAX_LEN && KeyAt(Join(w), tools, l, i) ensures tools[i..i+l] == w {
      assert Sharing(Join(w), tools, l, i, |w|, j);
    }
  }

  lemma FirstIsWindow(tools: seq<Name>, w: seq<Name>)
    requires IsFirst(tools, w)
    ensures IsWindow(w) && exists i :: 0 <= i <= |tools| && At(w, tools, i)
    ensures exists i :: KeyAt(Join(w), tools, |w|, i) && tools[i..i+|w|] == w
  {
    var i :| FirstAt(Join(w), tools, |w|, i) && w == tools[i..i+|w|];
    assert At(w, tools, i);
  }

  // Every key that occurs has a first window.
  lemma {:induction false} SomeFirst(tools: seq<Name>, len: int, i: int) returns (w: seq<Name>)
    requires MIN_LEN <= len <= MAX_LEN && 0 <= i && i + len <= |tools|
    ensures IsFirst(tools, w) && Join(w) == Join(tools[i..i+len])
    decreases len, i
  {
    hide Join;
    var k := Join(tools[i..i+len]);
    assert KeyAt(k, tools, len, i);
    if l, j :| MIN_LEN <= l <= MAX_LEN && KeyAt(k, tools, l, j) && !Earlier(len, i, l, j) {
      w := SomeFirst(tools, l, j);
    } else {
      w := tools[i..i+len];
      assert FirstAt(Join(w), tools, |w|, i);
    }
  }

  // Where keys tell windows apart, what is listed is what is frequent.
  lemma ListedIsCounted(tools: seq<Name>, p: Proposal)
    requires KeysApart(tools)
    ensures Listed(tools, p) <==> Counts(tools, p)
  {
    hide KeyCount, Join, KeysApart;
    if Listed(tools, p) {
      CountsTrueExactly(tools);
      FirstIsWindow(tools, p.steps);
    }
    if Counts(tools, p) {
      var i := SomeStart(tools, p.steps);
      KeyCountAtLeast(tools, p.steps);
      var w := SomeFirst(tools, |p.steps|, i);
      FirstIsWindow(tools, w);
      ApartHere(tools, p.steps, i, w);
      CountsTrueExactly(tools);
      assert Listed(tools, Proposal(w, KeyCount(Join(w), tools)));
    }
  }

  lemma SomeStart(tools: seq<Name>, w: seq<Name>) returns (i: int)
    requires Frequent(w, tools)
    ensures 0 <= i && i + |w| <= |tools| && tools[i..i+|w|] == w
  {
    i := Pick(StartsBefore(w, tools, |tools| + 1));
  }

  lemma ApartHere(tools: seq<Name>, v: seq<Name>, i: int, w: seq<Name>)
    requires KeysApart(tools) && IsWindow(v) && 0 <= i && i + |v| <= |tools| && tools[i..i+|v|] == v
    requires IsWindow(w) && Join(w) == Join(v) && KeyCount(Join(v), tools) >= ENOUGH
    requires exists j :: KeyAt(Join(w), tools, |w|, j) && tools[j..j+|w|] == w
    ensures v == w
  {
    hide KeyCount, Join;
    var j :| KeyAt(Join(w), tools, |w|, j) && tools[j..j+|w|] == w;
    assert Sharing(Join(v), tools, |v|, i, |w|, j);
  }

  // Names without bars keep keys apart.
  lemma BarFreeApart(tools: seq<Name>)
    requires BarFree(tools)
    ensures KeysApart(tools)
  {
    forall k, l, i, l', i' | Sharing(k, tools, l, i, l', i')
      ensures tools[i..i+l] == tools[i'..i'+l']
    {
      SliceBarFree(tools, i, l);
      SliceBarFree(tools, i', l');
      JoinInjective(tools[i..i+l], tools[i'..i'+l']);
    }
  }

  lemma SliceBarFree(tools: seq<Name>, i: int, len: int)
    requires BarFree(tools) && 0 <= i && 0 <= len && i + len <= |tools|
    ensures BarFree(tools[i..i+len])
  {
    var w := tools[i..i+len];
    forall k | 0 <= k < len ensures '|' !in w[k] { assert w[k] == tools[i+k]; }
  }

  lemma SurvivorsAreMinable(tools: seq<Name>, p: Proposal)
    requires KeysApart(tools)
    ensures Surviving(tools, p) <==> Minable(tools, p)
  {
    hide KeysApart, Listed, Occurrences;
    forall q ensures Listed(tools, q) <==> Counts(tools, q) { ListedIsCounted(tools, q); }
    if Surviving(tools, p) {
      forall q | Frequent(q, tools) && |q| > |p.steps| && Inside(p.steps, q)
        ensures Occurrences(q, tools) < p.occurrences
      {
        var r := Proposal(q, Occurrences(q, tools));
        assert Listed(tools, r) && !Subsumes(r, p);
      }
    }
  }

  lemma SliceOfSlice(c: seq<Name>, j: int, n: int, i: int, k: int)
    requires 0 <= j && 0 <= n && j + n <= |c| && 0 <= i && 0 <= k && i + k <= n
    ensures c[j..j+n][i..i+k] == c[i+j..i+j+k]
  {
    var x, y := c[j..j+n][i..i+k], c[i+j..i+j+k];
    forall m | 0 <= m < |x| ensures x[m] == y[m] {}
  }

  lemma InsideTransitive(a: seq<Name>, b: seq<Name>, c: seq<Name>)
    requires Inside(a, b) && Inside(b, c)
    ensures Inside(a, c)
  {
    var i :| 0 <= i <= |b| && At(a, b, i);
    var j :| 0 <= j <= |c| && At(b, c, j);
    SliceOfSlice(c, j, |b|, i, |a|);
    assert At(a, c, i + j);
  }

  // A sub-window occurs at least as often as what contains it.
  lemma SubOccursAsOften(a: seq<Name>, b: seq<Name>, tools: seq<Name>)
    requires Inside(a, b)
    ensures Occurrences(a, tools) >= Occurrences(b, tools)
  {
    var d :| 0 <= d <= |b| && At(a, b, d);
    var sb := StartsBefore(b, tools, |tools| + 1);
    forall i | i in sb ensures i + d in StartsBefore(a, tools, |tools| + 1) {
      SliceOfSlice(tools, i, |b|, d, |a|);
      assert At(a, tools, i + d);
    }
    ShiftInto(sb, StartsBefore(a, tools, |tools| + 1), d);
  }

  /** Complete: every frequent window is output, or lies inside an output proposal that
      occurs exactly as often, so nothing is dropped at a greater count. */
  lemma {:induction false} MiningComplete(tools: seq<Name>, out: seq<Proposal>, w: seq<Name>) returns (p: Proposal)
    requires IsResult(tools, out) && Frequent(w, tools)
    ensures p in out && p.occurrences == Occurrences(w, tools) && (p.steps == w || (|w| < |p.steps| && Inside(w, p.steps)))
    decreases MAX_LEN - |w|
  {
    p := Proposal(w, Occurrences(w, tools));
    if !Minable(tools, p) {
      var q :| Frequent(q, tools) && |q| > |w| && Inside(w, q) && Occurrences(q, tools) >= Occurrences(w, tools);
      SubOccursAsOften(w, q, tools);
      p := MiningComplete(tools, out, q);
      if p.steps != q { InsideTransitive(w, q, p.steps); }
    }
  }

  /** Irredundant and true: each proposal's count is its number of start positions, at least
      three, and no proposal subsumes another. */
  lemma MiningIrredundant(tools: seq<Name>, out: seq<Proposal>, p: Proposal, q: Proposal)
    requires IsResult(tools, out) && p in out && q in out
    ensures p.occurrences == |set i | 0 <= i <= |tools| && At(p.steps, tools, i)| >= 3
    ensures 2 <= |p.steps| <= 4
    ensures !Subsumes(q, p)
  {
    assert Minable(tools, p) && Minable(tools, q);
    assert StartsBefore(p.steps, tools, |tools| + 1) == set i | 0 <= i <= |tools| && At(p.steps, tools, i);
  }

  // The result is determined: the sorted list of the minable sequences is unique.
  lemma MiningUnique(tools: seq<Name>, a: seq<Proposal>, b: seq<Proposal>)
    requires KeysApart(tools) && IsResult(tools, a) && IsResult(tools, b)
    ensures a == b
  {
    forall p, q | p in a && q in a && Le(p, q) && Le(q, p) ensures p == q { LeBothWays(tools, p, q); }
    SameOrder(a, b);
  }

  // Two minable sequences with one key are one.
  lemma LeBothWays(tools: seq<Name>, p: Proposal, q: Proposal)
    requires KeysApart(tools) && Minable(tools, p) && Minable(tools, q) && Le(p, q) && Le(q, p)
    ensures p == q
  {
    hide Occurrences, KeyCount;
    StrTotal(Join(p.steps), Join(q.steps));
    var i := SomeStart(tools, p.steps);
    var j := SomeStart(tools, q.steps);
    KeyCountAtLeast(tools, p.steps);
    hide Join;
    assert Sharing(Join(p.steps), tools, |p.steps|, i, |q.steps|, j);
  }

  lemma LeReflexive(p: Proposal)
    ensures Le(p, p)
  {
    StrTotal(Join(p.steps), Join(p.steps));
  }

  lemma {:induction false} SameOrder(a: seq<Proposal>, b: seq<Proposal>)
    requires DistinctSteps(a) && DistinctSteps(b) && Ordered(a) && Ordered(b)
    requires forall p :: p in a <==> p in b
    requires forall p, q :: p in a && q in a && Le(p, q) && Le(q, p) ==> p == q
    ensures a == b
  {
    assert b != [] ==> b[0] in a;
    if a != [] {
      assert a[0] in b && b[0] in a;
      LeReflexive(a[0]);
      assert Le(a[0], b[0]) && Le(b[0], a[0]);
      assert a == [a[0]] + a[1..] && b == [b[0]] + b[1..];
      forall p ensures p in a[1..] <==> p in b[1..] {
        if p in a[1..] { assert p in b && p != b[0]; }
        if p in b[1..] { assert p in a && p != a[0]; }
      }
      SameOrder(a[1..], b[1..]);
    }
  }

  // Where proposals start. The longest does not win at each index.

  ghost predicate LongestWins(tools: seq<Name>, out: seq<Proposal>) {
    forall p, q, i :: p in out && Frequent(q, tools) && At(p.steps, tools, i) && At(q, tools, i) ==> |q| <= |p.steps|
  }

  // Some frequent longer sequence with w in it occurs as often as w.
  ghost predicate Absorbed(tools: seq<Name>, w: seq<Name>) {
    exists r :: Frequent(r, tools) && |r| > |w| && Inside(w, r) && Occurrences(r, tools) == Occurrences(w, tools)
  }

  lemma StartIsPrefix(w: seq<Name>, q: seq<Name>, tools: seq<Name>, i: int)
    requires At(q, tools, i) && |w| <= |q|
    ensures At(w, tools, i) <==> w <= q
  {
    assert q[..|w|] == tools[i..i+|w|];
  }

  /** Two proposals start at a common index exactly if one is a prefix of the other; the shorter
      one then occurs more often, or it would have been dropped. */
  lemma StartTogetherExactly(tools: seq<Name>, out: seq<Proposal>, p: Proposal, q: Proposal)
    requires IsResult(tools, out) && p in out && q in out && |p.steps| < |q.steps|
    ensures (exists i :: At(p.steps, tools, i) && At(q.steps, tools, i)) <==> p.steps <= q.steps
    ensures p.steps <= q.steps ==> p.occurrences > q.occurrences
  {
    hide Occurrences;
    assert Minable(tools, p) && Minable(tools, q);
    var i := SomeStart(tools, q.steps);
    StartIsPrefix(p.steps, q.steps, tools, i);
    if j :| At(p.steps, tools, j) && At(q.steps, tools, j) { StartIsPrefix(p.steps, q.steps, tools, j); }
    if p.steps <= q.steps { assert At(p.steps, q.steps, 0); }
  }

  /** At every start index only the longest repeated sequence is output, exactly if each
      repeated sequence that another one extends is absorbed by some longer one. */
  lemma LongestWinsExactly(tools: seq<Name>, out: seq<Proposal>)
    requires IsResult(tools, out)
    ensures LongestWins(tools, out) <==>
      forall w, q :: Frequent(w, tools) && Frequent(q, tools) && w < q ==> Absorbed(tools, w)
  {
    hide Occurrences;
    if LongestWins(tools, out) {
      forall w, q | Frequent(w, tools) && Frequent(q, tools) && w < q ensures Absorbed(tools, w) {
        NotOutputIsAbsorbed(tools, out, w, q);
      }
    }
    if forall w, q :: Frequent(w, tools) && Frequent(q, tools) && w < q ==> Absorbed(tools, w) {
      forall p, q, i | p in out && Frequent(q, tools) && At(p.steps, tools, i) && At(q, tools, i)
        ensures |q| <= |p.steps|
      {
        OutputIsNotAbsorbed(tools, out, p);
        if |q| > |p.steps| { StartIsPrefix(p.steps, q, tools, i); }
      }
    }
  }

  lemma OutputIsNotAbsorbed(tools: seq<Name>, out: seq<Proposal>, p: Proposal)
    requires IsResult(tools, out) && p in out
    ensures Frequent(p.steps, tools) && !Absorbed(tools, p.steps)
  {
    hide Occurrences;
    assert Minable(tools, p);
  }

  lemma NotOutputIsAbsorbed(tools: seq<Name>, out: seq<Proposal>, w: seq<Name>, q: seq<Name>)
    requires IsResult(tools, out) && LongestWins(tools, out)
    requires Frequent(w, tools) && Frequent(q, tools) && w < q
    ensures Absorbed(tools, w)
  {
    hide Occurrences;
    var p := Proposal(w, Occurrences(w, tools));
    var i := SomeStart(tools, q);
    StartIsPrefix(w, q, tools, i);
    assert p !in out;
    assert !Minable(tools, p);
    var r :| Frequent(r, tools) && |r| > |w| && Inside(w, r) && Occurrences(r, tools) >= Occurrences(w, tools);
    SubOccursAsOften(w, r, tools);
  }

  // A log on which it fails: a b occurs four times, a b c three times, and both are output
  // although both start at index 2.

  function Twice(a: Name, b: Name, c: Name): seq<Name> { [a, b, a, b, c, a, b, c, a, b, c] }

  lemma PairStarts(a: Name, b: Name, c: Name)
    requires a != b && b != c && a != c
    ensures StartsBefore([a, b], Twice(a, b, c), 12) == {0, 2, 5, 8}
  {
    var t := Twice(a, b, c);
    forall i | 0 <= i < 12 ensures At([a, b], t, i) <==> i in {0, 2, 5, 8} {
      if i + 2 <= 11 { assert t[i..i+2] == [t[i], t[i+1]]; }
    }
  }

  lemma TripleStarts(a: Name, b: Name, c: Name)
    requires a != b && b != c && a != c
    ensures StartsBefore([a, b, c], Twice(a, b, c), 12) == {2, 5, 8}
  {
    var t := Twice(a, b, c);
    forall i | 0 <= i < 12 ensures At([a, b, c], t, i) <==> i in {2, 5, 8} {
      if i + 3 <= 11 { assert t[i..i+3] == [t[i], t[i+1], t[i+2]]; }
    }
  }

  predicate StartsShifted(q: seq<Name>, tools: seq<Name>, i: int, d: int) { At(q, tools, i - d) }

  lemma MissingShift(a: set<int>, b: set<int>, d: int, x: int)
    requires (forall i :: i in a ==> i + d in b) && x in b && x - d !in a
    ensures |a| < |b|
  {
    ShiftInto(a, b - {x}, d);
  }

  // If q contains w and occurs as often, every start of w is one of q shifted.
  lemma AllShifted(w: seq<Name>, q: seq<Name>, tools: seq<Name>) returns (d: int)
    requires Inside(w, q) && Occurrences(q, tools) >= Occurrences(w, tools)
    ensures 0 <= d && d + |w| <= |q| && At(w, q, d)
    ensures forall i :: i in StartsBefore(w, tools, |tools| + 1) ==> StartsShifted(q, tools, i, d)
  {
    d :| 0 <= d <= |q| && At(w, q, d);
    var sq, sw := StartsBefore(q, tools, |tools| + 1), StartsBefore(w, tools, |tools| + 1);
    forall i | i in sq ensures i + d in sw {
      SliceOfSlice(tools, i, |q|, d, |w|);
      assert At(w, tools, i + d);
    }
    forall x | x in sw ensures StartsShifted(q, tools, x, d) {
      if x - d !in sq { MissingShift(sq, sw, d, x); }
    }
  }

  lemma ShorterSurvives(a: Name, b: Name, c: Name, out: seq<Proposal>)
    requires a != b && b != c && a != c && IsResult(Twice(a, b, c), out)
    ensures Proposal([a, b], 4) in out && Proposal([a, b, c], 3) in out
    ensures At([a, b], Twice(a, b, c), 2) && At([a, b, c], Twice(a, b, c), 2)
  {
    hide Minable;
    PairMinable(a, b, c);
    TripleMinable(a, b, c);
  }

  lemma PairMinable(a: Name, b: Name, c: Name)
    requires a != b && b != c && a != c
    ensures Minable(Twice(a, b, c), Proposal([a, b], 4)) && At([a, b], Twice(a, b, c), 2)
  {
    var t := Twice(a, b, c);
    PairStarts(a, b, c);
    assert 2 in StartsBefore([a, b], t, 12);
    forall q | |q| > 2 && Inside([a, b], q) ensures Occurrences(q, t) < 4 {
      PairNotAbsorbed(a, b, c, q);
    }
  }

  lemma TripleMinable(a: Name, b: Name, c: Name)
    requires a != b && b != c && a != c
    ensures Minable(Twice(a, b, c), Proposal([a, b, c], 3)) && At([a, b, c], Twice(a, b, c), 2)
  {
    var t := Twice(a, b, c);
    TripleStarts(a, b, c);
    assert 2 in StartsBefore([a, b, c], t, 12);
    forall q | |q| == 4 && Inside([a, b, c], q) ensures Occurrences(q, t) < 3 {
      TripleNotAbsorbed(a, b, c, q);
    }
  }

  lemma PairShift(a: Name, b: Name, c: Name, q: seq<Name>, d: int)
    requires a != c && |q| > 2 && 0 <= d
    ensures var t := Twice(a, b, c); !(StartsShifted(q, t, 0, d) && StartsShifted(q, t, 2, d))
  {
    var t := Twice(a, b, c);
    if 2 + |q| <= 11 { assert t[0..|q|][2] == a && t[2..2+|q|][2] == c; }
  }

  lemma PairNotAbsorbed(a: Name, b: Name, c: Name, q: seq<Name>)
    requires a != b && b != c && a != c && |q| > 2 && Inside([a, b], q)
    ensures Occurrences(q, Twice(a, b, c)) < 4
  {
    var t := Twice(a, b, c);
    PairStarts(a, b, c);
    var starts := StartsBefore([a, b], t, |t| + 1);
    assert 0 in starts && 2 in starts;
    if Occurrences(q, t) >= 4 {
      var d := AllShifted([a, b], q, t);
      PairShift(a, b, c, q, d);
    }
  }

  lemma TripleShift(a: Name, b: Name, c: Name, q: seq<Name>, d: int)
    requires b != c && |q| == 4 && 0 <= d <= 1
    ensures var t := Twice(a, b, c);
      !(StartsShifted(q, t, 2, d) && StartsShifted(q, t, 5, d) && StartsShifted(q, t, 8, d))
  {
    var t := Twice(a, b, c);
    assert t[1..5][0] == b && t[4..8][0] == c;
  }

  lemma TripleNotAbsorbed(a: Name, b: Name, c: Name, q: seq<Name>)
    requires a != b && b != c && a != c && |q| == 4 && Inside([a, b, c], q)
    ensures Occurrences(q, Twice(a, b, c)) < 3
  {
    var t := Twice(a, b, c);
    TripleStarts(a, b, c);
    var starts := StartsBefore([a, b, c], t, |t| + 1);
    assert 2 in starts && 5 in starts && 8 in starts;
    if Occurrences(q, t) >= 3 {
      var d := AllShifted([a, b, c], q, t);
      TripleShift(a, b, c, q, d);
    }
  }
}
