/** The hook gate: a stable scope order, the hooks that match a tool, one verdict per run, and
    the fold that resolves them. */
module HookVerdict {
  import opened Runs

  datatype Scope = PluginScope | ProjectScope | UserScope | FutureScope(n: int)
  datatype Hook = Hook(event: string, matcher: string, command: string, scope: Scope)
  datatype Verdict = NoDecision | Deny | Ask | Allow
  datatype Scoped = Scoped(scope: Scope, verdict: Verdict, reason: string)
  datatype Resolved = Resolved(verdict: Verdict, reason: string)

  // How a hook's process ended, and what it printed.
  datatype RunError = Clean | Exit(code: int) | NotRun
  datatype HookRun = HookRun(err: RunError, timedOut: bool, stdout: string, stderr: string)

  // A schema-valid decision body.
  datatype Decision = Decision(permission: string, reason: string)

  /** What lies outside: the regular-expression engine (no value for an expression that does
      not compile), the JSON decoder, and the run of each hook. */
  datatype World = World(regex: (string, string) -> Option<bool>, json: string -> Option<Decision>, run: Hook -> HookRun)

  const PRE_TOOL_USE := "PreToolUse"
  const POST_TOOL_USE := "PostToolUse"
  const OUTPUT_CAP := 30000
  const REFUSAL := 2

  // Scope order.

  function Rank(s: Scope): nat {
    match s
    case ProjectScope => 0
    case UserScope => 1
    case _ => 2
  }

  function OfRank(hs: seq<Hook>, r: nat): seq<Hook> {
    if hs == [] then []
    else (if Rank(hs[0].scope) == r then [hs[0]] else []) + OfRank(hs[1..], r)
  }

  // Project hooks, then user hooks, then the rest; discovery order within each.
  function ByScope(hs: seq<Hook>): seq<Hook> { OfRank(hs, 0) + OfRank(hs, 1) + OfRank(hs, 2) }

  predicate Ordered(hs: seq<Hook>) {
    forall i, j :: 0 <= i < j < |hs| ==> Rank(hs[i].scope) <= Rank(hs[j].scope)
  }

  // Sorted by rank, with every scope's hooks in the order they had.
  ghost predicate StableSortOf(t: seq<Hook>, s: seq<Hook>) {
    Ordered(t) && forall r :: OfRank(t, r) == OfRank(s, r)
  }

  lemma {:induction false} OfRankConcat(a: seq<Hook>, b: seq<Hook>, r: nat)
    ensures OfRank(a + b, r) == OfRank(a, r) + OfRank(b, r)
  {
    if a == [] {
      assert a + b == b;
    } else {
      assert (a + b)[0] == a[0] && (a + b)[1..] == a[1..] + b;
      OfRankConcat(a[1..], b, r);
      var x, y, z := if Rank(a[0].scope) == r then [a[0]] else [], OfRank(a[1..], r), OfRank(b, r);
      assert x + (y + z) == (x + y) + z;
    }
  }

  predicate AllOf(hs: seq<Hook>, r: nat) { forall i :: 0 <= i < |hs| ==> Rank(hs[i].scope) == r }

  lemma {:induction false} OfRankIsAllOf(hs: seq<Hook>, r: nat)
    ensures AllOf(OfRank(hs, r), r) && forall h :: h in OfRank(hs, r) ==> h in hs
  {
    if hs != [] { OfRankIsAllOf(hs[1..], r); }
  }

  lemma {:induction false} OfRankSame(hs: seq<Hook>, r: nat, q: nat)
    requires AllOf(hs, r)
    ensures OfRank(hs, q) == if q == r then hs else []
  {
    if hs != [] {
      OfRankSame(hs[1..], r, q);
      assert hs == [hs[0]] + hs[1..];
    }
  }

  lemma ByScopeRank(hs: seq<Hook>, r: nat)
    ensures OfRank(ByScope(hs), r) == OfRank(hs, r)
  {
    var p, u, o := OfRank(hs, 0), OfRank(hs, 1), OfRank(hs, 2);
    OfRankConcat(p + u, o, r);
    OfRankConcat(p, u, r);
    OfRankIsAllOf(hs, 0);
    OfRankIsAllOf(hs, 1);
    OfRankIsAllOf(hs, 2);
    OfRankSame(p, 0, r);
    OfRankSame(u, 1, r);
    OfRankSame(o, 2, r);
    if r > 2 { NoHigherRank(hs, r); }
  }

  lemma ByScopeIsStable(hs: seq<Hook>)
    ensures StableSortOf(ByScope(hs), hs)
  {
    OfRankIsAllOf(hs, 0);
    OfRankIsAllOf(hs, 1);
    OfRankIsAllOf(hs, 2);
    forall r ensures OfRank(ByScope(hs), r) == OfRank(hs, r) { ByScopeRank(hs, r); }
  }

  lemma {:induction false} NoHigherRank(hs: seq<Hook>, r: nat)
    requires r > 2
    ensures OfRank(hs, r) == []
  {
    if hs != [] { NoHigherRank(hs[1..], r); }
  }

  // An ordered list is its three ranks one after another.
  lemma {:induction false} OrderedIsByScope(t: seq<Hook>)
    requires Ordered(t)
    ensures ByScope(t) == t
  {
    if t != [] {
      var r, rest := Rank(t[0].scope), t[1..];
      OrderedIsByScope(rest);
      if r > 0 { NoLowerRank(rest, 0, r); }
      if r > 1 { NoLowerRank(rest, 1, r); }
      var p, u, o := OfRank(rest, 0), OfRank(rest, 1), OfRank(rest, 2);
      assert t == [t[0]] + rest;
      assert r == 1 ==> [] + [t[0]] == [t[0]];
      assert ByScope(t) == [t[0]] + (p + u + o);
    }
  }

  lemma {:induction false} NoLowerRank(hs: seq<Hook>, q: nat, r: nat)
    requires q < r && forall i :: 0 <= i < |hs| ==> Rank(hs[i].scope) >= r
    ensures OfRank(hs, q) == []
  {
    if hs != [] { NoLowerRank(hs[1..], q, r); }
  }

  /** There is only one stable sort by scope, so which algorithm computes it does not matter. */
  lemma StableSortIsByScope(t: seq<Hook>, s: seq<Hook>)
    ensures StableSortOf(t, s) <==> t == ByScope(s)
  {
    ByScopeIsStable(s);
    if StableSortOf(t, s) {
      OrderedIsByScope(t);
      assert OfRank(t, 0) == OfRank(s, 0) && OfRank(t, 1) == OfRank(s, 1) && OfRank(t, 2) == OfRank(s, 2);
    }
  }

  class HookRunner {
    var hooks: seq<Hook>

    /** Copies the discovered hooks and sorts the copy by scope; the stable sort is an insertion
        sort, where StableSortIsByScope says that the choice does not show. */
    constructor (discovered: seq<Hook>)
      ensures hooks == ByScope(discovered)
    {
      var ordered: seq<Hook> := [];
      for i := 0 to |discovered|
        invariant StableSortOf(ordered, discovered[..i])
      {
        ordered := Insert(ordered, discovered[i]);
        assert discovered[..i+1] == discovered[..i] + [discovered[i]];
        forall r ensures OfRank(discovered[..i+1], r) == OfRank(discovered[..i], r) + OfRank([discovered[i]], r) {
          OfRankConcat(discovered[..i], [discovered[i]], r);
        }
        assert forall r :: OfRank(ordered, r) == OfRank(discovered[..i+1], r);
      }
      assert discovered[..|discovered|] == discovered;
      StableSortIsByScope(ordered, discovered);
      hooks := ordered;
    }

    static method Insert(hs: seq<Hook>, h: Hook) returns (out: seq<Hook>)
      requires Ordered(hs)
      ensures Ordered(out) && forall r :: OfRank(out, r) == OfRank(hs, r) + OfRank([h], r)
    {
      var p := |hs|;
      while p > 0 && Rank(hs[p-1].scope) > Rank(h.scope)
        invariant 0 <= p <= |hs|
        invariant forall j :: p <= j < |hs| ==> Rank(hs[j].scope) > Rank(h.scope)
      {
        p := p - 1;
      }
      out := hs[..p] + [h] + hs[p..];
      InsertIsStable(hs, p, h);
    }

    /** The hooks of one event that match a tool, in firing order. */
    method MatchingHooks(w: World, event: string, tool: string) returns (out: seq<Hook>)
      ensures out == Matching(w, hooks, event, tool)
    {
      out := [];
      for i := 0 to |hooks|
        invariant out == Matching(w, hooks[..i], event, tool)
      {
        assert hooks[..i+1] == hooks[..i] + [hooks[i]];
        MatchingConcat(w, hooks[..i], [hooks[i]], event, tool);
        if Matches(w, hooks[i], event, tool) {
          out := out + [hooks[i]];
        }
      }
      assert hooks[..|hooks|] == hooks;
    }

    method PreToolUseVerdict(w: World, tool: string) returns (r: Resolved)
      ensures r == Resolve(Results(w, Matching(w, hooks, PRE_TOOL_USE, tool)))
    {
      var matches := MatchingHooks(w, PRE_TOOL_USE, tool);
      var results: seq<Scoped> := [];
      for i := 0 to |matches|
        invariant |results| == i && forall k :: 0 <= k < i ==> results[k] == Outcome(w, matches[k])
      {
        results := results + [Outcome(w, matches[i])];
      }
      assert results == Results(w, matches);
      r := ResolveVerdict(results);
    }
  }

  lemma InsertKeepsRanks(a: seq<Hook>, h: Hook, b: seq<Hook>, r: nat)
    requires forall j :: 0 <= j < |b| ==> Rank(b[j].scope) > Rank(h.scope)
    ensures OfRank(a + [h] + b, r) == OfRank(a + b, r) + OfRank([h], r)
  {
    OfRankConcat(a + [h], b, r);
    OfRankConcat(a, [h], r);
    OfRankConcat(a, b, r);
    OfRankSame([h], Rank(h.scope), r);
    if r == Rank(h.scope) { NoLowerRank(b, r, r + 1); }
    SameEnds(OfRank(a, r), OfRank([h], r), OfRank(b, r));
  }

  lemma SameEnds<T>(x: seq<T>, y: seq<T>, z: seq<T>)
    requires y == [] || z == []
    ensures x + y + z == x + z + y
  {
  }

  lemma InsertIsStable(hs: seq<Hook>, p: nat, h: Hook)
    requires p <= |hs| && forall j :: p <= j < |hs| ==> Rank(hs[j].scope) > Rank(h.scope)
    ensures forall r :: OfRank(hs[..p] + [h] + hs[p..], r) == OfRank(hs, r) + OfRank([h], r)
  {
    var a, b := hs[..p], hs[p..];
    assert a + b == hs;
    forall r ensures OfRank(a + [h] + b, r) == OfRank(a + b, r) + OfRank([h], r) {
      InsertKeepsRanks(a, h, b, r);
    }
  }

  // Which hooks match.

  predicate ExactChar(c: char) {
    'a' <= c <= 'z' || 'A' <= c <= 'Z' || '0' <= c <= '9' || c == '_' || c == '-' || Separator(c)
  }

  predicate Separator(c: char) { c == '|' || c == ',' || c == ' ' }

  predicate ExactSet(matcher: string) { forall i :: 0 <= i < |matcher| ==> ExactChar(matcher[i]) }

  // The runs of characters between separators; cur is the one being read.
  function Alternatives(s: string, cur: string): seq<string> {
    if s == "" then (if cur == "" then [] else [cur])
    else if Separator(s[0]) then (if cur == "" then [] else [cur]) + Alternatives(s[1..], "")
    else Alternatives(s[1..], cur + [s[0]])
  }

  predicate MatchSettings(w: World, matcher: string, tool: string) {
    if ExactSet(matcher) then tool in Alternatives(matcher, "") else w.regex(matcher, tool) == Some(true)
  }

  predicate Matches(w: World, h: Hook, event: string, tool: string) {
    h.event == event &&
    (if event != PRE_TOOL_USE && event != POST_TOOL_USE then true
     else if h.matcher == "" || h.matcher == "*" then true
     else if h.scope.ProjectScope? || h.scope.UserScope? then MatchSettings(w, h.matcher, tool)
     else w.regex(h.matcher, tool) == Some(true))
  }

  function Matching(w: World, hs: seq<Hook>, event: string, tool: string): seq<Hook> {
    if hs == [] then []
    else (if Matches(w, hs[0], event, tool) then [hs[0]] else []) + Matching(w, hs[1..], event, tool)
  }

  lemma {:induction false} MatchingConcat(w: World, a: seq<Hook>, b: seq<Hook>, event: string, tool: string)
    ensures Matching(w, a + b, event, tool) == Matching(w, a, event, tool) + Matching(w, b, event, tool)
  {
    if a == [] {
      assert a + b == b;
    } else {
      assert (a + b)[0] == a[0] && (a + b)[1..] == a[1..] + b;
      MatchingConcat(w, a[1..], b, event, tool);
    }
  }

  function Join(alts: seq<string>, seps: seq<char>): string
    requires |alts| == |seps| + 1
  {
    if seps == [] then alts[0] else alts[0] + [seps[0]] + Join(alts[1..], seps[1..])
  }

  predicate Word(s: string) { s != "" && forall i :: 0 <= i < |s| ==> ExactChar(s[i]) && !Separator(s[i]) }

  lemma {:induction false} ReadWord(cur: string, v: string, rest: string)
    requires forall i :: 0 <= i < |v| ==> !Separator(v[i])
    ensures Alternatives(v + rest, cur) == Alternatives(rest, cur + v)
    decreases |v|
  {
    if v == "" {
      assert v + rest == rest && cur + v == cur;
    } else {
      assert (v + rest)[0] == v[0] && (v + rest)[1..] == v[1..] + rest;
      ReadWord(cur + [v[0]], v[1..], rest);
      assert cur + [v[0]] + v[1..] == cur + v;
    }
  }

  predicate WordList(alts: seq<string>, seps: seq<char>) {
    |alts| == |seps| + 1 && (forall i :: 0 <= i < |alts| ==> Word(alts[i])) && forall c :: c in seps ==> Separator(c)
  }

  lemma {:induction false} JoinSplits(alts: seq<string>, seps: seq<char>)
    requires WordList(alts, seps)
    ensures ExactSet(Join(alts, seps)) && Alternatives(Join(alts, seps), "") == alts
  {
    assert "" + alts[0] == alts[0];
    if seps == [] {
      assert alts[0] + "" == alts[0];
      ReadWord("", alts[0], "");
    } else {
      var rest := Join(alts[1..], seps[1..]);
      JoinSplits(alts[1..], seps[1..]);
      assert alts[0] + [seps[0]] + rest == alts[0] + ([seps[0]] + rest);
      ReadWord("", alts[0], [seps[0]] + rest);
      assert ([seps[0]] + rest)[1..] == rest;
      assert Alternatives([seps[0]] + rest, alts[0]) == [alts[0]] + Alternatives(rest, "");
    }
  }

  /** A settings matcher that lists tool names, whatever separates them, matches exactly those
      tools, whatever the regular-expression engine would say. */
  lemma ListedToolsMatchExactly(w: World, alts: seq<string>, seps: seq<char>, tool: string)
    requires WordList(alts, seps)
    ensures MatchSettings(w, Join(alts, seps), tool) <==> tool in alts
  {
    JoinSplits(alts, seps);
  }

  // The tool's name stands in the matcher between separators or at an end of it.
  predicate StandsAlone(matcher: string, tool: string, i: int) {
    && tool != "" && 0 <= i && i + |tool| <= |matcher| && matcher[i..i+|tool|] == tool
    && (forall k :: 0 <= k < |tool| ==> tool[k] !in " ,|")
    && (i == 0 || matcher[i-1] in " ,|") && (i + |tool| == |matcher| || matcher[i+|tool|] in " ,|")
  }

  ghost predicate Lists(matcher: string, tool: string) { exists i :: StandsAlone(matcher, tool, i) }

  // Behind a separator a place in the rest is a place in the whole.
  lemma SameBehind(all: string, rest: string, n: int, tool: string, i: int)
    requires 0 < n && |all| == n + |rest| && all[n..] == rest && all[n-1] in " ,|" && 0 <= i
    ensures StandsAlone(all, tool, n + i) <==> StandsAlone(rest, tool, i)
  {
    assert forall k :: 0 <= k < |rest| ==> all[n + k] == rest[k];
    if i + |tool| <= |rest| { assert all[n + i..n + i + |tool|] == rest[i..i+|tool|]; }
  }

  lemma FrontStands(cur: string, c: char, rest: string, tool: string, i: int)
    requires c in " ,|" && (forall k :: 0 <= k < |cur| ==> cur[k] !in " ,|")
    requires StandsAlone(cur + [c] + rest, tool, i) && i <= |cur|
    ensures cur != "" && tool == cur
  {
    var all := cur + [c] + rest;
    assert all[|cur|] == c && all[..|cur|] == cur;
    forall j | i <= j < i + |tool| ensures all[j] !in " ,|" {
      assert all[i..i+|tool|][j-i] == tool[j-i];
    }
    assert i == 0;
    assert |tool| == |cur|;
  }

  lemma ListsBehind(cur: string, c: char, rest: string, tool: string)
    requires c in " ,|" && forall k :: 0 <= k < |cur| ==> cur[k] !in " ,|"
    ensures Lists(cur + [c] + rest, tool) <==> (cur != "" && tool == cur) || Lists(rest, tool)
  {
    var all, n := cur + [c] + rest, |cur| + 1;
    assert all[n..] == rest && all[n-1] == c && all[..|cur|] == cur;
    if cur != "" && tool == cur { assert StandsAlone(all, tool, 0); }
    hide StandsAlone;
    if i :| StandsAlone(rest, tool, i) {
      StartsInside(rest, tool, i);
      SameBehind(all, rest, n, tool, i);
    }
    if i :| StandsAlone(all, tool, i) {
      StartsInside(all, tool, i);
      if i >= n { SameBehind(all, rest, n, tool, i - n); } else { FrontStands(cur, c, rest, tool, i); }
    }
  }

  lemma StartsInside(matcher: string, tool: string, i: int)
    requires StandsAlone(matcher, tool, i)
    ensures 0 <= i
  {
  }

  lemma {:induction false} AlternativesMean(s: string, cur: string, tool: string)
    requires forall k :: 0 <= k < |cur| ==> cur[k] !in " ,|"
    ensures tool in Alternatives(s, cur) <==> Lists(cur + s, tool)
    decreases |s|
  {
    if s == "" {
      assert cur + s == cur;
      if cur != "" { assert tool == cur ==> StandsAlone(cur, tool, 0); }
    } else if Separator(s[0]) {
      AlternativesMean(s[1..], "", tool);
      assert "" + s[1..] == s[1..] && cur + s == cur + [s[0]] + s[1..];
      ListsBehind(cur, s[0], s[1..], tool);
    } else {
      assert cur + [s[0]] + s[1..] == cur + s;
      AlternativesMean(s[1..], cur + [s[0]], tool);
    }
  }

  predicate ListChar(c: char) {
    0x30 <= c as int <= 0x39 || 0x41 <= c as int <= 0x5A || 0x61 <= c as int <= 0x7A || c in "_- ,|"
  }

  /** Which hooks a tool call concerns: an empty matcher or a star takes every tool; in the project's
      and the user's settings a matcher of names and separators takes exactly the names in it; every
      other matcher is a regular expression, and one that does not compile takes none. */
  lemma MatcherMeans(w: World, h: Hook, tool: string)
    ensures Matches(w, h, "PreToolUse", tool) <==>
      h.event == "PreToolUse" &&
      (h.matcher == "" || h.matcher == "*" ||
       if (h.scope == ProjectScope || h.scope == UserScope) && forall i :: 0 <= i < |h.matcher| ==> ListChar(h.matcher[i])
       then Lists(h.matcher, tool)
       else w.regex(h.matcher, tool) == Some(true))
  {
    AlternativesMean(h.matcher, "", tool);
    assert "" + h.matcher == h.matcher;
    assert forall c :: ListChar(c) <==> ExactChar(c);
  }

  // One run, one verdict.

  function Cap(s: string): string { if |s| <= OUTPUT_CAP then s else s[..OUTPUT_CAP] }

  predicate Blank(c: char) { c == ' ' || c == '\t' || c == '\r' || c == '\n' }

  function TrimLeft(s: string): string { if s != "" && Blank(s[0]) then TrimLeft(s[1..]) else s }

  // What a finished run hands on: stdout only after a clean one; a refusal also its message.
  datatype ExecResult = ExecResult(refused: bool, message: string, stdout: string, err: RunError)

  function Classify(r: HookRun): ExecResult {
    if r.timedOut then ExecResult(false, "", "", r.err)
    else
      match r.err
      case Clean => ExecResult(false, "", Cap(r.stdout), Clean)
      case NotRun => ExecResult(false, "", "", NotRun)
      case Exit(code) =>
        if code == REFUSAL then ExecResult(true, if Cap(r.stderr) == "" then Cap(r.stdout) else Cap(r.stderr), "", r.err)
        else ExecResult(false, "", "", r.err)
  }

  function ParseVerdict(w: World, stdout: string, err: RunError): Resolved {
    match err
    case Exit(code) => if code == REFUSAL then Resolved(Deny, Cap(stdout)) else Resolved(NoDecision, "")
    case NotRun => Resolved(NoDecision, "")
    case Clean =>
      var body := TrimLeft(stdout);
      if body == "" || body[0] != '{' then Resolved(NoDecision, "")
      else
        match w.json(body)
        case None => Resolved(NoDecision, "")
        case Some(d) =>
          if d.permission == "deny" then Resolved(Deny, d.reason)
          else if d.permission == "ask" then Resolved(Ask, d.reason)
          else if d.permission == "allow" then Resolved(Allow, d.reason)
          else Resolved(NoDecision, "")
  }

  function Outcome(w: World, h: Hook): Scoped {
    var res := Classify(w.run(h));
    var v := ParseVerdict(w, res.stdout, res.err);
    Scoped(h.scope, v.verdict, if res.refused then res.message else v.reason)
  }

  function Results(w: World, hs: seq<Hook>): seq<Scoped> {
    seq(|hs|, i requires 0 <= i < |hs| => Outcome(w, hs[i]))
  }

  /** Exit 2 denies whatever the decoder, or anything else outside, makes of the output, even for a
      run that timed out, whose refusal then carries no reason; any other has the hook's own
      message, and none only if it printed nothing. A hook that did not end cleanly otherwise
      decides nothing. */
  lemma ExitCodeRules(w: World, h: Hook)
    ensures w.run(h).err == Exit(2) ==>
      var r, o := w.run(h), Outcome(w, h);
      && o.verdict == Deny
      && (o.reason == "" <==> r.timedOut || (r.stderr == "" && r.stdout == ""))
      && (!r.timedOut ==> o.reason <= if r.stderr != "" then r.stderr else r.stdout)
    ensures w.run(h).err != Exit(2) && w.run(h).err != Clean ==> Outcome(w, h).verdict == NoDecision
    ensures w.run(h).err == Clean && w.run(h).timedOut ==> Outcome(w, h).verdict == NoDecision
  {
    assert TrimLeft("") == "";
  }

  lemma {:induction false} TrimsBlanks(lead: string, body: string)
    requires (forall i :: 0 <= i < |lead| ==> lead[i] in " \t\r\n") && (body == "" || body[0] !in " \t\r\n")
    ensures TrimLeft(lead + body) == body
  {
    if lead == "" {
      assert lead + body == body;
    } else {
      assert (lead + body)[0] == lead[0] && (lead + body)[1..] == lead[1..] + body;
      TrimsBlanks(lead[1..], body);
    }
  }

  // A run that ended cleanly and in time, and what it printed within the cap: blanks, then body.
  predicate CleanlyPrints(r: HookRun, lead: string, body: string) {
    && r.err == Clean && !r.timedOut
    && (if |r.stdout| <= 30000 then r.stdout else r.stdout[..30000]) == lead + body
    && (forall i :: 0 <= i < |lead| ==> lead[i] in " \t\r\n") && (body == "" || body[0] !in " \t\r\n")
  }

  /** What a clean run decides: the permission in its JSON object, word for word and with that
      object's reason, and nothing in every other case. */
  lemma CleanDecision(w: World, h: Hook, lead: string, body: string)
    requires CleanlyPrints(w.run(h), lead, body)
    ensures var o := Outcome(w, h);
      if body != "" && body[0] == '{' && w.json(body).Some? then
        var d := w.json(body).value;
        && (o.verdict == Deny <==> d.permission == "deny")
        && (o.verdict == Ask <==> d.permission == "ask")
        && (o.verdict == Allow <==> d.permission == "allow")
        && (o.verdict != NoDecision ==> o.reason == d.reason)
      else o.verdict == NoDecision
  {
    TrimsBlanks(lead, body);
    var printed := lead + body;
    assert Cap(printed) == printed && Classify(w.run(h)).stdout == printed;
  }

  // The fold.

  // The first result of a kind that counts: an allow counts from the user scope only.
  function First(rs: seq<Scoped>, v: Verdict): Option<Scoped> {
    if rs == [] then None
    else if rs[0].verdict == v && (v.Allow? ==> rs[0].scope.UserScope?) then Some(rs[0])
    else First(rs[1..], v)
  }

  function Resolve(rs: seq<Scoped>): Resolved {
    if First(rs, Deny).Some? then Resolved(Deny, First(rs, Deny).value.reason)
    else if First(rs, Ask).Some? then Resolved(Ask, First(rs, Ask).value.reason)
    else if First(rs, Allow).Some? then Resolved(Allow, First(rs, Allow).value.reason)
    else Resolved(NoDecision, "")
  }

  method ResolveVerdict(rs: seq<Scoped>) returns (r: Resolved)
    ensures r == Resolve(rs)
  {
    var firstDeny: Option<Scoped>, firstAsk: Option<Scoped>, userAllow: Option<Scoped> := None, None, None;
    for i := 0 to |rs|
      invariant firstDeny == First(rs[..i], Deny)
      invariant firstAsk == First(rs[..i], Ask)
      invariant userAllow == First(rs[..i], Allow)
    {
      assert rs[..i+1] == rs[..i] + [rs[i]];
      FirstConcat(rs[..i], [rs[i]], Deny);
      FirstConcat(rs[..i], [rs[i]], Ask);
      FirstConcat(rs[..i], [rs[i]], Allow);
      match rs[i].verdict {
        case Deny =>
          if firstDeny.None? { firstDeny := Some(rs[i]); }
        case Ask =>
          if firstAsk.None? { firstAsk := Some(rs[i]); }
        case Allow =>
          if rs[i].scope.UserScope? {
            if userAllow.None? { userAllow := Some(rs[i]); }
          }
        case NoDecision =>
      }
    }
    assert rs[..|rs|] == rs;
    if firstDeny.Some? {
      r := Resolved(Deny, firstDeny.value.reason);
    } else if firstAsk.Some? {
      r := Resolved(Ask, firstAsk.value.reason);
    } else if userAllow.Some? {
      r := Resolved(Allow, userAllow.value.reason);
    } else {
      r := Resolved(NoDecision, "");
    }
  }

  lemma {:induction false} FirstConcat(a: seq<Scoped>, b: seq<Scoped>, v: Verdict)
    ensures First(a + b, v) == if First(a, v).Some? then First(a, v) else First(b, v)
  {
    if a == [] {
      assert a + b == b;
    } else {
      assert (a + b)[0] == a[0] && (a + b)[1..] == a[1..] + b;
      FirstConcat(a[1..], b, v);
    }
  }

  // Counts as v, at index i of the results, and nothing before it does.
  predicate FirstAt(rs: seq<Scoped>, v: Verdict, i: int) {
    0 <= i < |rs| && Counts(rs[i], v) && forall j :: 0 <= j < i ==> !Counts(rs[j], v)
  }

  predicate Counts(s: Scoped, v: Verdict) { s.verdict == v && (v.Allow? ==> s.scope.UserScope?) }

  lemma {:induction false} FirstIsFirst(rs: seq<Scoped>, v: Verdict)
    ensures First(rs, v).Some? <==> exists i :: 0 <= i < |rs| && Counts(rs[i], v)
    ensures forall i :: FirstAt(rs, v, i) ==> First(rs, v) == Some(rs[i])
  {
    if rs != [] {
      FirstIsFirst(rs[1..], v);
      if Counts(rs[0], v) {
      } else {
        if i :| 0 <= i < |rs| && Counts(rs[i], v) { assert rs[1..][i-1] == rs[i]; }
        if i :| 0 <= i < |rs[1..]| && Counts(rs[1..][i], v) { assert rs[i+1] == rs[1..][i]; }
        forall i | FirstAt(rs, v, i) ensures First(rs, v) == Some(rs[i]) {
          assert forall j :: 0 <= j < |rs| - 1 ==> rs[1..][j] == rs[j+1];
          assert FirstAt(rs[1..], v, i - 1);
        }
      }
    }
  }

  /** Deny wins over everything and ask over any allow, each with the reason of the first result
      that says so; an allow needs a user-scope hook. */
  lemma ResolveMeans(rs: seq<Scoped>)
    ensures var r := Resolve(rs);
            && (r.verdict == Deny <==> exists i :: 0 <= i < |rs| && rs[i].verdict == Deny)
            && (r.verdict == Ask <==>
                  (exists i :: 0 <= i < |rs| && rs[i].verdict == Ask) && r.verdict != Deny)
            && (r.verdict == Allow <==>
                  (exists i :: 0 <= i < |rs| && rs[i].verdict == Allow && rs[i].scope == UserScope)
                  && r.verdict != Deny && r.verdict != Ask)
            && (forall i :: r.verdict != NoDecision && FirstAt(rs, r.verdict, i) ==> r.reason == rs[i].reason)
  {
    FirstIsFirst(rs, Deny);
    FirstIsFirst(rs, Ask);
    FirstIsFirst(rs, Allow);
    assert forall i :: 0 <= i < |rs| ==> (Counts(rs[i], Deny) <==> rs[i].verdict == Deny);
    assert forall i :: 0 <= i < |rs| ==> (Counts(rs[i], Ask) <==> rs[i].verdict == Ask);
    assert forall i :: 0 <= i < |rs| ==> (Counts(rs[i], Allow) <==> rs[i].verdict == Allow && rs[i].scope == UserScope);
  }

  function WithoutDemoted(rs: seq<Scoped>): seq<Scoped> {
    if rs == [] then []
    else (if rs[0].verdict.Allow? && !rs[0].scope.UserScope? then [] else [rs[0]]) + WithoutDemoted(rs[1..])
  }

  /** An allow from a project or a plugin never changes anything, not even the reason. */
  lemma DemotedAllowsAreIgnored(rs: seq<Scoped>)
    ensures Resolve(WithoutDemoted(rs)) == Resolve(rs)
  {
    FirstWithoutDemoted(rs, Deny);
    FirstWithoutDemoted(rs, Ask);
    FirstWithoutDemoted(rs, Allow);
  }

  lemma {:induction false} FirstWithoutDemoted(rs: seq<Scoped>, v: Verdict)
    requires v != NoDecision
    ensures First(WithoutDemoted(rs), v) == First(rs, v)
  {
    if rs != [] {
      FirstWithoutDemoted(rs[1..], v);
      if !(rs[0].verdict.Allow? && !rs[0].scope.UserScope?) {
        assert WithoutDemoted(rs)[1..] == WithoutDemoted(rs[1..]);
      } else {
        assert WithoutDemoted(rs) == WithoutDemoted(rs[1..]);
      }
    }
  }

  // The whole gate, from the discovered hooks.

  function Gate(w: World, discovered: seq<Hook>, tool: string): Resolved {
    Resolve(Results(w, Matching(w, ByScope(discovered), PRE_TOOL_USE, tool)))
  }

  method RunGate(w: World, discovered: seq<Hook>, tool: string) returns (r: Resolved)
    ensures r == Gate(w, discovered, tool)
  {
    var runner := new HookRunner(discovered);
    r := runner.PreToolUseVerdict(w, tool);
  }

  predicate Denies(w: World, tool: string, h: Hook) {
    Matches(w, h, PRE_TOOL_USE, tool) && Outcome(w, h).verdict == Deny
  }

  function FirstDenier(w: World, tool: string, hs: seq<Hook>): Option<Hook> {
    if hs == [] then None else if Denies(w, tool, hs[0]) then Some(hs[0]) else FirstDenier(w, tool, hs[1..])
  }

  lemma {:induction false} FirstDenierResult(w: World, tool: string, hs: seq<Hook>)
    ensures var f := First(Results(w, Matching(w, hs, PRE_TOOL_USE, tool)), Deny);
            f == match FirstDenier(w, tool, hs) case None => None case Some(h) => Some(Outcome(w, h))
  {
    if hs != [] {
      FirstDenierResult(w, tool, hs[1..]);
      var m, rest := Matching(w, hs, PRE_TOOL_USE, tool), Matching(w, hs[1..], PRE_TOOL_USE, tool);
      if Matches(w, hs[0], PRE_TOOL_USE, tool) {
        assert m[0] == hs[0] && m[1..] == rest;
        assert Results(w, m)[0] == Outcome(w, hs[0]) && Results(w, m)[1..] == Results(w, rest);
      } else {
        assert m == rest;
      }
    }
  }

  lemma {:induction false} FirstDenierConcat(w: World, tool: string, a: seq<Hook>, b: seq<Hook>)
    ensures FirstDenier(w, tool, a + b) ==
            if FirstDenier(w, tool, a).Some? then FirstDenier(w, tool, a) else FirstDenier(w, tool, b)
  {
    if a == [] {
      assert a + b == b;
    } else {
      assert (a + b)[0] == a[0] && (a + b)[1..] == a[1..] + b;
      FirstDenierConcat(w, tool, a[1..], b);
    }
  }

  // The project's hooks come first, then the user's, then all others.
  predicate ScopeBefore(a: Scope, b: Scope) {
    (a == ProjectScope && b != ProjectScope) || (a == UserScope && b != ProjectScope && b != UserScope)
  }

  lemma RankIsScope(a: Scope, b: Scope)
    ensures Rank(a) < Rank(b) <==> ScopeBefore(a, b)
    ensures Rank(a) == Rank(b) <==> !ScopeBefore(a, b) && !ScopeBefore(b, a)
  {
  }

  // Hook i denies, no denier's scope comes before its own, and none of the same was found before it.
  predicate LeadingDenier(w: World, tool: string, hs: seq<Hook>, i: int) {
    && 0 <= i < |hs| && Denies(w, tool, hs[i])
    && forall j :: 0 <= j < |hs| && Denies(w, tool, hs[j]) ==>
         ScopeBefore(hs[i].scope, hs[j].scope) || (!ScopeBefore(hs[j].scope, hs[i].scope) && i <= j)
  }

  // Any denier of its rank comes first in its rank's list, if it is the first of that rank.
  lemma {:induction false} FirstDenierOfRank(w: World, tool: string, hs: seq<Hook>, i: int)
    requires 0 <= i < |hs| && Denies(w, tool, hs[i])
    requires forall j :: 0 <= j < i && Denies(w, tool, hs[j]) ==> Rank(hs[j].scope) != Rank(hs[i].scope)
    ensures FirstDenier(w, tool, OfRank(hs, Rank(hs[i].scope))) == Some(hs[i])
  {
    var r, rest := Rank(hs[i].scope), hs[1..];
    var here := if Rank(hs[0].scope) == r then [hs[0]] else [];
    FirstDenierConcat(w, tool, here, OfRank(rest, r));
    assert i == 0 ==> FirstDenier(w, tool, here) == Some(hs[0]);
    if i > 0 {
      FirstDenierOfRank(w, tool, rest, i - 1);
      assert FirstDenier(w, tool, here) == None;
    }
  }

  lemma {:induction false} NoDenier(w: World, tool: string, hs: seq<Hook>)
    requires forall i :: 0 <= i < |hs| ==> !Denies(w, tool, hs[i])
    ensures FirstDenier(w, tool, hs) == None
  {
    if hs != [] { NoDenier(w, tool, hs[1..]); }
  }

  lemma NoDenierOfRank(w: World, tool: string, hs: seq<Hook>, r: nat)
    requires forall i :: 0 <= i < |hs| && Denies(w, tool, hs[i]) ==> Rank(hs[i].scope) != r
    ensures FirstDenier(w, tool, OfRank(hs, r)) == None
  {
    OfRankIsAllOf(hs, r);
    var ds := OfRank(hs, r);
    forall i | 0 <= i < |ds| ensures !Denies(w, tool, ds[i]) {
      assert ds[i] in hs;
    }
    NoDenier(w, tool, ds);
  }

  lemma FirstDenierByScope(w: World, tool: string, hs: seq<Hook>, i: int)
    requires LeadingDenier(w, tool, hs, i)
    ensures FirstDenier(w, tool, ByScope(hs)) == Some(hs[i])
  {
    var p, u, o := OfRank(hs, 0), OfRank(hs, 1), OfRank(hs, 2);
    FirstDenierConcat(w, tool, p + u, o);
    FirstDenierConcat(w, tool, p, u);
    FirstDenierOfRank(w, tool, hs, i);
    var r := Rank(hs[i].scope);
    if r > 0 { NoDenierOfRank(w, tool, hs, 0); }
    if r > 1 { NoDenierOfRank(w, tool, hs, 1); }
  }

  /** The denier a refusal speaks for is the first found in the project, else in the user
      settings, else in the plugins. */
  lemma GateDenies(w: World, hs: seq<Hook>, tool: string, i: int)
    requires LeadingDenier(w, tool, hs, i)
    ensures Gate(w, hs, tool) == Resolved(Deny, Outcome(w, hs[i]).reason)
  {
    FirstDenierByScope(w, tool, hs, i);
    FirstDenierResult(w, tool, ByScope(hs));
  }

  lemma {:induction false} SomeLeadingDenier(w: World, tool: string, hs: seq<Hook>, k: int) returns (i: int)
    requires 0 <= k < |hs| && Denies(w, tool, hs[k])
    ensures LeadingDenier(w, tool, hs, i)
    decreases Rank(hs[k].scope), k
  {
    if LeadingDenier(w, tool, hs, k) {
      i := k;
    } else {
      var j :| 0 <= j < |hs| && Denies(w, tool, hs[j]) &&
               !(ScopeBefore(hs[k].scope, hs[j].scope) || (!ScopeBefore(hs[j].scope, hs[k].scope) && k <= j));
      i := SomeLeadingDenier(w, tool, hs, j);
    }
  }

  /** The gate denies exactly when some matching hook does. */
  lemma GateDeniesExactly(w: World, hs: seq<Hook>, tool: string)
    ensures Gate(w, hs, tool).verdict == Deny <==> exists i :: 0 <= i < |hs| && Denies(w, tool, hs[i])
  {
    if k :| 0 <= k < |hs| && Denies(w, tool, hs[k]) {
      var i := SomeLeadingDenier(w, tool, hs, k);
      GateDenies(w, hs, tool, i);
    } else {
      NoDenierOfRank(w, tool, hs, 0);
      NoDenierOfRank(w, tool, hs, 1);
      NoDenierOfRank(w, tool, hs, 2);
      FirstDenierConcat(w, tool, OfRank(hs, 0) + OfRank(hs, 1), OfRank(hs, 2));
      FirstDenierConcat(w, tool, OfRank(hs, 0), OfRank(hs, 1));
      FirstDenierResult(w, tool, ByScope(hs));
    }
  }

  // What some matching hook says; an allow counts from the user's settings only.
  ghost predicate Says(w: World, hs: seq<Hook>, tool: string, v: Verdict) {
    exists h :: h in hs && Matches(w, h, PRE_TOOL_USE, tool) && Outcome(w, h).verdict == v &&
                (v.Allow? ==> h.scope.UserScope?)
  }

  lemma {:induction false} OfRankHas(hs: seq<Hook>, h: Hook)
    requires h in hs
    ensures h in OfRank(hs, Rank(h.scope))
  {
    if h != hs[0] { OfRankHas(hs[1..], h); }
  }

  lemma ByScopeHas(hs: seq<Hook>, h: Hook)
    ensures h in ByScope(hs) <==> h in hs
  {
    OfRankIsAllOf(hs, 0);
    OfRankIsAllOf(hs, 1);
    OfRankIsAllOf(hs, 2);
    if h in hs { OfRankHas(hs, h); }
  }

  lemma {:induction false} MatchingHas(w: World, hs: seq<Hook>, tool: string, h: Hook)
    ensures h in Matching(w, hs, PRE_TOOL_USE, tool) <==> h in hs && Matches(w, h, PRE_TOOL_USE, tool)
  {
    if hs != [] { MatchingHas(w, hs[1..], tool, h); }
  }

  // Some result counts as v exactly if some matching hook says it.
  lemma ResultsSay(w: World, hs: seq<Hook>, tool: string, v: Verdict)
    ensures First(Results(w, Matching(w, ByScope(hs), PRE_TOOL_USE, tool)), v).Some? <==> Says(w, hs, tool, v)
  {
    hide Matches, Outcome, Matching, ByScope;
    var ms := Matching(w, ByScope(hs), PRE_TOOL_USE, tool);
    var rs := Results(w, ms);
    FirstIsFirst(rs, v);
    forall h ensures h in ms <==> h in hs && Matches(w, h, PRE_TOOL_USE, tool) {
      ByScopeHas(hs, h);
      MatchingHas(w, ByScope(hs), tool, h);
    }
    assert forall i :: 0 <= i < |rs| ==> rs[i] == Outcome(w, ms[i]) && ms[i] in ms;
    OutcomeScope(w);
    if h :| h in hs && Matches(w, h, PRE_TOOL_USE, tool) && Outcome(w, h).verdict == v && (v.Allow? ==> h.scope.UserScope?) {
      var i :| 0 <= i < |ms| && ms[i] == h;
      assert Counts(rs[i], v);
    }
  }

  lemma OutcomeScope(w: World)
    ensures forall h :: Outcome(w, h).scope == h.scope
  {
  }

  /** The gate on any list of discovered hooks: one matching denial decides; without one, one ask
      does; without either, an allow from the user's settings does. */
  lemma GateMeans(w: World, hs: seq<Hook>, tool: string)
    ensures var v := Gate(w, hs, tool).verdict;
      && (v == Deny <==> Says(w, hs, tool, Deny))
      && (v == Ask <==> Says(w, hs, tool, Ask) && !Says(w, hs, tool, Deny))
      && (v == Allow <==> Says(w, hs, tool, Allow) && !Says(w, hs, tool, Ask) && !Says(w, hs, tool, Deny))
  {
    hide Says;
    ResultsSay(w, hs, tool, Deny);
    ResultsSay(w, hs, tool, Ask);
    ResultsSay(w, hs, tool, Allow);
  }

  // One matching hook that exits 2 blocks the tool, whatever the others say.
  lemma RefusalBlocks(w: World, hs: seq<Hook>, tool: string, h: Hook)
    requires h in hs && Matches(w, h, PRE_TOOL_USE, tool) && w.run(h).err == Exit(2)
    ensures Gate(w, hs, tool).verdict == Deny
  {
    ExitCodeRules(w, h);
    assert Says(w, hs, tool, Deny);
    GateMeans(w, hs, tool);
  }

  // And so does one that cleanly prints a denial.
  lemma DenialBlocks(w: World, hs: seq<Hook>, tool: string, h: Hook, lead: string, body: string)
    requires h in hs && Matches(w, h, PRE_TOOL_USE, tool) && CleanlyPrints(w.run(h), lead, body)
    requires body != "" && body[0] == '{' && w.json(body).Some? && w.json(body).value.permission == "deny"
    ensures Gate(w, hs, tool).verdict == Deny
  {
    CleanDecision(w, h, lead, body);
    assert Says(w, hs, tool, Deny);
    GateMeans(w, hs, tool);
  }

  /** The verdict, though not the reason, is the same for every order of discovery. */
  lemma VerdictIgnoresOrder(rs: seq<Scoped>, ts: seq<Scoped>)
    requires multiset(rs) == multiset(ts)
    ensures Resolve(rs).verdict == Resolve(ts).verdict
  {
    forall v: Verdict ensures First(rs, v).Some? <==> First(ts, v).Some? {
      FirstIsFirst(rs, v);
      FirstIsFirst(ts, v);
      if i :| 0 <= i < |rs| && Counts(rs[i], v) {
        assert rs[i] in multiset(rs) && rs[i] in ts;
        var j :| 0 <= j < |ts| && ts[j] == rs[i];
        assert Counts(ts[j], v);
      }
      if i :| 0 <= i < |ts| && Counts(ts[i], v) {
        assert ts[i] in multiset(ts) && ts[i] in rs;
        var j :| 0 <= j < |rs| && rs[j] == ts[i];
        assert Counts(rs[j], v);
      }
    }
  }
}
