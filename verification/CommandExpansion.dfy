/** Placeholder expansion of a command body: eleven ReplaceAll passes, one per token, against
    a single left-to-right substitution. */
module CommandExpansion {
  // $ARGUMENTS, and $0 to $9.
  datatype Token = Arguments | Digit(n: nat)
  datatype Piece = Lit(c: char) | Tok(t: Token)

  const HEADING := "\n\nUser arguments:\n"

  predicate IsDigit(c: char) { '0' <= c <= '9' }
  function DigitOf(c: char): (n: nat)
    requires IsDigit(c)
    ensures n <= 9 && DigitChar(n) == c
  {
    c as int - '0' as int
  }

  function DigitChar(n: nat): (c: char)
    requires n <= 9
    ensures IsDigit(c)
  {
    ('0' as int + n) as char
  }

  predicate Proper(t: Token) { t.Digit? ==> t.n <= 9 }

  // One dollar, at the front, then what tells the tokens apart.
  function Text(t: Token): (r: string)
    requires Proper(t)
    ensures |r| >= 2 && r[0] == '$' && '$' !in r[1..]
    ensures r[1] == if t.Arguments? then 'A' else DigitChar(t.n)
  {
    if t.Arguments? then "$ARGUMENTS" else ['$', DigitChar(t.n)]
  }

  // The first match first, never looking at what was put in.
  function ReplaceAll(s: string, old_: string, new_: string): string
    requires old_ != ""
  {
    if s == "" then ""
    else if old_ <= s then new_ + ReplaceAll(s[|old_|..], old_, new_)
    else [s[0]] + ReplaceAll(s[1..], old_, new_)
  }

  predicate Contains(s: string, sub: string) {
    exists i :: 0 <= i <= |s| && sub <= s[i..]
  }

  // Unicode White_Space.
  predicate IsSpace(c: char) {
    '\t' <= c <= '\r' || c == ' ' || c == '\U{85}' || c == '\U{a0}' || c == '\U{1680}' ||
    '\U{2000}' <= c <= '\U{200a}' || c == '\U{2028}' || c == '\U{2029}' || c == '\U{202f}' ||
    c == '\U{205f}' || c == '\U{3000}'
  }

  // Whitespace-separated fields; cur is the field being read.
  function FieldsFrom(s: string, cur: string): seq<string> {
    if s == "" then (if cur == "" then [] else [cur])
    else if IsSpace(s[0]) then (if cur == "" then [] else [cur]) + FieldsFrom(s[1..], "")
    else FieldsFrom(s[1..], cur + [s[0]])
  }

  function Fields(s: string): seq<string> { FieldsFrom(s, "") }

  function FieldAt(fields: seq<string>, n: int): string {
    if n < 1 || n > |fields| then "" else fields[n-1]
  }

  function Value(t: Token, args: string): string {
    match t
    case Arguments => args
    case Digit(n) => if n == 0 then "" else FieldAt(Fields(args), n)
  }

  // The chain of passes: $ARGUMENTS first, then $9 down to $0.

  const PASSES: nat := 11

  function PassToken(k: nat): (t: Token)
    requires k < PASSES
    ensures Proper(t)
  {
    if k == 0 then Arguments else Digit(PASSES - 1 - k)
  }

  // The token's pass is among the first k.
  predicate Passed(t: Token, k: nat) {
    if t.Arguments? then k > 0 else t.n + k > PASSES - 1
  }

  function Chain(body: string, k: nat, args: string): string
    requires k <= PASSES
  {
    if k == 0 then body
    else ReplaceAll(Chain(body, k - 1, args), Text(PassToken(k - 1)), Value(PassToken(k - 1), args))
  }

  ghost predicate HasPlaceholder(body: string) {
    exists t :: Proper(t) && Contains(body, Text(t))
  }

  method HasPlaceholderScan(body: string) returns (has: bool)
    ensures has <==> HasPlaceholder(body)
  {
    if Contains(body, Text(Arguments)) {
      return true;
    }
    for n := 0 to 10
      invariant forall m :: 0 <= m < n ==> !Contains(body, Text(Digit(m)))
    {
      if Contains(body, Text(Digit(n))) {
        return true;
      }
    }
    return false;
  }

  function Tail(body: string, args: string): string {
    if args != "" && !HasToken(Parse(body)) then HEADING + args else ""
  }

  // The passes themselves.
  method Substitute(body: string, args: string) returns (out: string)
    ensures out == Chain(body, PASSES, args)
  {
    var fields := Fields(args);
    out := ReplaceAll(body, Text(Arguments), args);
    assert Chain(body, 0, args) == body;
    var n := 9;
    while n >= 1
      invariant 0 <= n <= 9
      invariant out == Chain(body, PASSES - 1 - n, args)
    {
      assert PassToken(PASSES - 1 - n) == Digit(n);
      out := ReplaceAll(out, Text(Digit(n)), FieldAt(fields, n));
      n := n - 1;
    }
    out := ReplaceAll(out, Text(Digit(0)), "");
  }

  function Expanded(body: string, args: string): string { Chain(body, PASSES, args) + Tail(body, args) }

  /** Expand's result: the chain of passes, and the argument tail exactly when there are
      arguments and the body has no token for them. */
  method Expand(body: string, args: string) returns (out: string)
    ensures out == Expanded(body, args)
  {
    out := Substitute(body, args);
    var has := HasPlaceholderScan(body);
    PlaceholderIsToken(body);
    if args != "" && !has {
      out := out + (HEADING + args);
    } else {
      assert out + "" == out;
    }
  }

  // The single pass.

  function TokenAtStart(s: string): seq<Token> {
    if Text(Arguments) <= s then [Arguments]
    else if |s| > 1 && s[0] == '$' && IsDigit(s[1]) then [Digit(DigitOf(s[1]))]
    else []
  }

  lemma TokenFits(s: string)
    ensures |TokenAtStart(s)| <= 1
    ensures TokenAtStart(s) != [] ==> Proper(TokenAtStart(s)[0]) && Text(TokenAtStart(s)[0]) <= s
  {
  }

  // At most one token's text begins a string.
  lemma TokenFound(s: string, t: Token)
    requires Proper(t) && Text(t) <= s
    ensures TokenAtStart(s) == [t]
  {
    assert s[1] == Text(t)[1] && s[0] == '$';
    assert Text(Arguments) <= s ==> s[1] == 'A';
  }

  predicate ProperPieces(ps: seq<Piece>) { forall k :: 0 <= k < |ps| && ps[k].Tok? ==> Proper(ps[k].t) }

  function Parse(body: string): (ps: seq<Piece>)
    ensures ProperPieces(ps)
  {
    if body == "" then []
    else
      var t := TokenAtStart(body);
      if t != [] then [Tok(t[0])] + Parse(body[|Text(t[0])|..]) else [Lit(body[0])] + Parse(body[1..])
  }

  predicate HasToken(ps: seq<Piece>) { exists k :: 0 <= k < |ps| && ps[k].Tok? }

  // Text with the tokens of the first done passes replaced by what vals gives for them.
  function Render(ps: seq<Piece>, done: nat, vals: Token -> string): string
    requires ProperPieces(ps)
  {
    if ps == [] then ""
    else
      (match ps[0]
       case Lit(c) => [c]
       case Tok(t) => if Passed(t, done) then vals(t) else Text(t)) + Render(ps[1..], done, vals)
  }

  function Values(args: string): Token -> string { t => Value(t, args) }

  // One left-to-right substitution.
  function OnePass(body: string, args: string): string {
    if body == "" then ""
    else
      var t := TokenAtStart(body);
      if t != [] then Value(t[0], args) + OnePass(body[|Text(t[0])|..], args)
      else [body[0]] + OnePass(body[1..], args)
  }

  lemma {:induction false} PlaceholderAt(body: string, t: Token, i: nat)
    requires Proper(t) && i <= |body| && Text(t) <= body[i..]
    ensures HasToken(Parse(body))
  {
    assert body[i] == body[i..][0] == '$';
    var u := TokenAtStart(body);
    var ps := Parse(body);
    if i == 0 {
      assert body[i..] == body;
      TokenFound(body, t);
      assert ps[0].Tok?;
    } else if u != [] {
      assert ps[0].Tok?;
    } else {
      assert body[1..][i-1..] == body[i..];
      PlaceholderAt(body[1..], t, i - 1);
      var k :| 0 <= k < |Parse(body[1..])| && Parse(body[1..])[k].Tok?;
      assert ps[k+1].Tok?;
    }
  }

  lemma ContainsLater(s: string, sub: string)
    requires s != "" && Contains(s[1..], sub)
    ensures Contains(s, sub)
  {
    var i :| 0 <= i <= |s[1..]| && sub <= s[1..][i..];
    assert s[1..][i..] == s[i+1..];
  }

  lemma {:induction false} TokenIsPlaceholder(body: string)
    requires HasToken(Parse(body))
    ensures HasPlaceholder(body)
  {
    var t := TokenAtStart(body);
    if t != [] {
      assert body[0..] == body;
      assert Contains(body, Text(t[0]));
    } else {
      var k :| 0 <= k < |Parse(body)| && Parse(body)[k].Tok?;
      var rest := body[1..];
      assert Parse(rest)[k-1].Tok?;
      TokenIsPlaceholder(rest);
      var u :| Proper(u) && Contains(rest, Text(u));
      ContainsLater(body, Text(u));
    }
  }

  // The substring search sees exactly the tokens of the single pass.
  lemma PlaceholderIsToken(body: string)
    ensures HasPlaceholder(body) <==> HasToken(Parse(body))
  {
    if HasPlaceholder(body) {
      var t :| Proper(t) && Contains(body, Text(t));
      var i :| 0 <= i <= |body| && Text(t) <= body[i..];
      PlaceholderAt(body, t, i);
    }
    if HasToken(Parse(body)) { TokenIsPlaceholder(body); }
  }

  // The chain against the single pass.

  predicate Plain(s: string) { '$' !in s }

  // A dollar that begins no token but stands directly before one other than $0.
  predicate HazardFree(ps: seq<Piece>) {
    forall k :: 0 <= k < |ps| - 1 && ps[k] == Lit('$') && ps[k+1].Tok? ==> ps[k+1].t == Digit(0)
  }

  // A value put in after such a dollar cannot complete the token t.
  predicate SafeFor(ps: seq<Piece>, done: nat, t: Token, vals: Token -> string)
    requires Proper(t)
  {
    forall k :: 0 <= k < |ps| - 1 && ps[k] == Lit('$') && ps[k+1].Tok? && Passed(ps[k+1].t, done) ==>
      vals(ps[k+1].t) != "" && vals(ps[k+1].t)[0] != Text(t)[1]
  }

  lemma {:induction false} FieldsPlain(s: string, cur: string)
    requires Plain(s) && Plain(cur)
    ensures forall i :: 0 <= i < |FieldsFrom(s, cur)| ==> Plain(FieldsFrom(s, cur)[i])
  {
    if s != "" { if IsSpace(s[0]) { FieldsPlain(s[1..], ""); } else { FieldsPlain(s[1..], cur + [s[0]]); } }
  }

  lemma ValuePlain(t: Token, args: string)
    requires Plain(args)
    ensures Plain(Value(t, args))
  {
    FieldsPlain(args, "");
  }

  // A stretch without dollars is passed over.
  lemma {:induction false} SkipPlain(v: string, r: string, t: Token, new_: string)
    requires Plain(v) && Proper(t)
    ensures ReplaceAll(v + r, Text(t), new_) == v + ReplaceAll(r, Text(t), new_)
  {
    if v == "" {
      assert v + r == r;
    } else {
      assert (v + r)[0] != '$' && (v + r)[1..] == v[1..] + r;
      SkipPlain(v[1..], r, t, new_);
    }
  }

  // A dollar that does not begin t is passed over.
  lemma SkipDollar(r: string, t: Token, new_: string)
    requires Proper(t) && !(Text(t) <= "$" + r)
    ensures ReplaceAll("$" + r, Text(t), new_) == "$" + ReplaceAll(r, Text(t), new_)
  {
    assert ("$" + r)[1..] == r;
  }

  lemma Match(r: string, t: Token, new_: string)
    requires Proper(t)
    ensures ReplaceAll(Text(t) + r, Text(t), new_) == new_ + ReplaceAll(r, Text(t), new_)
  {
    assert Text(t) <= Text(t) + r && (Text(t) + r)[|Text(t)|..] == r;
  }

  lemma SkipToken(u: Token, r: string, t: Token, new_: string)
    requires Proper(t) && Proper(u) && t != u
    ensures ReplaceAll(Text(u) + r, Text(t), new_) == Text(u) + ReplaceAll(r, Text(t), new_)
  {
    var rest := Text(u)[1..];
    assert Text(u) + r == "$" + (rest + r);
    assert ("$" + (rest + r))[1] == Text(u)[1] != Text(t)[1];
    SkipDollar(rest + r, t, new_);
    SkipPlain(rest, r, t, new_);
    assert "$" + (rest + ReplaceAll(r, Text(t), new_)) == Text(u) + ReplaceAll(r, Text(t), new_);
  }

  // Printing a parsed body gives the body back.
  lemma {:induction false} ParsePrint(body: string, vals: Token -> string)
    ensures Render(Parse(body), 0, vals) == body
  {
    if body != "" {
      var u := TokenAtStart(body);
      TokenFits(body);
      var front := if u != [] then Text(u[0]) else [body[0]];
      var rest := body[|front|..];
      ParsePrint(rest, vals);
      assert Parse(body)[1..] == Parse(rest);
      assert Render(Parse(body), 0, vals) == front + Render(Parse(rest), 0, vals);
      assert body == front + rest;
    }
  }

  lemma {:induction false} RenderAll(body: string, args: string, vals: Token -> string)
    requires forall t :: Proper(t) ==> vals(t) == Value(t, args)
    ensures Render(Parse(body), PASSES, vals) == OnePass(body, args)
  {
    if body != "" {
      var u := TokenAtStart(body);
      var rest := if u != [] then body[|Text(u[0])|..] else body[1..];
      RenderAll(rest, args, vals);
      assert Parse(body)[1..] == Parse(rest);
    }
  }

  // Nothing that is rendered right after a dollar outside the tokens makes it begin t.
  lemma AfterDollar(body: string, done: nat, t: Token, vals: Token -> string)
    requires body != "" && body[0] == '$' && TokenAtStart(body) == [] && Proper(t)
    requires SafeFor(Parse(body), done, t, vals) && (t.Arguments? ==> done == 0)
    ensures !(Text(t) <= "$" + Render(Parse(body[1..]), done, vals))
  {
    var ps, rest := Parse(body), body[1..];
    var r := Render(Parse(rest), done, vals);
    assert ps[1..] == Parse(rest);
    var u := TokenAtStart(rest);
    TokenFits(rest);
    if rest == "" {
    } else if u != [] {
      assert ps[0] == Lit('$') && ps[1] == Tok(u[0]);
      assert ("$" + r)[1] == r[0] != Text(t)[1];
    } else if t.Arguments? {
      ParsePrint(rest, vals);
      assert "$" + rest == body;
    } else {
      assert ("$" + r)[1] == r[0] == rest[0] == body[1];
    }
  }

  predicate EndsInDollar(s: string) { s != "" && s[|s|-1] == '$' }

  lemma NotAtSeam(w: string, r: string, x: string)
    requires |x| == 2 && w != "" && !(w[|w|-1] == x[0] && r != "" && r[0] == x[1])
    ensures x <= w + r <==> x <= w
  {
    if |w| == 1 {
      assert r != "" ==> (w + r)[..2] == [w[0], r[0]];
    } else {
      assert (w + r)[..2] == w[..2];
    }
  }

  lemma ReplaceStep(s: string, x: string, v: string)
    requires |x| == 2 && s != ""
    ensures x <= s ==> ReplaceAll(s, x, v) == v + ReplaceAll(s[2..], x, v)
    ensures !(x <= s) ==> ReplaceAll(s, x, v) == [s[0]] + ReplaceAll(s[1..], x, v)
  {
  }

  lemma Regroup(a: string, b: string, c: string)
    ensures a + (b + c) == a + b + c
  {
  }

  lemma Drop(w: string, r: string, n: nat)
    requires n <= |w|
    ensures (w + r)[n..] == w[n..] + r
    ensures |w[n..]| == |w| - n && (n < |w| ==> w[n..][|w| - n - 1] == w[|w|-1])
  {
  }

  // Replacing two characters works on two texts apart unless they stand across the seam.
  lemma {:induction false} SplitPair(w: string, r: string, x: string, v: string)
    requires |x| == 2 && !(w != "" && w[|w|-1] == x[0] && r != "" && r[0] == x[1])
    ensures ReplaceAll(w + r, x, v) == ReplaceAll(w, x, v) + ReplaceAll(r, x, v)
    decreases |w|
  {
    if w == "" {
      assert w + r == r;
    } else {
      NotAtSeam(w, r, x);
      ReplaceStep(w, x, v);
      ReplaceStep(w + r, x, v);
      hide ReplaceAll;
      if x <= w {
        Drop(w, r, 2);
        SplitPair(w[2..], r, x, v);
        Regroup(v, ReplaceAll(w[2..], x, v), ReplaceAll(r, x, v));
      } else {
        Drop(w, r, 1);
        SplitPair(w[1..], r, x, v);
        Regroup([w[0]], ReplaceAll(w[1..], x, v), ReplaceAll(r, x, v));
      }
    }
  }

  lemma SplitReplace(w: string, r: string, t: Token, new_: string)
    requires Proper(t) && t.Digit? && !(EndsInDollar(w) && r != "" && r[0] == Text(t)[1])
    ensures ReplaceAll(w + r, Text(t), new_) == ReplaceAll(w, Text(t), new_) + ReplaceAll(r, Text(t), new_)
  {
    SplitPair(w, r, Text(t), new_);
  }

  // What the pass of t makes of the texts put in before it, and of its own.
  ghost predicate OnePassOn(k: nat, f: Token -> string, g: Token -> string)
    requires k < PASSES
  {
    forall u :: Proper(u) && Passed(u, k) ==> g(u) == ReplaceAll(f(u), Text(PassToken(k)), g(PassToken(k)))
  }

  ghost predicate NoneTrails(k: nat, f: Token -> string) {
    forall u :: Proper(u) && Passed(u, k) ==> !EndsInDollar(f(u))
  }

  // One more pass replaces one more token, works on what was put in before it, and leaves the
  // rest alone.
  lemma {:induction false} PassStep(body: string, k: nat, f: Token -> string, g: Token -> string)
    requires k < PASSES && SafeFor(Parse(body), k, PassToken(k), f) && NoneTrails(k, f) && OnePassOn(k, f, g)
    ensures var t := PassToken(k);
            ReplaceAll(Render(Parse(body), k, f), Text(t), g(t)) == Render(Parse(body), k + 1, g)
  {
    if body != "" {
      var t, u, ps := PassToken(k), TokenAtStart(body), Parse(body);
      TokenFits(body);
      var rest := if u != [] then body[|Text(u[0])|..] else body[1..];
      assert ps[1..] == Parse(rest);
      assert SafeFor(Parse(rest), k, t, f) by {
        assert forall i :: 0 <= i < |Parse(rest)| ==> Parse(rest)[i] == ps[i+1];
      }
      PassStep(rest, k, f, g);
      var r := Render(Parse(rest), k, f);
      if u == [] {
        if body[0] == '$' {
          AfterDollar(body, k, t, f);
          SkipDollar(r, t, g(t));
        } else {
          SkipPlain([body[0]], r, t, g(t));
        }
      } else if Passed(u[0], k) {
        SplitReplace(f(u[0]), r, t, g(t));
      } else if u[0] == t {
        Match(r, t, g(t));
      } else {
        SkipToken(u[0], r, t, g(t));
      }
    }
  }

  // The arguments and their first nine fields.
  predicate NoTrailing(args: string) {
    !EndsInDollar(args) && forall n :: 1 <= n <= 9 ==> !EndsInDollar(FieldAt(Fields(args), n))
  }

  // No pass changes a value that an earlier one put in.
  ghost predicate Untouched(args: string) {
    forall t, k: nat :: Proper(t) && k < PASSES && Passed(t, k) ==>
      ReplaceAll(Value(t, args), Text(PassToken(k)), Value(PassToken(k), args)) == Value(t, args)
  }

  lemma PlainUntouched(args: string)
    requires Plain(args)
    ensures NoTrailing(args) && Untouched(args)
  {
    FieldsPlain(args, "");
    forall t, k: nat | Proper(t) && k < PASSES && Passed(t, k)
      ensures ReplaceAll(Value(t, args), Text(PassToken(k)), Value(PassToken(k), args)) == Value(t, args)
    {
      ValuePlain(t, args);
      SkipPlain(Value(t, args), "", PassToken(k), Value(PassToken(k), args));
      assert Value(t, args) + "" == Value(t, args);
    }
  }

  lemma ValuesQuiet(args: string, k: nat)
    requires k < PASSES && NoTrailing(args) && Untouched(args)
    ensures NoneTrails(k, Values(args)) && OnePassOn(k, Values(args), Values(args))
  {
  }

  lemma {:induction false} ChainRenders(body: string, k: nat, args: string)
    requires k <= PASSES && NoTrailing(args) && Untouched(args)
    requires forall j :: 0 <= j < k ==> SafeFor(Parse(body), j, PassToken(j), Values(args))
    ensures Chain(body, k, args) == Render(Parse(body), k, Values(args))
  {
    if k == 0 {
      ParsePrint(body, Values(args));
    } else {
      ChainRenders(body, k - 1, args);
      ValuesQuiet(args, k - 1);
      hide NoTrailing, Untouched, NoneTrails, OnePassOn, SafeFor;
      PassStep(body, k - 1, Values(args), Values(args));
    }
  }

  // With arguments free of dollars and no hazard in the body, the eleven passes are one pass.
  lemma ChainIsOnePass(body: string, args: string)
    requires Plain(args) && HazardFree(Parse(body))
    ensures Chain(body, PASSES, args) == OnePass(body, args)
  {
    PlainUntouched(args);
    ChainRenders(body, PASSES, args);
    RenderAll(body, args, Values(args));
  }

  // Arguments that tell the two apart: nine fields, each "0".

  function Zeros(n: nat): string { if n == 0 then "" else "0 " + Zeros(n - 1) }

  lemma {:induction false} ZeroFields(n: nat)
    ensures Plain(Zeros(n)) && (n > 0 ==> Zeros(n)[0] == '0')
    ensures |Fields(Zeros(n))| == n && forall i :: 0 <= i < n ==> Fields(Zeros(n))[i] == "0"
  {
    if n > 0 {
      ZeroFields(n - 1);
      var s, r := Zeros(n), Zeros(n - 1);
      assert s[1..][1..] == r && s[0] == '0' && s[1..][0] == ' ';
      assert FieldsFrom(s, "") == FieldsFrom(s[1..], "" + [s[0]]);
      assert "" + [s[0]] == "0";
      assert FieldsFrom(s[1..], "0") == ["0"] + FieldsFrom(r, "");
    }
  }

  function Dollars(s: string): nat {
    if s == "" then 0 else (if s[0] == '$' then 1 else 0) + Dollars(s[1..])
  }

  lemma {:induction false} DollarsPlain(v: string, r: string)
    requires Plain(v)
    ensures Dollars(v + r) == Dollars(r)
  {
    if v == "" {
      assert v + r == r;
    } else {
      assert (v + r)[0] == v[0] != '$' && (v + r)[1..] == v[1..] + r;
      DollarsPlain(v[1..], r);
    }
  }

  function LastPass(r: string): string { ReplaceAll(r, Text(Digit(0)), "") }

  // The last pass eats a dollar before anything that begins with 0.
  lemma LastPassDollar(r: string)
    ensures Dollars(LastPass("$" + r)) == (if r != "" && r[0] == '0' then 0 else 1) + Dollars(LastPass(r))
  {
    var s, t := "$" + r, Digit(0);
    if r != "" && r[0] == '0' {
      assert s == Text(t) + r[1..] && r == [r[0]] + r[1..];
      Match(r[1..], t, "");
      SkipPlain([r[0]], r[1..], t, "");
      DollarsPlain([r[0]], LastPass(r[1..]));
      assert "" + LastPass(r[1..]) == LastPass(r[1..]);
    } else {
      assert |s| > 1 ==> s[1] == r[0] && Text(t)[1] == '0';
      SkipDollar(r, t, "");
      assert ("$" + LastPass(r))[1..] == LastPass(r);
    }
  }

  function Literals(ps: seq<Piece>): nat {
    if ps == [] then 0 else (if ps[0] == Lit('$') then 1 else 0) + Literals(ps[1..])
  }

  // The single pass keeps every dollar outside the tokens.
  lemma {:induction false} OnePassDollars(body: string, args: string)
    requires Plain(args)
    ensures Dollars(OnePass(body, args)) == Literals(Parse(body))
  {
    if body != "" {
      var u := TokenAtStart(body);
      TokenFits(body);
      var rest := if u != [] then body[|Text(u[0])|..] else body[1..];
      OnePassDollars(rest, args);
      assert Parse(body)[1..] == Parse(rest);
      if u != [] {
        ValuePlain(u[0], args);
        DollarsPlain(Value(u[0], args), OnePass(rest, args));
      } else {
        assert OnePass(body, args)[1..] == OnePass(rest, args);
      }
    }
  }

  ghost predicate AllZero(args: string) {
    Plain(args) && forall t :: Proper(t) && t != Digit(0) ==> Value(t, args) != "" && Value(t, args)[0] == '0'
  }

  lemma ZerosAllZero()
    ensures AllZero(Zeros(9))
  {
    ZeroFields(9);
  }

  // The chain loses a dollar at every hazard.
  lemma {:induction false} LastPassLoses(body: string, args: string)
    requires AllZero(args)
    ensures Dollars(LastPass(Render(Parse(body), PASSES - 1, Values(args)))) + (if HazardFree(Parse(body)) then 0 else 1)
            <= Literals(Parse(body))
  {
    if body != "" {
      var k, u, ps := PASSES - 1, TokenAtStart(body), Parse(body);
      TokenFits(body);
      var rest := if u != [] then body[|Text(u[0])|..] else body[1..];
      LastPassLoses(rest, args);
      assert ps[1..] == Parse(rest);
      var r := Render(Parse(rest), k, Values(args));
      if u == [] && body[0] == '$' {
        LastPassDollar(r);
        if |ps| > 1 && ps[1].Tok? && ps[1].t != Digit(0) {
          assert Passed(ps[1].t, k) && r[0] == '0';
        } else {
          HazardTail(ps);
        }
      } else {
        HazardTail(ps);
        if u == [] {
          SkipPlain([body[0]], r, Digit(0), "");
          DollarsPlain([body[0]], LastPass(r));
        } else if u[0] == Digit(0) {
          Match(r, u[0], "");
          assert "" + LastPass(r) == LastPass(r);
        } else {
          ValuePlain(u[0], args);
          SkipPlain(Value(u[0], args), r, Digit(0), "");
          DollarsPlain(Value(u[0], args), LastPass(r));
        }
      }
    }
  }

  lemma HazardTail(ps: seq<Piece>)
    requires |ps| > 0 && (|ps| > 1 && ps[0] == Lit('$') && ps[1].Tok? ==> ps[1].t == Digit(0))
    ensures HazardFree(ps) <==> HazardFree(ps[1..])
  {
    if HazardFree(ps[1..]) {
      forall k | 0 <= k < |ps| - 1 && ps[k] == Lit('$') && ps[k+1].Tok? ensures ps[k+1].t == Digit(0) {
        if k > 0 { assert ps[1..][k-1] == ps[k] && ps[1..][k] == ps[k+1]; }
      }
    }
  }

  lemma HazardShows(body: string)
    requires !HazardFree(Parse(body))
    ensures Plain(Zeros(9)) && Chain(body, PASSES, Zeros(9)) != OnePass(body, Zeros(9))
  {
    var args := Zeros(9);
    ZerosAllZero();
    PlainUntouched(args);
    hide Untouched, NoTrailing;
    ChainRenders(body, PASSES - 1, args);
    LastPassLoses(body, args);
    OnePassDollars(body, args);
    assert PassToken(PASSES - 1) == Digit(0);
  }

  /** Exactly when the eleven passes are a single substitution, whatever dollar-free
      arguments are given: no dollar outside the tokens stands directly before a token
      other than $0. */
  lemma RefinementExact(body: string)
    ensures (forall args :: Plain(args) ==> Chain(body, PASSES, args) == OnePass(body, args))
            <==> HazardFree(Parse(body))
  {
    if HazardFree(Parse(body)) {
      forall args | Plain(args) ensures Chain(body, PASSES, args) == OnePass(body, args) {
        ChainIsOnePass(body, args);
      }
    } else {
      HazardShows(body);
    }
  }

  // A hazard takes two dollars side by side, so a body without "$$" has none.
  lemma {:induction false} HazardIsDoubleDollar(body: string)
    requires !HazardFree(Parse(body))
    ensures Contains(body, "$$")
  {
    var u, ps := TokenAtStart(body), Parse(body);
    TokenFits(body);
    var n := if u != [] then |Text(u[0])| else 1;
    var rest := body[n..];
    assert ps[1..] == Parse(rest);
    if |ps| > 1 && ps[0] == Lit('$') && ps[1].Tok? && ps[1].t != Digit(0) {
      TokenFits(rest);
      assert body[0] == '$' && rest[0] == '$' && "$$" <= body[0..];
    } else {
      HazardTail(ps);
      HazardIsDoubleDollar(rest);
      var i :| 0 <= i <= |rest| && "$$" <= rest[i..];
      assert rest[i..] == body[i + n..];
    }
  }

  // Arguments with dollars. Step by step first: when every pass, on every body without a
  // hazard, replaces its own token and touches nothing that an earlier pass put in.

  // A dollar before a digit in s begins a token whose value is its own text.
  predicate SelfValued(s: string, args: string) {
    forall i :: 0 <= i < |s| - 1 && s[i] == '$' && IsDigit(s[i+1]) ==>
      Value(Digit(DigitOf(s[i+1])), args) == ['$', s[i+1]]
  }

  predicate Inert(args: string) { NoTrailing(args) && SelfValued(args, args) }

  lemma {:induction false} FieldsSelfValued(s: string, cur: string, args: string)
    requires SelfValued(cur + s, args)
    ensures forall i :: 0 <= i < |FieldsFrom(s, cur)| ==> SelfValued(FieldsFrom(s, cur)[i], args)
  {
    var all := cur + s;
    assert SelfValued(cur, args) by {
      assert forall i :: 0 <= i < |cur| ==> cur[i] == all[i];
    }
    if s != "" {
      if IsSpace(s[0]) {
        assert "" + s[1..] == all[|cur| + 1..];
        assert SelfValued("" + s[1..], args) by {
          assert forall i :: 0 <= i < |s| - 1 ==> s[1..][i] == all[|cur| + 1 + i];
        }
        FieldsSelfValued(s[1..], "", args);
      } else {
        assert (cur + [s[0]]) + s[1..] == all;
        FieldsSelfValued(s[1..], cur + [s[0]], args);
      }
    }
  }

  lemma ValueSelfValued(t: Token, args: string)
    requires SelfValued(args, args)
    ensures SelfValued(Value(t, args), args)
  {
    assert "" + args == args;
    FieldsSelfValued(args, "", args);
  }

  // A pass whose tokens all stand for themselves changes nothing.
  lemma {:induction false} SelfPass(s: string, n: nat, args: string)
    requires n <= 9 && SelfValued(s, args)
    ensures ReplaceAll(s, Text(Digit(n)), Value(Digit(n), args)) == s
  {
    if s != "" {
      var t := Digit(n);
      assert SelfValued(s[1..], args) by {
        assert forall i :: 0 <= i < |s| - 1 ==> s[1..][i] == s[i+1];
      }
      if Text(t) <= s {
        assert SelfValued(s[2..], args) by {
          assert forall i :: 0 <= i < |s| - 2 ==> s[2..][i] == s[i+2];
        }
        SelfPass(s[2..], n, args);
        assert s[0] == Text(t)[0] && s[1] == Text(t)[1];
        assert DigitOf(s[1]) == n;
        assert s == ['$', s[1]] + s[2..];
      } else {
        SelfPass(s[1..], n, args);
      }
    }
  }

  lemma InertUntouched(args: string)
    requires Inert(args)
    ensures Untouched(args)
  {
    forall t, k: nat | Proper(t) && k < PASSES && Passed(t, k)
      ensures ReplaceAll(Value(t, args), Text(PassToken(k)), Value(PassToken(k), args)) == Value(t, args)
    {
      ValueSelfValued(t, args);
      SelfPass(Value(t, args), PASSES - 1 - k, args);
    }
  }

  // The length of a replacement, and what it says when nothing changed.
  lemma {:induction false} ReplaceLength(s: string, x: string, v: string)
    requires x != ""
    ensures |v| >= |x| ==> |ReplaceAll(s, x, v)| >= |s|
    ensures |v| <= |x| ==> |ReplaceAll(s, x, v)| <= |s|
    ensures Contains(s, x) && |ReplaceAll(s, x, v)| == |s| ==> |v| == |x|
  {
    if s == "" {
      assert !Contains(s, x);
    } else if x <= s {
      ReplaceLength(s[|x|..], x, v);
    } else {
      ReplaceLength(s[1..], x, v);
      if Contains(s, x) { ContainsAfter(s, x); }
    }
  }

  lemma ContainsAfter(s: string, x: string)
    requires s != "" && Contains(s, x) && !(x <= s)
    ensures Contains(s[1..], x)
  {
    var i :| 0 <= i <= |s| && x <= s[i..];
    assert s[0..] == s;
    assert s[1..][i-1..] == s[i..];
  }

  lemma {:induction false} UnchangedIsSelf(s: string, x: string, v: string)
    requires x != "" && Contains(s, x) && ReplaceAll(s, x, v) == s
    ensures v == x
  {
    ReplaceLength(s, x, v);
    if x <= s {
      assert s[..|x|] == x && (v + ReplaceAll(s[|x|..], x, v))[..|v|] == v;
    } else {
      ContainsAfter(s, x);
      assert ([s[0]] + ReplaceAll(s[1..], x, v))[1..] == ReplaceAll(s[1..], x, v);
      UnchangedIsSelf(s[1..], x, v);
    }
  }

  // The body that is one token, alone or with a zero behind it.
  lemma TokenBody(t: Token)
    requires Proper(t)
    ensures Parse(Text(t)) == [Tok(t)] && Parse(Text(t) + "0") == [Tok(t), Lit('0')]
  {
    TokenFound(Text(t), t);
    TokenFound(Text(t) + "0", t);
    assert Text(t)[|Text(t)|..] == "" && (Text(t) + "0")[|Text(t)|..] == "0";
    assert TokenAtStart("0") == [] && Parse("0") == [Lit('0')] + Parse("0"[1..]);
  }

  lemma TokenBodyIs(t: Token, k: nat, vals: Token -> string)
    requires Proper(t)
    ensures Render(Parse(Text(t)), k, vals) == if Passed(t, k) then vals(t) else Text(t)
    ensures Render(Parse(Text(t) + "0"), k, vals) == (if Passed(t, k) then vals(t) else Text(t)) + "0"
  {
    TokenBody(t);
    assert [Tok(t)][1..] == [] && [Tok(t), Lit('0')][1..] == [Lit('0')] && [Lit('0')][1..] == [];
    assert Render([Lit('0')], k, vals) == "0";
  }

  // The last pass takes a dollar at the end of a value together with a zero after it.
  lemma ZeroIsTaken(w: string)
    requires EndsInDollar(w)
    ensures |LastPass(w + "0")| < |LastPass(w)| <= |w|
  {
    var front := w[..|w|-1];
    assert w + "0" == front + "$0";
    SplitReplace(front, "$0", Digit(0), "");
    Match("", Digit(0), "");
    assert "$0" + "" == "$0";
    assert LastPass("$0") == "";
    SplitReplace(front, "$", Digit(0), "");
    assert front + "$" == w && LastPass("$") == "$" + LastPass("$"[1..]);
    ReplaceLength(w, "$0", "");
  }

  ghost predicate StepsAsOne(args: string) {
    forall body, k: nat :: k <= PASSES && HazardFree(Parse(body)) ==>
      Chain(body, k, args) == Render(Parse(body), k, Values(args))
  }

  lemma SafeWithoutHazard(ps: seq<Piece>, k: nat, vals: Token -> string)
    requires k < PASSES && HazardFree(ps)
    ensures SafeFor(ps, k, PassToken(k), vals)
  {
  }

  lemma StepsAt(body: string, k: nat, args: string)
    requires StepsAsOne(args) && k <= PASSES && HazardFree(Parse(body))
    ensures Chain(body, k, args) == Render(Parse(body), k, Values(args))
  {
  }

  lemma LastOfChain(body: string, args: string)
    ensures Chain(body, PASSES, args) == LastPass(Chain(body, PASSES - 1, args))
  {
    assert PassToken(PASSES - 1) == Digit(0);
  }

  lemma StepsNoTrailing(t: Token, args: string)
    requires StepsAsOne(args) && Proper(t)
    ensures !EndsInDollar(Value(t, args))
  {
    hide StepsAsOne, Chain, Render, Parse;
    var body, last: nat := Text(t) + "0", PASSES - 1;
    TokenBody(t);
    if EndsInDollar(Value(t, args)) {
      TokenBodyIs(t, last, Values(args));
      TokenBodyIs(t, PASSES, Values(args));
      StepsAt(body, last, args);
      StepsAt(body, PASSES, args);
      LastOfChain(body, args);
      ZeroIsTaken(Value(t, args));
    }
  }

  lemma ChainNext(body: string, k: nat, args: string)
    requires k < PASSES
    ensures Chain(body, k + 1, args) == ReplaceAll(Chain(body, k, args), Text(PassToken(k)), Value(PassToken(k), args))
  {
  }

  lemma StepsSelfValued(i: nat, args: string)
    requires StepsAsOne(args) && i < |args| - 1 && args[i] == '$' && IsDigit(args[i+1])
    ensures Value(Digit(DigitOf(args[i+1])), args) == ['$', args[i+1]]
  {
    hide StepsAsOne, Chain, Render, Parse;
    var t := Digit(DigitOf(args[i+1]));
    var body, k: nat := Text(Arguments), PASSES - 1 - t.n;
    TokenBody(Arguments);
    TokenBodyIs(Arguments, k, Values(args));
    TokenBodyIs(Arguments, k + 1, Values(args));
    StepsAt(body, k, args);
    StepsAt(body, k + 1, args);
    ChainNext(body, k, args);
    assert Text(t) <= args[i..];
    UnchangedIsSelf(args, Text(t), Value(t, args));
  }

  /** "A substituted literal does not re-expand", pass by pass, on every body without a hazard:
      exactly when neither the arguments nor one of their first nine fields ends in a dollar,
      and every dollar before a digit begins a token whose value is its own text. */
  lemma StepwiseExact(args: string)
    ensures StepsAsOne(args) <==> Inert(args)
  {
    if Inert(args) {
      InertUntouched(args);
      forall body, k: nat | k <= PASSES && HazardFree(Parse(body))
        ensures Chain(body, k, args) == Render(Parse(body), k, Values(args))
      {
        forall j: nat | j < k ensures SafeFor(Parse(body), j, PassToken(j), Values(args)) {
          SafeWithoutHazard(Parse(body), j, Values(args));
        }
        ChainRenders(body, k, args);
      }
    }
    if StepsAsOne(args) {
      StepsNoTrailing(Arguments, args);
      forall n | 1 <= n <= 9 ensures !EndsInDollar(FieldAt(Fields(args), n)) { StepsNoTrailing(Digit(n), args); }
      forall i | 0 <= i < |args| - 1 && args[i] == '$' && IsDigit(args[i+1])
        ensures Value(Digit(DigitOf(args[i+1])), args) == ['$', args[i+1]]
      {
        StepsSelfValued(i, args);
      }
    }
  }

  // In particular when no dollar stands before a digit, before whitespace or at the end.
  predicate QuietDollars(s: string) {
    forall i :: 0 <= i < |s| && s[i] == '$' ==> i + 1 < |s| && !IsDigit(s[i+1]) && !IsSpace(s[i+1])
  }

  lemma {:induction false} FieldsQuiet(s: string, cur: string)
    requires QuietDollars(cur + s)
    ensures forall i :: 0 <= i < |FieldsFrom(s, cur)| ==> !EndsInDollar(FieldsFrom(s, cur)[i])
  {
    var all := cur + s;
    assert s == "" || IsSpace(s[0]) ==> !EndsInDollar(cur) by {
      assert s != "" ==> all[|cur|] == s[0];
      if EndsInDollar(cur) { assert all[|cur| - 1] == '$'; }
    }
    if s != "" {
      if IsSpace(s[0]) {
        assert forall i :: 0 <= i < |s| - 1 ==> ("" + s[1..])[i] == all[|cur| + 1 + i];
        FieldsQuiet(s[1..], "");
      } else {
        assert (cur + [s[0]]) + s[1..] == all;
        FieldsQuiet(s[1..], cur + [s[0]]);
      }
    }
  }

  lemma QuietIsInert(args: string)
    requires QuietDollars(args)
    ensures Inert(args)
  {
    assert "" + args == args;
    FieldsQuiet(args, "");
    assert !EndsInDollar(args);
  }

  // The end result alone asks for less: a value may be changed and changed back.

  // What the passes before the k-th have made of the value of t since it was put in.
  function Later(t: Token, k: nat, args: string): string
    requires k <= PASSES
  {
    if k == 0 || !Passed(t, k - 1) then Value(t, args)
    else ReplaceAll(Later(t, k - 1, args), Text(PassToken(k - 1)), Value(PassToken(k - 1), args))
  }

  function Laters(k: nat, args: string): Token -> string
    requires k <= PASSES
  {
    t => Later(t, k, args)
  }

  // Every value comes out of its later passes as it went in, and none ends in a dollar.
  ghost predicate Settled(args: string) {
    NoTrailing(args) && forall t :: Proper(t) ==> Later(t, PASSES, args) == Value(t, args)
  }

  ghost predicate EndsAsOne(args: string) {
    forall body :: HazardFree(Parse(body)) ==> Chain(body, PASSES, args) == OnePass(body, args)
  }

  // A dollar at the end of a value stays there.
  lemma TrailingStays(s: string, t: Token, v: string)
    requires Proper(t) && t.Digit? && EndsInDollar(s)
    ensures EndsInDollar(ReplaceAll(s, Text(t), v))
  {
    var front := s[..|s|-1];
    assert s == front + "$";
    SplitReplace(front, "$", t, v);
    assert ReplaceAll("$", Text(t), v) == "$" + ReplaceAll("$"[1..], Text(t), v);
  }

  lemma {:induction false} LaterTrailing(t: Token, k: nat, j: nat, args: string)
    requires Proper(t) && k <= j <= PASSES && EndsInDollar(Later(t, k, args))
    ensures EndsInDollar(Later(t, j, args))
    decreases j
  {
    if j > k {
      LaterTrailing(t, k, j - 1, args);
      if Passed(t, j - 1) {
        TrailingStays(Later(t, j - 1, args), PassToken(j - 1), Value(PassToken(j - 1), args));
      } else {
        NotYet(t, j, args);
        NotYet(t, j - 1, args);
      }
    }
  }

  lemma NotYet(t: Token, k: nat, args: string)
    requires k <= PASSES && (k == 0 || !Passed(t, k - 1))
    ensures Later(t, k, args) == Value(t, args)
  {
  }

  lemma LaterNext(t: Token, k: nat, args: string)
    requires 0 < k <= PASSES && Passed(t, k - 1)
    ensures Later(t, k, args) == ReplaceAll(Later(t, k - 1, args), Text(PassToken(k - 1)), Value(PassToken(k - 1), args))
  {
  }

  lemma SettledAt(t: Token, args: string)
    requires Settled(args) && Proper(t)
    ensures Later(t, PASSES, args) == Value(t, args) && !EndsInDollar(Value(t, args))
  {
  }

  lemma SettledTrails(t: Token, k: nat, args: string)
    requires Settled(args) && Proper(t) && k <= PASSES
    ensures !EndsInDollar(Later(t, k, args))
  {
    if EndsInDollar(Later(t, k, args)) {
      LaterTrailing(t, k, PASSES, args);
      SettledAt(t, args);
    }
  }

  lemma {:induction false} ChainLater(body: string, k: nat, args: string)
    requires k <= PASSES && Settled(args) && HazardFree(Parse(body))
    ensures Chain(body, k, args) == Render(Parse(body), k, Laters(k, args))
  {
    if k == 0 {
      ParsePrint(body, Laters(0, args));
    } else {
      var f, g := Laters(k - 1, args), Laters(k, args);
      ChainLater(body, k - 1, args);
      SafeWithoutHazard(Parse(body), k - 1, f);
      forall u | Proper(u) && Passed(u, k - 1) ensures !EndsInDollar(f(u)) { SettledTrails(u, k - 1, args); }
      NotYet(PassToken(k - 1), k, args);
      PassStep(body, k - 1, f, g);
    }
  }

  // What a pass makes of a token's text.
  lemma TokenPass(t: Token, u: Token, v: string)
    requires Proper(t) && Proper(u)
    ensures ReplaceAll(Text(t), Text(u), v) == if t == u then v else Text(t)
  {
    assert Text(t) + "" == Text(t) && v + "" == v;
    if t == u { Match("", t, v); } else { SkipToken(t, "", u, v); }
  }

  // The body that is one token shows what becomes of its value.
  lemma {:induction false} TokenChain(t: Token, k: nat, args: string)
    requires Proper(t) && k <= PASSES
    ensures Chain(Text(t), k, args) == if Passed(t, k) then Later(t, k, args) else Text(t)
  {
    if k > 0 {
      TokenChain(t, k - 1, args);
      ChainNext(Text(t), k - 1, args);
      if Passed(t, k - 1) {
        LaterNext(t, k, args);
      } else {
        TokenPass(t, PassToken(k - 1), Value(PassToken(k - 1), args));
        NotYet(t, k, args);
      }
      hide Chain, Later, ReplaceAll, Value, Text;
    }
  }

  lemma ZeroBehind(w: string, u: Token, v: string)
    requires Proper(u) && u.Digit? && u.n > 0
    ensures ReplaceAll(w + "0", Text(u), v) == ReplaceAll(w, Text(u), v) + "0"
  {
    SplitReplace(w, "0", u, v);
    SkipPlain("0", "", u, v);
    assert "0" + "" == "0";
  }

  lemma ZeroBehindToken(t: Token, v: string)
    requires Proper(t)
    ensures ReplaceAll(Text(t) + "0", Text(Arguments), v) == ReplaceAll(Text(t), Text(Arguments), v) + "0"
  {
    TokenPass(t, Arguments, v);
    SkipPlain("0", "", Arguments, v);
    assert "0" + "" == "0";
    if t.Arguments? { Match("0", t, v); } else { SkipToken(t, "0", Arguments, v); }
  }

  lemma ZeroStep(w: string, t: Token, k: nat, v: string)
    requires Proper(t) && k < PASSES - 1 && (k == 0 ==> w == Text(t))
    ensures ReplaceAll(w + "0", Text(PassToken(k)), v) == ReplaceAll(w, Text(PassToken(k)), v) + "0"
  {
    if k == 0 { ZeroBehindToken(t, v); } else { ZeroBehind(w, PassToken(k), v); }
  }

  // With a zero behind it no pass but the last sees more than the token.
  lemma {:induction false} TokenZeroChain(t: Token, k: nat, args: string)
    requires Proper(t) && k < PASSES
    ensures Chain(Text(t) + "0", k, args) == Chain(Text(t), k, args) + "0"
  {
    if k > 0 {
      var j := k - 1;
      TokenZeroChain(t, j, args);
      ChainNext(Text(t), j, args);
      ChainNext(Text(t) + "0", j, args);
      ZeroStep(Chain(Text(t), j, args), t, j, Value(PassToken(j), args));
    }
  }

  lemma EndsFixed(t: Token, args: string)
    requires EndsAsOne(args) && Proper(t)
    ensures Later(t, PASSES, args) == Value(t, args)
  {
    TokenBody(t);
    TokenChain(t, PASSES, args);
    TokenBodyIs(t, PASSES, Values(args));
    RenderAll(Text(t), args, Values(args));
  }

  lemma EndsNoTrailing(t: Token, args: string)
    requires EndsAsOne(args) && Proper(t)
    ensures !EndsInDollar(Value(t, args))
  {
    hide Chain, Parse, OnePass, LastPass;
    if EndsInDollar(Value(t, args)) {
      var last: nat, own: nat := PASSES - 1, if t.Arguments? then 1 else PASSES - t.n;
      NotYet(t, own, args);
      LaterTrailing(t, own, last, args);
      TokenChain(t, last, args);
      TokenZeroChain(t, last, args);
      LastOfChain(Text(t) + "0", args);
      ZeroIsTaken(Later(t, last, args));
      LastOfLater(t, args);
      EndsFixed(t, args);
      EndsWithZero(t, args);
    }
  }

  lemma LastOfLater(t: Token, args: string)
    requires Proper(t) && t != Digit(0)
    ensures Later(t, PASSES, args) == LastPass(Later(t, PASSES - 1, args))
  {
    assert PassToken(PASSES - 1) == Digit(0) && Passed(t, PASSES - 1);
  }

  lemma EndsWithZero(t: Token, args: string)
    requires EndsAsOne(args) && Proper(t)
    ensures Chain(Text(t) + "0", PASSES, args) == Value(t, args) + "0"
  {
    TokenBody(t);
    TokenBodyIs(t, PASSES, Values(args));
    RenderAll(Text(t) + "0", args, Values(args));
  }

  /** The end result on every body without a hazard is the single substitution exactly when no
      value ends in a dollar and each comes out of its later passes as it went in. */
  lemma EndResultExact(args: string)
    ensures EndsAsOne(args) <==> Settled(args)
  {
    if Settled(args) {
      forall body | HazardFree(Parse(body)) ensures Chain(body, PASSES, args) == OnePass(body, args) {
        ChainLater(body, PASSES, args);
        RenderAll(body, args, Laters(PASSES, args));
      }
    }
    if EndsAsOne(args) {
      EndsNoTrailing(Arguments, args);
      forall n | 1 <= n <= 9 ensures !EndsInDollar(FieldAt(Fields(args), n)) { EndsNoTrailing(Digit(n), args); }
      forall t | Proper(t) ensures Later(t, PASSES, args) == Value(t, args) { EndsFixed(t, args); }
    }
  }

  // A dollar in the arguments can be expanded again: $ARGUMENTS with arguments "$0" gives "".
  lemma ArgumentsReexpand()
    ensures Chain("$ARGUMENTS", PASSES, "$0") == "" && OnePass("$ARGUMENTS", "$0") == "$0"
  {
    var body, args := Text(Arguments), Text(Digit(0));
    Match("", Arguments, args);
    assert body + "" == body && args + "" == args;
    ZeroStays(PASSES - 1);
    Match("", Digit(0), "");
    assert body[|body|..] == "";
    assert OnePass(body, args) == args + OnePass("", args);
  }

  lemma {:induction false} ZeroStays(k: nat)
    requires 1 <= k <= PASSES - 1
    ensures Chain(Text(Arguments), k, Text(Digit(0))) == Text(Digit(0))
  {
    var body, args := Text(Arguments), Text(Digit(0));
    if k == 1 {
      Match("", Arguments, args);
      assert Chain(body, 0, args) == body && body + "" == body && args + "" == args;
    } else {
      ZeroStays(k - 1);
      var t := PassToken(k - 1);
      SkipToken(Digit(0), "", t, Value(t, args));
      assert args + "" == args;
    }
  }

  // The step-by-step condition is the stronger one.
  lemma InertIsSettled(args: string)
    requires Inert(args)
    ensures EndsAsOne(args) && Settled(args)
  {
    StepwiseExact(args);
    forall body | HazardFree(Parse(body)) ensures Chain(body, PASSES, args) == OnePass(body, args) {
      StepsAt(body, PASSES, args);
      RenderAll(body, args, Values(args));
    }
    EndResultExact(args);
  }

  // The three conditions differ: "$1" stands for itself, and "$2$1" is changed to "$1" by one
  // pass and back by the next.

  lemma OneField(s: string, cur: string)
    requires forall i :: 0 <= i < |s| ==> !IsSpace(s[i])
    ensures FieldsFrom(s, cur) == if cur + s == "" then [] else [cur + s]
  {
    if s == "" {
      assert cur + s == cur;
    } else {
      OneField(s[1..], cur + [s[0]]);
      assert (cur + [s[0]]) + s[1..] == cur + s;
    }
  }

  lemma SelfNamedIsInert()
    ensures Inert("$1") && !QuietDollars("$1")
  {
    OneField("$1", "");
    assert "" + "$1" == "$1" && "$1"[0] == '$' && IsDigit("$1"[1]);
  }

  lemma ChangedAndBack()
    ensures Settled("$2$1") && !Inert("$2$1")
  {
    BackSettles("$2$1");
    BackIsNotInert("$2$1");
  }

  predicate TwoThenOne(args: string) { |args| == 4 && args[0] == '$' == args[2] && args[1] == '2' && args[3] == '1' }

  lemma BackField(args: string)
    requires TwoThenOne(args)
    ensures Fields(args) == [args]
  {
    OneField(args, "");
    assert "" + args == args;
  }

  lemma BackIsNotInert(args: string)
    requires TwoThenOne(args)
    ensures !Inert(args)
  {
    BackField(args);
    assert IsDigit(args[1]) && DigitOf(args[1]) == 2;
  }

  lemma BackSettles(args: string)
    requires TwoThenOne(args)
    ensures Settled(args)
  {
    BackField(args);
    hide Fields;
    forall t | Proper(t) ensures Later(t, PASSES, args) == Value(t, args) {
      if t.Arguments? { BackArguments(PASSES, args); } else { BackDigit(t, PASSES, args); }
    }
  }

  lemma TwoPass(u: Token, v: string)
    requires Proper(u)
    ensures ReplaceAll(Text(Digit(2)) + Text(Digit(1)), Text(u), v) ==
      (if u == Digit(2) then v else Text(Digit(2))) + (if u == Digit(1) then v else Text(Digit(1)))
  {
    var two, one := Digit(2), Digit(1);
    TokenPass(one, u, v);
    if u == two { Match(Text(one), two, v); } else { SkipToken(two, Text(one), u, v); }
  }

  // What the arguments "$2$1" look like after k passes.
  lemma {:induction false} BackArguments(k: nat, args: string)
    requires 0 < k <= PASSES && TwoThenOne(args) && Fields(args) == [args]
    ensures Later(Arguments, k, args) == if k == 9 then Text(Digit(1)) else args
  {
    if k == 1 {
      NotYet(Arguments, k, args);
    } else {
      var j := k - 1;
      BackArguments(j, args);
      LaterNext(Arguments, k, args);
      BackPass(j, args);
    }
  }

  lemma BackPass(j: nat, args: string)
    requires 0 < j < PASSES && TwoThenOne(args) && Fields(args) == [args]
    ensures ReplaceAll(if j == 9 then Text(Digit(1)) else args, Text(PassToken(j)), Value(PassToken(j), args)) ==
      if j == 8 then Text(Digit(1)) else args
  {
    var u := PassToken(j);
    assert args == Text(Digit(2)) + Text(Digit(1));
    if j == 9 { TokenPass(Digit(1), u, Value(u, args)); } else { TwoPass(u, Value(u, args)); }
    assert "" + Text(Digit(1)) == Text(Digit(1));
  }

  // Its only field is $1, which the last pass leaves alone.
  lemma {:induction false} BackDigit(t: Token, k: nat, args: string)
    requires Proper(t) && t.Digit? && k <= PASSES && TwoThenOne(args) && Fields(args) == [args]
    ensures Later(t, k, args) == Value(t, args)
  {
    if k > 0 && Passed(t, k - 1) {
      BackDigit(t, k - 1, args);
      LaterNext(t, k, args);
      var u := PassToken(k - 1);
      if t.n == 1 {
        assert args == Text(Digit(2)) + Text(Digit(1));
        TwoPass(u, Value(u, args));
      } else {
        NothingLeft(u, Value(u, args));
      }
    }
  }

  lemma NothingLeft(t: Token, v: string)
    requires Proper(t)
    ensures ReplaceAll("", Text(t), v) == ""
  {
  }

  // What the tokens stand for, on printed arguments and printed bodies.

  // Unicode White_Space, by code point.
  predicate Blank(c: char) {
    c as int in {0x9, 0xA, 0xB, 0xC, 0xD, 0x20, 0x85, 0xA0, 0x1680, 0x2000, 0x2001, 0x2002, 0x2003, 0x2004, 0x2005,
                 0x2006, 0x2007, 0x2008, 0x2009, 0x200A, 0x2028, 0x2029, 0x202F, 0x205F, 0x3000}
  }

  predicate Blanks(s: string) { forall i :: 0 <= i < |s| ==> Blank(s[i]) }
  predicate IsWord(s: string) { s != "" && forall i :: 0 <= i < |s| ==> !Blank(s[i]) }

  // Words with a gap behind each, after a leading gap.
  function Spread(lead: string, words: seq<string>, gaps: seq<string>): string
    requires |words| == |gaps|
    decreases words
  {
    if words == [] then lead else lead + words[0] + Spread(gaps[0], words[1..], gaps[1..])
  }

  // Only the outer gaps may be empty.
  predicate Spreads(lead: string, words: seq<string>, gaps: seq<string>) {
    && |words| == |gaps| && Blanks(lead)
    && (forall i :: 0 <= i < |words| ==> IsWord(words[i]) && Blanks(gaps[i]))
    && (forall i :: 0 <= i < |words| - 1 ==> gaps[i] != "")
  }

  lemma {:induction false} SkipBlanks(lead: string, rest: string)
    requires Blanks(lead)
    ensures FieldsFrom(lead + rest, "") == FieldsFrom(rest, "")
  {
    if lead == "" {
      assert lead + rest == rest;
    } else {
      assert (lead + rest)[0] == lead[0] && (lead + rest)[1..] == lead[1..] + rest;
      SkipBlanks(lead[1..], rest);
      assert [] + FieldsFrom(rest, "") == FieldsFrom(rest, "");
    }
  }

  lemma {:induction false} ReadWord(word: string, cur: string, rest: string)
    requires forall i :: 0 <= i < |word| ==> !Blank(word[i])
    ensures FieldsFrom(word + rest, cur) == FieldsFrom(rest, cur + word)
  {
    if word == "" {
      assert word + rest == rest && cur + word == cur;
    } else {
      assert (word + rest)[0] == word[0] && (word + rest)[1..] == word[1..] + rest;
      ReadWord(word[1..], cur + [word[0]], rest);
      assert cur + [word[0]] + word[1..] == cur + word;
    }
  }

  lemma EndWord(word: string, gap: string, rest: string)
    requires word != "" && Blanks(gap) && (gap == "" ==> rest == "")
    ensures FieldsFrom(gap + rest, word) == [word] + FieldsFrom(rest, "")
  {
    if gap == "" {
      assert gap + rest == "" && [word] + [] == [word];
    } else {
      assert (gap + rest)[0] == gap[0] && (gap + rest)[1..] == gap[1..] + rest;
      SkipBlanks(gap[1..], rest);
    }
  }

  lemma {:induction false} FieldsOfSpread(lead: string, words: seq<string>, gaps: seq<string>)
    requires Spreads(lead, words, gaps)
    ensures Fields(Spread(lead, words, gaps)) == words
    decreases words
  {
    if words == [] {
      SkipBlanks(lead, "");
      assert lead + "" == lead;
    } else {
      var rest := Spread("", words[1..], gaps[1..]);
      SpreadLead(gaps[0], words[1..], gaps[1..]);
      FieldsOfSpread("", words[1..], gaps[1..]);
      FirstWord(lead, words[0], gaps[0], rest);
      assert words == [words[0]] + words[1..];
      hide FieldsFrom;
      assert lead + words[0] + (gaps[0] + rest) == Spread(lead, words, gaps);
    }
  }

  lemma FirstWord(lead: string, word: string, gap: string, rest: string)
    requires Blanks(lead) && IsWord(word) && Blanks(gap) && (gap == "" ==> rest == "")
    ensures Fields(lead + word + (gap + rest)) == [word] + Fields(rest)
  {
    assert lead + word + (gap + rest) == lead + (word + (gap + rest));
    SkipBlanks(lead, word + (gap + rest));
    ReadWord(word, "", gap + rest);
    assert "" + word == word;
    EndWord(word, gap, rest);
  }

  lemma SpreadLead(lead: string, words: seq<string>, gaps: seq<string>)
    requires |words| == |gaps|
    ensures Spread(lead, words, gaps) == lead + Spread("", words, gaps)
  {
    if words != [] {
      var more := Spread(gaps[0], words[1..], gaps[1..]);
      assert lead + ("" + words[0] + more) == lead + words[0] + more;
    }
  }

  function NthWord(words: seq<string>, n: nat): string { if 1 <= n <= |words| then words[n-1] else "" }

  /** The n-th positional token stands for the n-th word of the arguments, whatever whitespace
      surrounds the words, and for nothing if there is no such word; $ARGUMENTS for them all. */
  lemma PositionalsAreWords(lead: string, words: seq<string>, gaps: seq<string>, n: nat)
    requires Spreads(lead, words, gaps)
    ensures var args := Spread(lead, words, gaps);
      Value(Digit(n), args) == NthWord(words, n) && Value(Arguments, args) == args
  {
    FieldsOfSpread(lead, words, gaps);
  }

  // A body written part by part.
  datatype Part = Words(text: string) | All | Nth(n: nat)

  predicate PartOk(p: Part) { match p case Words(text) => '$' !in text case All => true case Nth(n) => n <= 9 }
  predicate PartsOk(parts: seq<Part>) { forall i :: 0 <= i < |parts| ==> PartOk(parts[i]) }

  function Written(p: Part): string
    requires PartOk(p)
  {
    match p case Words(text) => text case All => "$ARGUMENTS" case Nth(n) => ['$', ('0' as int + n) as char]
  }

  function BodyOf(parts: seq<Part>): string
    requires PartsOk(parts)
  {
    if parts == [] then "" else Written(parts[0]) + BodyOf(parts[1..])
  }

  function Filled(parts: seq<Part>, args: string, words: seq<string>): string {
    if parts == [] then ""
    else (match parts[0] case Words(text) => text case All => args case Nth(n) => NthWord(words, n))
         + Filled(parts[1..], args, words)
  }

  predicate Asks(parts: seq<Part>) { exists i :: 0 <= i < |parts| && !parts[i].Words? }

  function Literal(text: string): seq<Piece> { seq(|text|, i requires 0 <= i < |text| => Lit(text[i])) }

  function PiecesIn(p: Part): seq<Piece> {
    match p case Words(text) => Literal(text) case All => [Tok(Arguments)] case Nth(n) => [Tok(Digit(n))]
  }

  function PiecesOf(parts: seq<Part>): seq<Piece> {
    if parts == [] then []
    else PiecesIn(parts[0]) + PiecesOf(parts[1..])
  }

  lemma ParseLiteral(c: char, rest: string)
    requires c != '$'
    ensures Parse([c] + rest) == [Lit(c)] + Parse(rest)
  {
    assert ([c] + rest)[0] == c && ([c] + rest)[1..] == rest;
  }

  lemma {:induction false} ParseText(text: string, rest: string)
    requires '$' !in text
    ensures Parse(text + rest) == Literal(text) + Parse(rest)
  {
    hide Parse;
    if text == "" {
      assert text + rest == rest && Literal(text) + Parse(rest) == Parse(rest);
    } else {
      ParseText(text[1..], rest);
      ParseLiteral(text[0], text[1..] + rest);
      assert text + rest == [text[0]] + (text[1..] + rest);
      assert Literal(text) == [Lit(text[0])] + Literal(text[1..]);
      assert [Lit(text[0])] + (Literal(text[1..]) + Parse(rest)) == Literal(text) + Parse(rest);
    }
  }

  lemma ParseToken(t: Token, rest: string)
    requires Proper(t)
    ensures Parse(Text(t) + rest) == [Tok(t)] + Parse(rest)
  {
    TokenFound(Text(t) + rest, t);
    assert (Text(t) + rest)[|Text(t)|..] == rest;
  }

  lemma {:induction false} ParseParts(parts: seq<Part>)
    requires PartsOk(parts)
    ensures Parse(BodyOf(parts)) == PiecesOf(parts)
    ensures Lit('$') !in PiecesOf(parts)
    ensures HasToken(PiecesOf(parts)) <==> Asks(parts)
  {
    if parts != [] {
      ParseParts(parts[1..]);
      var p, rest := parts[0], PiecesOf(parts[1..]);
      match p {
        case Words(text) => ParseText(text, BodyOf(parts[1..]));
        case All => ParseToken(Arguments, BodyOf(parts[1..]));
        case Nth(n) => ParseToken(Digit(n), BodyOf(parts[1..]));
      }
      AsksMore(parts, PiecesIn(p), rest);
    }
  }

  lemma AsksMore(parts: seq<Part>, head: seq<Piece>, rest: seq<Piece>)
    requires parts != [] && (HasToken(rest) <==> Asks(parts[1..])) && head == PiecesIn(parts[0])
    ensures HasToken(head + rest) <==> Asks(parts)
  {
    var all := head + rest;
    if k :| 0 <= k < |rest| && rest[k].Tok? { assert all[|head| + k].Tok?; }
    if !parts[0].Words? { assert all[0].Tok?; }
    if k :| 0 <= k < |all| && all[k].Tok? {
      if k >= |head| { assert rest[k - |head|].Tok?; }
    }
    if i :| 0 <= i < |parts| && !parts[i].Words? {
      if i > 0 { assert !parts[1..][i-1].Words?; }
    }
    if i :| 0 <= i < |parts[1..]| && !parts[1..][i].Words? { assert !parts[i+1].Words?; }
  }

  lemma OnePassLiteral(c: char, rest: string, args: string)
    requires c != '$'
    ensures OnePass([c] + rest, args) == [c] + OnePass(rest, args)
  {
    assert ([c] + rest)[0] == c && ([c] + rest)[1..] == rest;
  }

  lemma {:induction false} OnePassText(text: string, rest: string, args: string)
    requires '$' !in text
    ensures OnePass(text + rest, args) == text + OnePass(rest, args)
  {
    hide OnePass;
    if text == "" {
      assert text + rest == rest && text + OnePass(rest, args) == OnePass(rest, args);
    } else {
      OnePassText(text[1..], rest, args);
      OnePassLiteral(text[0], text[1..] + rest, args);
      assert text == [text[0]] + text[1..];
      assert text + rest == [text[0]] + (text[1..] + rest);
      assert [text[0]] + (text[1..] + OnePass(rest, args)) == text + OnePass(rest, args);
    }
  }

  lemma OnePassToken(t: Token, rest: string, args: string)
    requires Proper(t)
    ensures OnePass(Text(t) + rest, args) == Value(t, args) + OnePass(rest, args)
  {
    TokenFound(Text(t) + rest, t);
    assert (Text(t) + rest)[|Text(t)|..] == rest;
  }

  lemma {:induction false} OnePassParts(parts: seq<Part>, args: string, words: seq<string>)
    requires PartsOk(parts) && forall n: nat :: Value(Digit(n), args) == NthWord(words, n)
    ensures OnePass(BodyOf(parts), args) == Filled(parts, args, words)
  {
    if parts != [] {
      var rest := BodyOf(parts[1..]);
      OnePassParts(parts[1..], args, words);
      match parts[0] {
        case Words(text) => OnePassText(text, rest, args);
        case All => OnePassToken(Arguments, rest, args);
        case Nth(n) => OnePassToken(Digit(n), rest, args);
      }
    }
  }

  /** Expand on a printed body with printed arguments, both free of other dollars: each token
      gives way to its word or to all the arguments, the text stays, and the arguments are
      appended under their heading exactly if nothing asks for them. */
  lemma ExpandFillsIn(parts: seq<Part>, lead: string, words: seq<string>, gaps: seq<string>)
    requires PartsOk(parts) && Spreads(lead, words, gaps) && '$' !in Spread(lead, words, gaps)
    ensures var args := Spread(lead, words, gaps);
      Expanded(BodyOf(parts), args) ==
        Filled(parts, args, words) + if args != "" && !Asks(parts) then "\n\nUser arguments:\n" + args else ""
  {
    var body, args := BodyOf(parts), Spread(lead, words, gaps);
    forall n: nat ensures Value(Digit(n), args) == NthWord(words, n) { PositionalsAreWords(lead, words, gaps, n); }
    ParseParts(parts);
    assert HazardFree(Parse(body)) by {
      assert forall k :: 0 <= k < |Parse(body)| ==> Parse(body)[k] in PiecesOf(parts);
    }
    ChainIsOnePass(body, args);
    OnePassParts(parts, args, words);
  }

  // With dollars in the words: one token alone gives its word, if no dollar in it stands before a
  // digit whose pass comes later.

  predicate NoneBelow(s: string, n: nat) {
    forall i :: 0 <= i < |s| - 1 && s[i] == '$' ==> !('0' as int <= s[i+1] as int < '0' as int + n)
  }

  lemma {:induction false} PassAbsent(s: string, d: nat, n: nat, v: string)
    requires d < n <= 10 && NoneBelow(s, n)
    ensures ReplaceAll(s, Text(Digit(d)), v) == s
  {
    if s != "" {
      assert NoneBelow(s[1..], n) by { assert forall i :: 0 <= i < |s| - 1 ==> s[1..][i] == s[i+1]; }
      assert |s| > 1 && s[0] == '$' ==> s[1] != DigitChar(d);
      PassAbsent(s[1..], d, n, v);
    }
  }

  lemma {:induction false} LaterSame(t: Token, k: nat, args: string)
    requires Proper(t) && k <= PASSES && NoneBelow(Value(t, args), if t.Arguments? then 10 else t.n)
    ensures Later(t, k, args) == Value(t, args)
  {
    if k > 0 && Passed(t, k - 1) {
      LaterSame(t, k - 1, args);
      PassAbsent(Value(t, args), PASSES - k, if t.Arguments? then 10 else t.n, Value(PassToken(k - 1), args));
    }
  }

  lemma TokenAlone(t: Token, args: string)
    requires Proper(t) && NoneBelow(Value(t, args), if t.Arguments? then 10 else t.n)
    ensures Expanded(Text(t), args) == Value(t, args)
  {
    TokenBody(t);
    assert [Tok(t)][0].Tok?;
    TokenChain(t, PASSES, args);
    LaterSame(t, PASSES, args);
    assert Value(t, args) + "" == Value(t, args);
  }

  /** The body "$n" expands to the n-th word, and "$ARGUMENTS" to the arguments as they stand. */
  lemma ExpandPositional(lead: string, words: seq<string>, gaps: seq<string>, n: nat)
    requires Spreads(lead, words, gaps) && n <= 9
    ensures NoneBelow(NthWord(words, n), n) ==>
      Expanded(['$', ('0' as int + n) as char], Spread(lead, words, gaps)) == NthWord(words, n)
    ensures var args := Spread(lead, words, gaps); NoneBelow(args, 10) ==> Expanded("$ARGUMENTS", args) == args
  {
    var args := Spread(lead, words, gaps);
    PositionalsAreWords(lead, words, gaps, n);
    if NoneBelow(NthWord(words, n), n) { TokenAlone(Digit(n), args); }
    if NoneBelow(args, 10) { TokenAlone(Arguments, args); }
  }
}
