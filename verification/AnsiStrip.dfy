/** Removing terminal escape sequences from captured output. Strings are bytes. */
module AnsiStrip {
  const ESC: char := '\U{1b}'
  const BEL: char := '\U{07}'
  const BACKSLASH: char := '\\'

  predicate IsFinal(c: char) { '@' <= c <= '~' }

  // How far a control sequence goes after its introducer.
  function CsiLen(s: string): (n: nat)
    ensures n <= |s|
  {
    if s == "" then 0 else if IsFinal(s[0]) then 1 else 1 + CsiLen(s[1..])
  }

  // How far an operating-system command goes after its introducer. A backslash ends it anywhere
  // but directly after the introducer; an escape ends it, and is part of it only before a backslash.
  function OscLen(s: string, first: bool): (n: nat)
    ensures n <= |s|
  {
    if s == "" then 0
    else if s[0] == BEL then 1
    else if s[0] == BACKSLASH && !first then 1
    else if s[0] == ESC then (if |s| > 1 && s[1] == BACKSLASH then 2 else 0)
    else 1 + OscLen(s[1..], false)
  }

  // How much to drop where an escape stands.
  function EscLen(s: string): (n: nat)
    requires s != "" && s[0] == ESC
    ensures 0 < n <= |s|
  {
    if |s| == 1 then 1
    else if s[1] == '[' then 2 + CsiLen(s[2..])
    else if s[1] == ']' then 2 + OscLen(s[2..], true)
    else 1
  }

  function Strip(s: string): string
    decreases |s|
  {
    if s == "" then ""
    else if s[0] != ESC then [s[0]] + Strip(s[1..])
    else Strip(s[EscLen(s)..])
  }

  // The scanner.

  lemma Rest(s: string, i: nat, n: nat)
    requires i + n <= |s|
    ensures s[i..][n..] == s[i+n..]
  {
  }

  method SkipCsi(s: string, i: nat) returns (j: nat)
    requires i <= |s|
    ensures i <= j <= |s| && j == i + CsiLen(s[i..])
  {
    j := i;
    while j < |s| && (s[j] < '@' || s[j] > '~')
      invariant i <= j <= |s|
      invariant CsiLen(s[i..]) == j - i + CsiLen(s[j..])
    {
      Rest(s, j, 1);
      j := j + 1;
    }
    if j < |s| {
      j := j + 1;
    }
  }

  method SkipOsc(s: string, i: nat) returns (j: nat)
    requires i <= |s|
    ensures i <= j <= |s| && j == i + OscLen(s[i..], true)
  {
    j := i;
    while j < |s|
      invariant i <= j <= |s|
      invariant OscLen(s[i..], true) == j - i + OscLen(s[j..], j == i)
    {
      Rest(s, j, 1);
      if s[j] == BEL {
        j := j + 1;
        break;
      }
      if s[j] == BACKSLASH && j > i {
        j := j + 1;
        break;
      }
      if s[j] == ESC {
        if j + 1 < |s| && s[j+1] == BACKSLASH {
          j := j + 2;
        }
        break;
      }
      j := j + 1;
    }
  }

  // One turn of the walk.
  lemma StripStep(s: string, i: nat)
    requires i < |s|
    ensures s[i] != ESC ==> Strip(s[i..]) == [s[i]] + Strip(s[i+1..])
    ensures s[i] == ESC ==>
              var n := if i + 1 == |s| then 1
                       else if s[i+1] == '[' then 2 + CsiLen(s[i+2..])
                       else if s[i+1] == ']' then 2 + OscLen(s[i+2..], true)
                       else 1;
              i + n <= |s| && Strip(s[i..]) == Strip(s[i+n..])
  {
    hide CsiLen, OscLen;
    var rest := s[i..];
    Rest(s, i, 1);
    if s[i] == ESC {
      if i + 1 < |s| {
        assert rest[1] == s[i+1];
        Rest(s, i, 2);
      }
      Rest(s, i, EscLen(rest));
    }
  }

  method StripANSI(s: string) returns (b: string)
    ensures b == Strip(s)
  {
    hide Strip;
    if ESC !in s {
      PlainStays(s);
      return s;
    }
    b := "";
    var i := 0;
    assert s[0..] == s;
    while i < |s|
      invariant 0 <= i <= |s|
      invariant b + Strip(s[i..]) == Strip(s)
    {
      StripStep(s, i);
      if s[i] != ESC {
        b := b + [s[i]];
        i := i + 1;
        continue;
      }
      if i + 1 >= |s| {
        i := i + 1;
        continue;
      }
      if s[i+1] == '[' {
        i := SkipCsi(s, i + 2);
        continue;
      }
      if s[i+1] == ']' {
        i := SkipOsc(s, i + 2);
        continue;
      }
      i := i + 1;
    }
    assert s[i..] == "";
    PlainStays("");
    assert b + "" == b;
  }

  // What stripping promises.

  lemma {:induction false} PlainStays(s: string)
    requires ESC !in s
    ensures Strip(s) == s
  {
    if s != "" {
      PlainStays(s[1..]);
      assert s == [s[0]] + s[1..];
    }
  }

  lemma {:induction false} NoEscapeLeft(s: string)
    ensures ESC !in Strip(s)
    decreases |s|
  {
    if s != "" {
      if s[0] != ESC { NoEscapeLeft(s[1..]); } else { NoEscapeLeft(s[EscLen(s)..]); }
    }
  }

  lemma {:induction false} Idempotent(s: string)
    ensures Strip(Strip(s)) == Strip(s)
  {
    NoEscapeLeft(s);
    PlainStays(Strip(s));
  }

  predicate Subsequence(a: string, b: string) {
    a == "" || (b != "" && (if a[0] == b[0] then Subsequence(a[1..], b[1..]) else Subsequence(a, b[1..])))
  }

  lemma {:induction false} SubsequenceMore(a: string, b: string, c: string)
    requires Subsequence(a, b)
    ensures Subsequence(a, c + b)
    decreases |b|, |c| + 1
  {
    if a != "" {
      if c == "" {
        assert c + b == b;
      } else if c[0] == a[0] {
        assert (c + b)[1..] == c[1..] + b;
        SubsequenceDrop(a, b);
        SubsequenceMore(a[1..], b, c[1..]);
      } else {
        assert (c + b)[1..] == c[1..] + b;
        SubsequenceMore(a, b, c[1..]);
      }
    }
  }

  lemma {:induction false} SubsequenceDrop(a: string, b: string)
    requires a != "" && Subsequence(a, b)
    ensures Subsequence(a[1..], b)
    decreases |b|, 0
  {
    if a[0] == b[0] {
      SubsequenceMore(a[1..], b[1..], [b[0]]);
      assert [b[0]] + b[1..] == b;
    } else {
      SubsequenceDrop(a, b[1..]);
      SubsequenceMore(a[1..], b[1..], [b[0]]);
      assert [b[0]] + b[1..] == b;
    }
  }

  lemma {:induction false} StripIsSubsequence(s: string)
    ensures Subsequence(Strip(s), s)
    decreases |s|
  {
    if s != "" {
      if s[0] != ESC {
        StripIsSubsequence(s[1..]);
        assert Strip(s)[1..] == Strip(s[1..]);
      } else {
        var n := EscLen(s);
        StripIsSubsequence(s[n..]);
        SubsequenceMore(Strip(s[n..]), s[n..], s[..n]);
        assert s[..n] + s[n..] == s;
      }
    }
  }

  // Text that ends between escape sequences.

  predicate CsiDone(s: string) { s != "" && (IsFinal(s[0]) || CsiDone(s[1..])) }

  // An escape as the last byte leaves it open whether a backslash follows.
  predicate OscDone(s: string, first: bool) {
    s != "" && (s[0] == BEL || (s[0] == BACKSLASH && !first) ||
                (if s[0] == ESC then |s| > 1 else OscDone(s[1..], false)))
  }

  // The sequence at the front ends within s, whatever follows.
  predicate EscDone(s: string)
    requires s != "" && s[0] == ESC
  {
    |s| > 1 && (s[1] == '[' ==> CsiDone(s[2..])) && (s[1] == ']' ==> OscDone(s[2..], true))
  }

  predicate Complete(s: string)
    decreases |s|
  {
    s == "" || (if s[0] != ESC then Complete(s[1..]) else EscDone(s) && Complete(s[EscLen(s)..]))
  }

  lemma {:induction false} CsiThen(s: string, t: string)
    ensures CsiDone(s) ==> CsiLen(s + t) == CsiLen(s)
    ensures !CsiDone(s) ==> CsiLen(s + t) == |s| + CsiLen(t) && CsiLen(s) == |s|
  {
    if s == "" {
      assert s + t == t;
    } else {
      assert (s + t)[0] == s[0] && (s + t)[1..] == s[1..] + t;
      CsiThen(s[1..], t);
    }
  }

  lemma {:induction false} OscThen(s: string, first: bool, t: string)
    requires OscDone(s, first)
    ensures OscLen(s + t, first) == OscLen(s, first)
  {
    assert (s + t)[0] == s[0] && (s + t)[1..] == s[1..] + t;
    if s[0] != BEL && !(s[0] == BACKSLASH && !first) && s[0] != ESC {
      OscThen(s[1..], false, t);
    } else if s[0] == ESC {
      assert (s + t)[1] == s[1];
    }
  }

  lemma EscThen(s: string, t: string)
    requires s != "" && s[0] == ESC && EscDone(s)
    ensures (s + t)[0] == ESC && EscLen(s + t) == EscLen(s)
  {
    assert (s + t)[1] == s[1] && (s + t)[2..] == s[2..] + t;
    if s[1] == '[' { CsiThen(s[2..], t); }
    if s[1] == ']' { OscThen(s[2..], true, t); }
  }

  lemma {:induction false} CompleteThen(s: string, t: string)
    requires Complete(s)
    ensures Strip(s + t) == Strip(s) + Strip(t)
    decreases |s|
  {
    if s == "" {
      assert s + t == t;
    } else if s[0] != ESC {
      assert (s + t)[0] == s[0] && (s + t)[1..] == s[1..] + t;
      CompleteThen(s[1..], t);
      assert [s[0]] + (Strip(s[1..]) + Strip(t)) == Strip(s) + Strip(t);
    } else {
      var n := EscLen(s);
      EscThen(s, t);
      assert (s + t)[n..] == s[n..] + t;
      CompleteThen(s[n..], t);
    }
  }

  // What happens at the open end of a text when a bracket follows: it is swallowed.
  lemma {:induction false} OscOpen(s: string, first: bool)
    requires !OscDone(s, first)
    ensures var n := OscLen(s + "[", first);
            n == |s| + 1 || (s != "" && n == |s| - 1 && s[n] == ESC)
  {
    if s == "" {
      assert s + "[" == "[";
    } else {
      assert (s + "[")[0] == s[0] && (s + "[")[1..] == s[1..] + "[";
      if s[0] != ESC { OscOpen(s[1..], false); }
    }
  }

  lemma OpenSwallows(s: string)
    requires s != "" && s[0] == ESC && !EscDone(s)
    ensures Strip(s + "[") == Strip(s) == ""
  {
    var t := s + "[";
    assert t[0] == ESC;
    if |s| == 1 {
      assert t[1] == '[' && t[2..] == "" && s[1..] == "" && t[EscLen(t)..] == "";
    } else {
      assert t[1] == s[1] && t[2..] == s[2..] + "[";
      if s[1] == '[' {
        CsiThen(s[2..], "[");
        assert EscLen(t) == |t| && t[|t|..] == "" && EscLen(s) == |s| && s[|s|..] == "";
      } else {
        OscOpen(s[2..], true);
        OscAlone(s[2..], true);
        OpenOsc(s, t);
      }
    }
  }

  lemma {:induction false} OscAlone(s: string, first: bool)
    requires !OscDone(s, first)
    ensures var n := OscLen(s, first);
            n == |s| || (s != "" && n == |s| - 1 && s[n] == ESC)
  {
    if s != "" && s[0] != ESC { OscAlone(s[1..], false); }
  }

  lemma OneEscape()
    ensures Strip([ESC]) == "" && Strip([ESC, '[']) == ""
  {
    assert [ESC][1..] == "" && [ESC, '['][2..] == "";
    assert Strip([ESC]) == Strip([ESC][1..]);
    assert EscLen([ESC, '[']) == 2;
  }

  lemma OpenOsc(s: string, t: string)
    requires |s| > 1 && s[0] == ESC && s[1] == ']' && !OscDone(s[2..], true)
    requires t == s + "["
    requires var r, n := s[2..], OscLen(s[2..], true); n == |r| || (r != "" && n == |r| - 1 && r[n] == ESC)
    requires var r, n := s[2..], OscLen(s[2..] + "[", true); n == |r| + 1 || (r != "" && n == |r| - 1 && r[n] == ESC)
    ensures Strip(t) == "" && Strip(s) == ""
  {
    OneEscape();
    assert t[2..] == s[2..] + "[" && t[0] == ESC && t[1] == ']';
    var m, n := EscLen(s), EscLen(t);
    if m == |s| { assert s[m..] == ""; } else { assert s[m..] == [ESC]; }
    if n == |t| { assert t[n..] == ""; } else { assert t[n..] == [ESC, '[']; }
  }

  lemma {:induction false} IncompleteSwallows(s: string)
    requires !Complete(s)
    ensures Strip(s + "[") == Strip(s)
    decreases |s|
  {
    var t := s + "[";
    if s[0] != ESC {
      assert t[0] == s[0] && t[1..] == s[1..] + "[";
      IncompleteSwallows(s[1..]);
    } else if !EscDone(s) {
      OpenSwallows(s);
    } else {
      var n := EscLen(s);
      EscThen(s, "[");
      assert t[n..] == s[n..] + "[";
      IncompleteSwallows(s[n..]);
    }
  }

  /** Exactly the texts that end outside any escape sequence can be stripped apart from what
      follows them. */
  lemma StripsApartExactly(s: string)
    ensures Complete(s) <==> forall t :: Strip(s + t) == Strip(s) + Strip(t)
  {
    if Complete(s) {
      forall t ensures Strip(s + t) == Strip(s) + Strip(t) { CompleteThen(s, t); }
    } else {
      IncompleteSwallows(s);
      PlainStays("[");
      assert |Strip(s + "[")| != |Strip(s) + Strip("[")|;
    }
  }

  // Which bytes a sequence takes, said without the scanner.

  datatype OscEnd = Bell | Terminator | Backslash | Cut
  datatype Segment =
    | Plain(text: string)
    | Csi(params: string, final: char)
    | OpenCsi(params: string)            // the text ends inside it
    | Osc(payload: string, end: OscEnd)
    | Lone

  function EndText(end: OscEnd): string {
    match end
    case Bell => [7 as char]
    case Terminator => [27 as char, 92 as char]
    case Backslash => [92 as char]
    case Cut => ""
  }

  function Shown(p: Segment): string {
    match p
    case Plain(text) => text
    case Csi(params, final) => [27 as char, 91 as char] + params + [final]
    case OpenCsi(params) => [27 as char, 91 as char] + params
    case Osc(payload, end) => [27 as char, 93 as char] + payload + EndText(end)
    case Lone => [27 as char]
  }

  predicate Parameters(s: string) { forall i :: 0 <= i < |s| ==> s[i] as int < 0x40 || s[i] as int > 0x7e }

  // No bell, no escape, and no backslash but as the first byte.
  predicate Payload(s: string) {
    forall i :: 0 <= i < |s| ==> s[i] as int != 7 && s[i] as int != 27 && (s[i] as int == 92 ==> i == 0)
  }

  // The segment may stand before this text.
  predicate Fits(p: Segment, rest: string) {
    match p
    case Plain(text) => forall i :: 0 <= i < |text| ==> text[i] as int != 27
    case Csi(params, final) => Parameters(params) && 0x40 <= final as int <= 0x7e
    case OpenCsi(params) => Parameters(params) && rest == ""
    case Osc(payload, Bell) => Payload(payload)
    case Osc(payload, Terminator) => Payload(payload)
    case Osc(payload, Backslash) => Payload(payload) && payload != ""
    case Osc(payload, Cut) =>
      Payload(payload) && (rest == "" || (rest[0] as int == 27 && (|rest| == 1 || rest[1] as int != 92)))
    case Lone => rest == "" || (rest[0] as int != 91 && rest[0] as int != 93)
  }

  function ShownAll(ps: seq<Segment>): string { if ps == [] then "" else Shown(ps[0]) + ShownAll(ps[1..]) }
  function PlainOf(ps: seq<Segment>): string {
    if ps == [] then "" else (if ps[0].Plain? then ps[0].text else "") + PlainOf(ps[1..])
  }
  predicate AllFit(ps: seq<Segment>) { ps == [] || (Fits(ps[0], ShownAll(ps[1..])) && AllFit(ps[1..])) }

  lemma {:induction false} CsiTakes(params: string, rest: string)
    requires Parameters(params) && (rest == "" || 0x40 <= rest[0] as int <= 0x7e)
    ensures CsiLen(params + rest) == |params| + (if rest == "" then 0 else 1)
  {
    if params == "" {
      assert params + rest == rest;
    } else {
      assert (params + rest)[0] == params[0] && (params + rest)[1..] == params[1..] + rest;
      CsiTakes(params[1..], rest);
    }
  }

  // How the text behind a payload ends the command, and how many of its bytes belong to it.
  function OscTail(payload: string, rest: string): int {
    if rest == "" then 0
    else if rest[0] as int == 7 then 1
    else if rest[0] as int == 92 && payload != "" then 1
    else if rest[0] as int == 27 then (if |rest| > 1 && rest[1] as int == 92 then 2 else 0)
    else -1
  }

  lemma {:induction false} OscTakes(payload: string, first: bool, rest: string)
    requires Payload(payload) && OscTail(if first then payload else "x", rest) >= 0
    requires !first ==> payload == "" || payload[0] as int != 92
    ensures OscLen(payload + rest, first) == |payload| + OscTail(if first then payload else "x", rest)
  {
    if payload == "" {
      assert payload + rest == rest;
    } else {
      assert (payload + rest)[0] == payload[0] && (payload + rest)[1..] == payload[1..] + rest;
      OscTakes(payload[1..], false, rest);
    }
  }

  lemma OscStrips(payload: string, tail: string, rest: string)
    requires Payload(payload) && OscTail(payload, tail + rest) == |tail|
    ensures Strip([27 as char, 93 as char] + payload + tail + rest) == Strip(rest)
  {
    var s := [27 as char, 93 as char] + payload + tail + rest;
    assert s[0] == ESC && s[1] == ']' && s[2..] == payload + (tail + rest);
    OscTakes(payload, true, tail + rest);
    assert s[EscLen(s)..] == rest;
  }

  lemma CsiStrips(params: string, tail: string, rest: string)
    requires Parameters(params) && (if tail == "" then rest == "" else |tail| == 1 && 0x40 <= tail[0] as int <= 0x7e)
    ensures Strip([27 as char, 91 as char] + params + tail + rest) == Strip(rest)
  {
    var s := [27 as char, 91 as char] + params + tail + rest;
    assert s[0] == ESC && s[1] == '[' && s[2..] == params + (tail + rest);
    CsiTakes(params, tail + rest);
    assert s[EscLen(s)..] == rest;
  }

  lemma LoneStrips(rest: string)
    requires Fits(Lone, rest)
    ensures Strip([27 as char] + rest) == Strip(rest)
  {
    var s := [27 as char] + rest;
    assert s[0] == ESC && s[1..] == rest;
    assert |s| > 1 ==> s[1] == rest[0];
  }

  lemma SegmentStrips(p: Segment, rest: string)
    requires Fits(p, rest)
    ensures Strip(Shown(p) + rest) == (if p.Plain? then p.text else "") + Strip(rest)
  {
    hide Strip;
    Unit(Strip(rest));
    match p {
      case Plain(text) => PlainThen(text, rest);
      case Csi(params, final) => CsiStrips(params, [final], rest);
      case OpenCsi(params) =>
        Unit(Shown(p));
        CsiStrips(params, "", rest);
      case Osc(payload, end) =>
        Unit(rest);
        OscStrips(payload, EndText(end), rest);
      case Lone => LoneStrips(rest);
    }
  }

  lemma Unit(s: string)
    ensures "" + s == s && s + "" == s
  {
  }

  lemma {:induction false} PlainThen(text: string, rest: string)
    requires forall i :: 0 <= i < |text| ==> text[i] as int != 27
    ensures Strip(text + rest) == text + Strip(rest)
  {
    if text == "" {
      assert text + rest == rest && text + Strip(rest) == Strip(rest);
    } else {
      assert (text + rest)[0] == text[0] && (text + rest)[1..] == text[1..] + rest;
      PlainThen(text[1..], rest);
      assert [text[0]] + (text[1..] + Strip(rest)) == text + Strip(rest);
    }
  }

  /** Stripping takes exactly the escape sequences: of any list of segments it leaves the plain
      text, whole and in order. */
  lemma {:induction false} StripsTheSequences(ps: seq<Segment>)
    requires AllFit(ps)
    ensures Strip(ShownAll(ps)) == PlainOf(ps)
  {
    if ps != [] {
      SegmentStrips(ps[0], ShownAll(ps[1..]));
      StripsTheSequences(ps[1..]);
    }
  }

  // And every text is such a list, so that says what stripping makes of any text.

  lemma {:induction false} ReadCsi(s: string) returns (params: string, rest: string)
    ensures s == params + rest && Parameters(params) && (rest == "" || 0x40 <= rest[0] as int <= 0x7e)
  {
    params, rest := "", s;
    if s != "" && !(0x40 <= s[0] as int <= 0x7e) {
      params, rest := ReadCsi(s[1..]);
      params := [s[0]] + params;
    }
  }

  lemma {:induction false} ReadOsc(s: string, before: string) returns (payload: string, rest: string)
    requires Payload(before)
    ensures before + s == payload + rest && Payload(payload) && |payload| >= |before| && OscTail(payload, rest) >= 0
    decreases |s|
  {
    payload, rest := before, s;
    if OscTail(before, s) < 0 {
      assert before + s == before + [s[0]] + s[1..];
      payload, rest := ReadOsc(s[1..], before + [s[0]]);
    }
  }

  lemma {:induction false} EveryTextIsSegments(s: string) returns (ps: seq<Segment>)
    ensures AllFit(ps) && ShownAll(ps) == s
    decreases |s|
  {
    if s == "" { return []; }
    var p, rest;
    if s[0] as int != 27 {
      p, rest := Plain([s[0]]), s[1..];
    } else if |s| > 1 && s[1] as int == 91 {
      var params, r := ReadCsi(s[2..]);
      if r == "" { p, rest := OpenCsi(params), ""; } else { p, rest := Csi(params, r[0]), r[1..]; }
    } else if |s| > 1 && s[1] as int == 93 {
      p, rest := OscSegment(s);
    } else {
      p, rest := Lone, s[1..];
    }
    assert s == Shown(p) + rest && |rest| < |s|;
    ps := EveryTextIsSegments(rest);
    ps := [p] + ps;
  }

  lemma OscEnds(payload: string, r: string) returns (end: OscEnd, rest: string)
    requires OscTail(payload, r) >= 0
    ensures r == EndText(end) + rest && (end.Backslash? ==> payload != "")
    ensures end.Cut? ==> rest == "" || (rest[0] as int == 27 && (|rest| == 1 || rest[1] as int != 92))
  {
    var n := OscTail(payload, r);
    end := if n == 0 then Cut else if n == 2 then Terminator else if r[0] as int == 7 then Bell else Backslash;
    rest := r[n..];
    assert r[..n] == EndText(end);
  }

  lemma OscSegment(s: string) returns (p: Segment, rest: string)
    requires |s| > 1 && s[0] as int == 27 && s[1] as int == 93
    ensures s == Shown(p) + rest && Fits(p, rest) && |rest| < |s|
  {
    var payload, r := ReadOsc(s[2..], "");
    var end;
    end, rest := OscEnds(payload, r);
    p := Osc(payload, end);
    hide EndText, OscTail, Payload;
    Unit(s[2..]);
    var intro := [27 as char, 93 as char];
    assert s[..2] == intro && s == s[..2] + s[2..];
    Grouped(intro, payload, EndText(end), rest);
    Shorter(intro, payload + r, rest, EndText(end), payload);
  }

  lemma Shorter(a: string, b: string, rest: string, end: string, payload: string)
    requires b == payload + (end + rest) && a != ""
    ensures |rest| < |a + b|
  {
  }

  lemma Grouped(a: string, b: string, c: string, d: string)
    ensures a + (b + (c + d)) == a + b + c + d
  {
  }
}
