/** The sentinel protocol of the persistent shell: a line printed after each command ends its
    capture window and carries its exit code. Strings are bytes. */
module PtyCapture {
  import opened Runs
  import opened AnsiStrip

  const PREFIX := "__ASS_GUARD_DONE_"

  // Searching.

  predicate OccursAt(s: string, sub: string, i: int) {
    0 <= i && i + |sub| <= |s| && s[i..i+|sub|] == sub
  }

  function LastFrom(s: string, sub: string, i: int): (r: int)
    requires i + |sub| <= |s|
    ensures r == -1 || (0 <= r <= i && OccursAt(s, sub, r))
    ensures forall j :: r < j <= i ==> !OccursAt(s, sub, j)
    decreases i + 1
  {
    if i < 0 then -1 else if OccursAt(s, sub, i) then i else LastFrom(s, sub, i - 1)
  }

  function LastIndex(s: string, sub: string): (r: int)
    ensures r == -1 || OccursAt(s, sub, r)
    ensures forall j :: j > r ==> !OccursAt(s, sub, j)
  {
    if |sub| > |s| then -1 else LastFrom(s, sub, |s| - |sub|)
  }

  function FirstFrom(s: string, sub: string, i: nat): (r: int)
    requires i <= |s|
    ensures r == -1 || (i <= r && OccursAt(s, sub, r))
    ensures forall j :: i <= j && (r == -1 || j < r) ==> !OccursAt(s, sub, j)
    decreases |s| - i
  {
    if OccursAt(s, sub, i) then i else if i == |s| then -1 else FirstFrom(s, sub, i + 1)
  }

  function Index(s: string, sub: string): (r: int)
    ensures r == -1 || OccursAt(s, sub, r)
    ensures forall j :: (r == -1 || j < r) ==> !OccursAt(s, sub, j)
  {
    FirstFrom(s, sub, 0)
  }

  lemma InRange(s: string, sub: string, i: int)
    requires OccursAt(s, sub, i)
    ensures 0 <= i && i + |sub| <= |s|
  {
  }

  lemma IndexIs(s: string, sub: string, i: int)
    requires OccursAt(s, sub, i) && forall j :: j < i ==> !OccursAt(s, sub, j)
    ensures Index(s, sub) == i
  {
    InRange(s, sub, i);
    hide OccursAt;
  }

  // The sentinel.

  function Marker(nonce: string): string { PREFIX + nonce + "_" }

  function Line(nonce: string, status: string): string { Marker(nonce) + status + "__" }

  // The probe written to the shell; the shell puts the exit status in place of $?.
  function SentinelEchoLine(nonce: string): string { "echo " + Line(nonce, "$?") }

  lemma ProbePrintsLine(nonce: string, status: string)
    ensures SentinelEchoLine(nonce) == "echo __ASS_GUARD_DONE_" + nonce + "_$?__"
    ensures Line(nonce, status) == "__ASS_GUARD_DONE_" + nonce + "_" + status + "__"
    ensures var text, m := SentinelEchoLine(nonce)[5..], |Marker(nonce)|;
            text[m..m+2] == "$?" && text[..m] + status + text[m+2..] == Line(nonce, status)
  {
    var text, m := SentinelEchoLine(nonce)[5..], |Marker(nonce)|;
    assert text == Marker(nonce) + "$?" + "__";
    assert text[m..m+2] == "$?" && text[..m] == Marker(nonce) && text[m+2..] == "__";
  }

  predicate IsDigit(c: char) { '0' <= c <= '9' }
  predicate AllDigits(s: string) { forall i :: 0 <= i < |s| ==> IsDigit(s[i]) }

  // Lower-case letters and digits, as hexadecimal gives.
  predicate IsNonce(s: string) {
    s != "" && forall i :: 0 <= i < |s| ==> IsDigit(s[i]) || 'a' <= s[i] <= 'z'
  }

  function Digits(n: nat): (s: string)
    ensures s != "" && AllDigits(s)
  {
    var d := [('0' as int + n % 10) as char];
    if n < 10 then d else Digits(n / 10) + d
  }

  const TWO63: int := 0x8000_0000_0000_0000

  // A sixty-four bit signed integer wraps around.
  function Wrap(x: int): int { (x + TWO63) % (2 * TWO63) - TWO63 }

  function Value(ds: string): int
    requires AllDigits(ds)
  {
    if ds == "" then 0 else Wrap(Value(ds[..|ds|-1]) * 10 + (ds[|ds|-1] as int - '0' as int))
  }

  lemma WrapSmall(x: int)
    requires 0 <= x < TWO63
    ensures Wrap(x) == x
  {
  }

  lemma {:induction false} ValueOfDigits(n: nat)
    requires n < TWO63
    ensures Value(Digits(n)) == n
  {
    hide Wrap;
    var ds, c := Digits(n), ('0' as int + n % 10) as char;
    WrapSmall(n);
    if n < 10 {
      assert ds == [c] && ds[..0] == "";
      assert Value("") == 0;
    } else {
      ValueOfDigits(n / 10);
      assert ds == Digits(n / 10) + [c] && ds[..|ds|-1] == Digits(n / 10);
    }
  }

  // The digits between the last marker and the next double underscore, if that is what is there.
  function Status(window: string, marker: string): Option<string> {
    var idx := LastIndex(window, marker);
    if idx < 0 then None
    else
      var tail := window[idx+|marker|..];
      var end := Index(tail, "__");
      if end <= 0 || !AllDigits(tail[..end]) then None else Some(tail[..end])
  }

  function Parse(window: string, marker: string): Option<int> {
    match Status(window, marker)
    case None => None
    case Some(ds) => if AllDigits(ds) then Some(Value(ds)) else None
  }

  method ParseSentinel(window: string, marker: string) returns (code: int, ok: bool)
    ensures Parse(window, marker) == if ok then Some(code) else None
  {
    hide OccursAt;
    var idx := LastIndex(window, marker);
    if idx < 0 {
      return 0, false;
    }
    var tail := TailAfter(window, marker, idx);
    var end := Index(tail, "__");
    if end <= 0 {
      return 0, false;
    }
    InRange(tail, "__", end);
    code := 0;
    ghost var ds := tail[..end];
    for i := 0 to end
      invariant AllDigits(tail[..i]) && code == Value(tail[..i])
    {
      if !IsDigit(tail[i]) {
        assert ds[i] == tail[i];
        return 0, false;
      }
      assert tail[..i+1][..i] == tail[..i];
      code := Wrap(code * 10 + (tail[i] as int - '0' as int));
    }
    return code, true;
  }

  function TailAfter(window: string, marker: string, idx: int): string
    requires OccursAt(window, marker, idx)
  {
    window[idx+|marker|..]
  }

  // Where the last result line starts, or -1.
  function ResultAt(s: string, nonce: string): int {
    if Status(s, Marker(nonce)).Some? then LastIndex(s, Marker(nonce)) else -1
  }

  method LastSentinelResult(s: string, nonce: string) returns (r: int)
    ensures r == ResultAt(s, nonce)
  {
    hide OccursAt;
    var marker := Marker(nonce);
    var idx := LastIndex(s, marker);
    if idx < 0 {
      return -1;
    }
    var tail := TailAfter(s, marker, idx);
    var end := Index(tail, "__");
    if end <= 0 {
      return -1;
    }
    InRange(tail, "__", end);
    ghost var ds := tail[..end];
    for i := 0 to end
      invariant AllDigits(tail[..i])
    {
      if !IsDigit(tail[i]) {
        assert ds[i] == tail[i];
        return -1;
      }
    }
    return idx;
  }

  // From the window to the result.

  function Normal(s: string): string {
    if s == "" then ""
    else if |s| > 1 && s[0] == '\r' && s[1] == '\n' then "\n" + Normal(s[2..])
    else [s[0]] + Normal(s[1..])
  }

  predicate IsBlank(c: char) { c == ' ' || c == '\t' || c == '\r' || c == '\n' }

  function TrimRight(s: string): (r: string)
    ensures r <= s
  {
    if s != "" && IsBlank(s[|s|-1]) then TrimRight(s[..|s|-1]) else s
  }

  // No carriage return directly before a newline.
  predicate NoCrLf(s: string) { forall i :: 0 <= i < |s| - 1 && s[i] == '\r' ==> s[i+1] != '\n' }

  function Joined(lines: seq<string>, end: string): string {
    if lines == [] then "" else if |lines| == 1 then lines[0] else lines[0] + end + Joined(lines[1..], end)
  }

  lemma {:induction false} NormalLineThen(line: string, rest: string)
    requires NoCrLf(line)
    ensures Normal(line + ("\r\n" + rest)) == line + ("\n" + Normal(rest))
  {
    var s := line + ("\r\n" + rest);
    if line == "" {
      assert s == "\r\n" + rest && s[2..] == rest && "" + ("\n" + Normal(rest)) == "\n" + Normal(rest);
    } else {
      assert s[0] == line[0] && s[1..] == line[1..] + ("\r\n" + rest);
      assert s[1] == if |line| > 1 then line[1] else '\r';
      assert forall i :: 0 <= i < |line| - 1 ==> line[1..][i] == line[i+1];
      NormalLineThen(line[1..], rest);
      assert [line[0]] + (line[1..] + ("\n" + Normal(rest))) == line + ("\n" + Normal(rest));
    }
  }

  lemma {:induction false} NormalAlone(line: string)
    requires NoCrLf(line)
    ensures Normal(line) == line
  {
    if line != "" {
      assert forall i :: 0 <= i < |line| - 1 ==> line[1..][i] == line[i+1];
      NormalAlone(line[1..]);
      assert line == [line[0]] + line[1..];
    }
  }

  /** Normalising makes every carriage return with its newline a newline, and changes nothing else. */
  lemma {:induction false} NormalisesLineEnds(lines: seq<string>)
    requires forall i :: 0 <= i < |lines| ==> NoCrLf(lines[i])
    ensures Normal(Joined(lines, "\r\n")) == Joined(lines, "\n")
  {
    if |lines| == 1 {
      NormalAlone(lines[0]);
    } else if |lines| > 1 {
      var rest := Joined(lines[1..], "\r\n");
      assert lines[0] + "\r\n" + rest == lines[0] + ("\r\n" + rest);
      NormalLineThen(lines[0], rest);
      NormalisesLineEnds(lines[1..]);
      assert lines[0] + ("\n" + Normal(rest)) == lines[0] + "\n" + Normal(rest);
    }
  }

  // Trimming takes exactly the blanks at the end.
  lemma {:induction false} TrimRightMeans(s: string)
    ensures var r := TrimRight(s);
      && r <= s && (r != "" ==> r[|r|-1] !in " \t\r\n") && forall i :: |r| <= i < |s| ==> s[i] in " \t\r\n"
  {
    if s != "" && IsBlank(s[|s|-1]) { TrimRightMeans(s[..|s|-1]); }
  }

  function Cut(s: string, nonce: string): string {
    if ResultAt(s, nonce) >= 0 then s[..ResultAt(s, nonce)] else s
  }

  function Trim(raw: string, nonce: string): string { TrimRight(Cut(Normal(Strip(raw)), nonce)) }

  method TrimPTYCapture(raw: string, nonce: string) returns (out: string)
    ensures out == Trim(raw, nonce)
  {
    hide Status, OccursAt;
    out := StripANSI(raw);
    out := Normal(out);
    var idx := LastSentinelResult(out, nonce);
    if idx >= 0 {
      out := out[..idx];
    }
    out := TrimRight(out);
  }

  // What reaches the window: data, or what ends it without a result.
  datatype Event = Data(bytes: string) | Cancelled | ShellDead | ReadError
  datatype Window = Done(code: int) | Failed(why: Event) | Waiting

  // The bytes captured after the first k events, all of them data.
  function Captured(es: seq<Event>, k: nat): string
    requires k <= |es|
  {
    if k == 0 then "" else Captured(es, k - 1) + (if es[k-1].Data? then es[k-1].bytes else "")
  }

  predicate NothingYet(es: seq<Event>, marker: string, k: int)
    requires 0 <= k < |es|
  {
    es[k].Data? && Parse(Captured(es, k + 1), marker) == None
  }

  /** The window ends at the first failure, or as soon as the capture parses; used is how many
      events it took. */
  ghost predicate WindowIs(es: seq<Event>, marker: string, used: nat, w: Window) {
    && used <= |es|
    && (forall k :: 0 <= k < used - 1 ==> NothingYet(es, marker, k))
    && match w
       case Done(code) => used > 0 && es[used-1].Data? && Parse(Captured(es, used), marker) == Some(code)
       case Failed(why) => used > 0 && es[used-1] == why && !why.Data?
       case Waiting =>
         used == |es| && (used > 0 ==> NothingYet(es, marker, used - 1))
  }

  lemma CapturedNone(es: seq<Event>)
    ensures Captured(es, 0) == ""
  {
  }

  lemma CapturedMore(es: seq<Event>, k: nat)
    requires k < |es|
    ensures Captured(es, k + 1) == Captured(es, k) + (if es[k].Data? then es[k].bytes else "")
  {
  }

  method ReadWindow(es: seq<Event>, marker: string) returns (w: Window, capture: string, used: nat)
    ensures WindowIs(es, marker, used, w) && capture == Captured(es, used)
  {
    capture := "";
    used := 0;
    CapturedNone(es);
    while used < |es|
      invariant used <= |es| && capture == Captured(es, used)
      invariant forall k :: 0 <= k < used ==> NothingYet(es, marker, k)
    {
      var e := es[used];
      CapturedMore(es, used);
      used := used + 1;
      if !e.Data? {
        assert capture + "" == capture && es[used-1] == e;
        return Failed(e), capture, used;
      }
      capture := capture + e.bytes;
      var code, ok := ParseSentinel(capture, marker);
      if ok {
        return Done(code), capture, used;
      }
    }
    return Waiting, capture, used;
  }

  // Where the marker can occur around its line.

  predicate Double(s: string, i: int) { 0 <= i < |s| - 1 && s[i] == '_' && s[i+1] == '_' }

  lemma DoubleIs(s: string, i: int)
    ensures OccursAt(s, "__", i) <==> Double(s, i)
  {
    if Double(s, i) { assert s[i..i+2] == ['_', '_']; }
    if OccursAt(s, "__", i) { assert s[i..i+2][0] == s[i] && s[i..i+2][1] == s[i+1]; }
  }

  // A line end as the terminal writes it, or as much of it as has arrived.
  predicate LineEnd(nl: string) { nl == "" || nl == "\n" || nl == "\r" || nl == "\r\n" }

  predicate IsLine(nonce: string, ds: string, nl: string) {
    IsNonce(nonce) && ds != "" && AllDigits(ds) && LineEnd(nl)
  }

  function FullLine(nonce: string, ds: string, nl: string): string { Line(nonce, ds) + nl }

  lemma LineShape(nonce: string, ds: string, nl: string)
    requires IsLine(nonce, ds, nl)
    ensures var l, m, d := FullLine(nonce, ds, nl), |Marker(nonce)|, |ds|;
            && m == 18 + |nonce| && |l| == m + d + 2 + |nl|
            && l[..m] == Marker(nonce) && l[m..m+d] == ds
            && (forall i :: 0 <= i < 17 ==> l[i] == PREFIX[i])
            && (forall i :: 17 <= i < m - 1 ==> l[i] == nonce[i-17])
            && l[m-1] == '_'
            && (forall i :: 0 <= i < d ==> l[m+i] == ds[i])
            && l[m+d] == '_' == l[m+d+1]
            && (forall i :: m + d + 2 <= i < |l| ==> l[i] == '\n' || l[i] == '\r')
  {
  }

  // The double underscores of a result line: its first two bytes and the pair after the status.
  lemma LineDoubles(nonce: string, ds: string, nl: string, i: int)
    requires IsLine(nonce, ds, nl)
    ensures Double(FullLine(nonce, ds, nl), i) <==> i == 0 || i == |Marker(nonce)| + |ds|
  {
    hide FullLine;
    LineShape(nonce, ds, nl);
    var l, m := FullLine(nonce, ds, nl), |Marker(nonce)|;
    if 0 < i < 17 { PrefixDoubles(i); }
    if 17 <= i < m - 1 { assert l[i] == nonce[i-17]; }
    if m <= i < m + |ds| { assert l[m+(i-m)] == ds[i-m]; }
  }

  lemma PrefixDoubles(i: int)
    requires 0 < i < 17
    ensures PREFIX[i] == '_' ==> i == 16 || PREFIX[i+1] != '_'
    ensures i == 1 ==> PREFIX[i+1] != '_'
  {
  }

  // A marker that touches the line is the line's own, or ends with the line's first byte.
  lemma MarkerPlaces(o: string, nonce: string, ds: string, nl: string, p: int)
    requires IsLine(nonce, ds, nl) && OccursAt(o + FullLine(nonce, ds, nl), Marker(nonce), p)
    ensures var m := |Marker(nonce)|; p == |o| || p == |o| - m + 1 || p + m <= |o|
  {
    hide FullLine, Marker;
    var l, mk := FullLine(nonce, ds, nl), Marker(nonce);
    var t, m := o + l, |mk|;
    LineShape(nonce, ds, nl);
    assert t[p..p+m] == mk == l[..m];
    assert forall i :: 0 <= i < m ==> t[p+i] == t[p..p+m][i] == l[..m][i] == l[i];
    assert forall i :: 0 <= i < |l| ==> t[|o|+i] == l[i];
    if p > |o| {
      LineDoubles(nonce, ds, nl, 0);
      assert t[p+0] == l[0] && t[p+1] == l[1];
      LineDoubles(nonce, ds, nl, p - |o|);
    } else if |o| - m + 1 < p < |o| {
      var k := |o| - p;
      assert t[p+k] == l[k] && t[|o|+0] == l[0];
      assert t[p+(k+1)] == l[k+1] && t[|o|+1] == l[1];
      LineDoubles(nonce, ds, nl, 0);
      LineDoubles(nonce, ds, nl, k);
    }
  }

  lemma OccursInPrefix(t: string, w: int, sub: string, p: int)
    requires 0 <= w <= |t|
    ensures OccursAt(t[..w], sub, p) <==> OccursAt(t, sub, p) && p + |sub| <= w
  {
    if 0 <= p && p + |sub| <= w { assert t[..w][p..p+|sub|] == t[p..p+|sub|]; }
  }

  lemma LineOccurs(o: string, nonce: string, ds: string, nl: string)
    requires IsLine(nonce, ds, nl)
    ensures OccursAt(o + FullLine(nonce, ds, nl), Marker(nonce), |o|)
  {
    LineShape(nonce, ds, nl);
    var l, m := FullLine(nonce, ds, nl), |Marker(nonce)|;
    assert (o + l)[|o|..|o|+m] == l[..m];
  }

  predicate MarkerFree(o: string, nonce: string) { forall p :: 0 <= p <= |o| ==> !OccursAt(o, Marker(nonce), p) }

  // Where the last marker of a window is.
  lemma LastMarker(o: string, nonce: string, ds: string, nl: string, w: int)
    requires IsLine(nonce, ds, nl) && 0 <= w <= |o + FullLine(nonce, ds, nl)|
    requires w < |o| + |Marker(nonce)| ==> MarkerFree(o, nonce)
    ensures var m, last := |Marker(nonce)|, LastIndex((o + FullLine(nonce, ds, nl))[..w], Marker(nonce));
            if w >= |o| + m then last == |o| else last == -1 || (last == |o| - m + 1 && w > |o|)
  {
    hide FullLine, Marker, OccursAt;
    var mk, t := Marker(nonce), o + FullLine(nonce, ds, nl);
    var m, win := |mk|, t[..w];
    var last := LastIndex(win, mk);
    assert t[..|o|] == o;
    LineShape(nonce, ds, nl);
    LineOccurs(o, nonce, ds, nl);
    OccursInPrefix(t, w, mk, |o|);
    if last >= 0 {
      OccursInPrefix(t, w, mk, last);
      MarkerPlaces(o, nonce, ds, nl, last);
      if last + m <= |o| {
        OccursInPrefix(t, |o|, mk, last);
      }
    }
    if w >= |o| + m { assert OccursAt(win, mk, |o|); }
  }

  // A stretch of the line from j on has no double underscore until the pair after the status.
  lemma TailIndex(nonce: string, ds: string, nl: string, j: int, k: int)
    requires IsLine(nonce, ds, nl)
    requires 0 < j <= k <= |FullLine(nonce, ds, nl)| && j <= |Marker(nonce)|
    ensures var e := |Marker(nonce)| + |ds|;
            Index(FullLine(nonce, ds, nl)[j..k], "__") == if k >= e + 2 then e - j else -1
  {
    hide FullLine, Marker, OccursAt;
    var l, e := FullLine(nonce, ds, nl), |Marker(nonce)| + |ds|;
    var tail := l[j..k];
    forall i ensures OccursAt(tail, "__", i) <==> (i == e - j && k >= e + 2) {
      DoubleIs(tail, i);
      LineDoubles(nonce, ds, nl, i + j);
    }
    if k >= e + 2 { IndexIs(tail, "__", e - j); }
  }

  /** For output without the marker, exactly the windows that reach to the end of the result line
      have a status, and it is the one the line carries. */
  lemma WindowStatus(o: string, nonce: string, ds: string, nl: string, w: int)
    requires IsLine(nonce, ds, nl) && 0 <= w <= |o + FullLine(nonce, ds, nl)|
    requires w < |o| + |Marker(nonce)| ==> MarkerFree(o, nonce)
    ensures Status((o + FullLine(nonce, ds, nl))[..w], Marker(nonce)) ==
            if w >= |o| + |Line(nonce, ds)| then Some(ds) else None
  {
    hide Status, FullLine, Marker, OccursAt, Line, MarkerFree;
    LineLength(nonce, ds);
    LastMarker(o, nonce, ds, nl, w);
    var win := (o + FullLine(nonce, ds, nl))[..w];
    if w >= |o| + |Marker(nonce)| {
      StatusAtLine(o, nonce, ds, nl, w);
    } else if LastIndex(win, Marker(nonce)) >= 0 {
      StatusBeforeLine(o, nonce, ds, nl, w);
    } else {
      NoMarkerNoStatus(win, Marker(nonce));
    }
  }

  lemma LineLength(nonce: string, ds: string)
    ensures |Line(nonce, ds)| == |Marker(nonce)| + |ds| + 2
  {
  }

  lemma NoMarkerNoStatus(s: string, marker: string)
    requires LastIndex(s, marker) == -1
    ensures Status(s, marker) == None
  {
  }

  lemma StatusAtLine(o: string, nonce: string, ds: string, nl: string, w: int)
    requires IsLine(nonce, ds, nl) && |o| + |Marker(nonce)| <= w <= |o + FullLine(nonce, ds, nl)|
    requires LastIndex((o + FullLine(nonce, ds, nl))[..w], Marker(nonce)) == |o|
    ensures Status((o + FullLine(nonce, ds, nl))[..w], Marker(nonce)) ==
            if w >= |o| + |Marker(nonce)| + |ds| + 2 then Some(ds) else None
  {
    hide FullLine, Marker, OccursAt;
    LineShape(nonce, ds, nl);
    var l, m := FullLine(nonce, ds, nl), |Marker(nonce)|;
    var tail := l[m..w-|o|];
    assert (o + l)[..w][|o|+m..] == tail;
    TailIndex(nonce, ds, nl, m, w - |o|);
    if w >= |o| + m + |ds| + 2 { assert tail[..|ds|] == l[m..m+|ds|]; }
  }

  lemma StatusBeforeLine(o: string, nonce: string, ds: string, nl: string, w: int)
    requires IsLine(nonce, ds, nl) && |o| < w < |o| + |Marker(nonce)|
    requires LastIndex((o + FullLine(nonce, ds, nl))[..w], Marker(nonce)) == |o| - |Marker(nonce)| + 1
    requires w <= |o + FullLine(nonce, ds, nl)|
    ensures Status((o + FullLine(nonce, ds, nl))[..w], Marker(nonce)) == None
  {
    hide FullLine, Marker, OccursAt;
    LineShape(nonce, ds, nl);
    var l := FullLine(nonce, ds, nl);
    assert (o + l)[..w][|o|+1..] == l[1..w-|o|];
    TailIndex(nonce, ds, nl, 1, w - |o|);
  }

  /** For output without the marker, exactly the windows that reach to the end of the result line
      parse, and they parse to the exit code that was printed. */
  lemma WindowParses(o: string, nonce: string, code: nat, nl: string, w: int)
    requires IsNonce(nonce) && code < TWO63 && LineEnd(nl) && MarkerFree(o, nonce)
    requires 0 <= w <= |o + FullLine(nonce, Digits(code), nl)|
    ensures Parse((o + FullLine(nonce, Digits(code), nl))[..w], Marker(nonce)) ==
            if w >= |o| + |Line(nonce, Digits(code))| then Some(code) else None
  {
    hide Status, FullLine, Marker, Line, MarkerFree, Digits;
    WindowStatus(o, nonce, Digits(code), nl, w);
    ValueOfDigits(code);
  }

  lemma {:induction false} CapturedPrefix(es: seq<Event>, k: nat, n: nat)
    requires k <= n <= |es|
    ensures Captured(es, k) <= Captured(es, n)
  {
    if k < n { CapturedPrefix(es, k, n - 1); }
  }

  /** However output and result line are cut into chunks, and whatever comes after them, the
      window ends with the chunk that completes the line, and with the printed exit code. */
  lemma AnyChunkingReturnsTheCode(es: seq<Event>, n: nat, o: string, nonce: string, code: nat, nl: string,
                                  used: nat, w: Window)
    requires IsNonce(nonce) && code < TWO63 && LineEnd(nl) && MarkerFree(o, nonce)
    requires n <= |es| && (forall k :: 0 <= k < n ==> es[k].Data?)
    requires Captured(es, n) == o + FullLine(nonce, Digits(code), nl)
    requires WindowIs(es, Marker(nonce), used, w)
    ensures w == Done(code) && 0 < used <= n
    ensures |Captured(es, used - 1)| < |o| + |Line(nonce, Digits(code))| <= |Captured(es, used)|
  {
    hide Parse, FullLine, Marker, Line, MarkerFree, Digits, Captured;
    var t, full := o + FullLine(nonce, Digits(code), nl), |o| + |Line(nonce, Digits(code))|;
    FullIsLong(o, nonce, Digits(code), nl);
    forall k | 0 <= k <= n
      ensures Parse(Captured(es, k), Marker(nonce)) == if |Captured(es, k)| >= full then Some(code) else None
    {
      CapturedPrefix(es, k, n);
      assert t[..|Captured(es, k)|] == Captured(es, k);
      WindowParses(o, nonce, code, nl, |Captured(es, k)|);
    }
    CapturedNone(es);
    assert n > 0 && !NothingYet(es, Marker(nonce), n - 1);
    assert used <= n;
    if used > 1 { assert NothingYet(es, Marker(nonce), used - 2); }
  }

  lemma FullIsLong(o: string, nonce: string, ds: string, nl: string)
    ensures 0 < |o| + |Line(nonce, ds)| <= |o + FullLine(nonce, ds, nl)|
  {
  }

  // The trimmed result.

  // Where the strip scan stands at the end of a text: outside any sequence (or after a lone
  // escape), in a control sequence, or in an operating-system command.
  datatype End = Outside | InCsi | InOsc

  predicate OscRuns(s: string, first: bool) {
    s == "" || (s[0] != BEL && (s[0] != BACKSLASH || first) && s[0] != ESC && OscRuns(s[1..], false))
  }

  // The same for the escape at the front.
  function FrontOf(s: string): End {
    if |s| > 1 && s[1] == '[' && !CsiDone(s[2..]) then InCsi
    else if |s| > 1 && s[1] == ']' && OscRuns(s[2..], true) then InOsc
    else Outside
  }

  function EndOf(s: string): End
    decreases |s|
  {
    if s == "" then Outside
    else if s[0] != ESC then EndOf(s[1..])
    else if FrontOf(s) != Outside then FrontOf(s)
    else EndOf(s[EscLen(s)..])
  }

  // Starts with a final byte that opens nothing, and could not end an operating-system command.
  predicate Inert(l: string) {
    l != "" && l[0] == '_' && BEL !in l && BACKSLASH !in l && ESC !in l
  }

  lemma {:induction false} OscRunsOn(s: string, first: bool, l: string)
    requires OscRuns(s, first) && Inert(l)
    ensures OscLen(s + l, first) == |s| + |l| && OscLen(s, first) == |s|
  {
    if s == "" {
      assert s + l == l;
      OscSwallows(l, first);
    } else {
      assert (s + l)[0] == s[0] && (s + l)[1..] == s[1..] + l;
      OscRunsOn(s[1..], false, l);
    }
  }

  lemma {:induction false} OscSwallows(l: string, first: bool)
    requires BEL !in l && BACKSLASH !in l && ESC !in l
    ensures OscLen(l, first) == |l|
  {
    if l != "" { OscSwallows(l[1..], false); }
  }

  lemma {:induction false} OscStops(s: string, first: bool, l: string)
    requires !OscRuns(s, first) && Inert(l)
    ensures OscLen(s + l, first) == OscLen(s, first)
  {
    assert (s + l)[0] == s[0] && (s + l)[1..] == s[1..] + l;
    if s[0] == ESC {
      assert (s + l)[1] == if |s| > 1 then s[1] else l[0];
    } else if s[0] != BEL && (s[0] != BACKSLASH || first) {
      OscStops(s[1..], false, l);
    }
  }

  lemma EscThenLine(s: string, l: string)
    requires s != "" && s[0] == ESC && Inert(l)
    ensures EscLen(s + l) == match FrontOf(s) case Outside => EscLen(s) case InCsi => |s| + 1 case InOsc => |s + l|
    ensures FrontOf(s) != Outside ==> EscLen(s) == |s|
  {
    var t := s + l;
    if |s| == 1 {
      assert t[1] == '_';
    } else {
      assert t[1] == s[1] && t[2..] == s[2..] + l;
      if s[1] == '[' {
        CsiThen(s[2..], l);
        assert CsiLen(l) == 1;
      }
      if s[1] == ']' {
        if OscRuns(s[2..], true) { OscRunsOn(s[2..], true, l); } else { OscStops(s[2..], true, l); }
      }
    }
  }

  lemma {:induction false} StripThenLine(s: string, l: string)
    requires Inert(l)
    ensures Strip(s + l) ==
            match EndOf(s)
            case Outside => Strip(s) + l
            case InCsi => Strip(s) + l[1..]
            case InOsc => Strip(s)
    decreases |s|
  {
    hide EscLen;
    var t := s + l;
    if s == "" {
      assert t == l;
      PlainStays(l);
    } else if s[0] != ESC {
      assert t[0] == s[0] && t[1..] == s[1..] + l;
      StripThenLine(s[1..], l);
    } else {
      EscThenLine(s, l);
      var n := EscLen(s);
      assert (s + l)[0] == ESC && s[|s|..] == "";
      match FrontOf(s) {
        case InCsi =>
          assert t[|s|+1..] == l[1..];
          PlainStays(l[1..]);
        case InOsc =>
          assert t[|t|..] == "";
        case Outside =>
          assert t[n..] == s[n..] + l;
          StripThenLine(s[n..], l);
      }
    }
  }

  lemma {:induction false} TrimKeeps(s: string, i: int)
    requires 0 <= i < |s| && !IsBlank(s[i])
    ensures |TrimRight(s)| > i
    decreases |s|
  {
    if IsBlank(s[|s|-1]) { TrimKeeps(s[..|s|-1], i); }
  }

  lemma {:induction false} NormalThen(a: string, b: string)
    requires b != "" && b[0] != '\n'
    ensures Normal(a + b) == Normal(a) + Normal(b)
    decreases |a|
  {
    var t := a + b;
    if a == "" {
      assert t == b;
    } else {
      assert t[0] == a[0] && t[1..] == a[1..] + b;
      assert |a| > 1 ==> t[1] == a[1] && t[2..] == a[2..] + b;
      if |a| > 1 && a[0] == '\r' && a[1] == '\n' { NormalThen(a[2..], b); } else { NormalThen(a[1..], b); }
    }
  }

  lemma {:induction false} NormalAfterPlain(a: string, b: string)
    requires '\r' !in a
    ensures Normal(a + b) == a + Normal(b)
    decreases |a|
  {
    if a == "" {
      assert a + b == b;
    } else {
      assert (a + b)[0] == a[0] && (a + b)[1..] == a[1..] + b;
      NormalAfterPlain(a[1..], b);
    }
  }

  lemma LineIsInert(nonce: string, ds: string, nl: string)
    requires IsLine(nonce, ds, nl)
    ensures Inert(FullLine(nonce, ds, nl)) && '\r' !in Line(nonce, ds) && |Line(nonce, ds)| > 1
    ensures FullLine(nonce, ds, nl) == Line(nonce, ds) + nl
    ensures Line(nonce, ds)[1] == '_'
  {
  }

  lemma NormalLine(nonce: string, ds: string, nl: string)
    requires IsLine(nonce, ds, nl)
    ensures IsLine(nonce, ds, Normal(nl))
    ensures Normal(FullLine(nonce, ds, nl)) == FullLine(nonce, ds, Normal(nl))
    ensures Normal(FullLine(nonce, ds, nl)[1..]) == FullLine(nonce, ds, Normal(nl))[1..]
  {
    hide Line, FullLine;
    var line := Line(nonce, ds);
    LineIsInert(nonce, ds, nl);
    NormalEnd(nl);
    LineIsInert(nonce, ds, Normal(nl));
    NormalAfterPlain(line, nl);
    NormalAfterPlain(line[1..], nl);
    assert (line + nl)[1..] == line[1..] + nl && (line + Normal(nl))[1..] == line[1..] + Normal(nl);
  }

  lemma NormalEnd(nl: string)
    requires LineEnd(nl)
    ensures LineEnd(Normal(nl))
  {
    if nl == "\r\n" {
      assert nl[2..] == "" && Normal(nl) == "\n";
    } else if nl != "" {
      assert nl[1..] == "" && Normal(nl) == nl;
    }
  }

  lemma NormalOfWindow(o: string, nonce: string, ds: string, nl: string)
    requires IsLine(nonce, ds, nl)
    ensures var n, l := Normal(Strip(o)), FullLine(nonce, ds, Normal(nl));
            Normal(Strip(o + FullLine(nonce, ds, nl))) ==
            match EndOf(o)
            case Outside => n + l
            case InCsi => n + l[1..]
            case InOsc => n
  {
    hide Line, FullLine, Strip, EndOf, Normal;
    var l := FullLine(nonce, ds, nl);
    LineIsInert(nonce, ds, nl);
    StripThenLine(o, l);
    NormalLine(nonce, ds, nl);
    NormalThen(Strip(o), l);
    assert l[1..][0] == l[1] == Line(nonce, ds)[1];
    NormalThen(Strip(o), l[1..]);
  }

  lemma CutAtLine(n: string, nonce: string, ds: string, nl: string)
    requires IsLine(nonce, ds, nl)
    ensures Cut(n + FullLine(nonce, ds, nl), nonce) == n
  {
    hide Status, Line, FullLine, Marker;
    var t := n + FullLine(nonce, ds, nl);
    assert t[..|t|] == t && t[..|n|] == n;
    FullIsLong(n, nonce, ds, nl);
    LineLength(nonce, ds);
    WindowStatus(n, nonce, ds, nl, |t|);
    LastMarker(n, nonce, ds, nl, |t|);
  }

  // With its first byte gone, the line is not recognised, and what is cut off or left in shows.
  lemma BrokenLineShows(n: string, nonce: string, ds: string, nl: string)
    requires IsLine(nonce, ds, nl)
    ensures TrimRight(Cut(n + FullLine(nonce, ds, nl)[1..], nonce)) != TrimRight(n)
  {
    hide Status, Line, FullLine, Marker, OccursAt, TrimRight;
    LineShape(nonce, ds, nl);
    var l, m := FullLine(nonce, ds, nl), |Marker(nonce)|;
    var x := n + l[1..];
    var r := ResultAt(x, nonce);
    assert forall i :: 0 < i < |l| ==> x[|n|+i-1] == l[1..][i-1] == l[i];
    if r >= 0 {
      StatusHasMarker(x, Marker(nonce));
      DoubleAtMarker(x, nonce, r);
      if r >= |n| {
        LineDoubles(nonce, ds, nl, r - |n| + 1);
        assert false;
      }
      assert x[r] == n[r];
      TrimKeeps(n, r);
      assert |TrimRight(x[..r])| <= r;
    } else {
      var last := |n| + m + |ds|;
      assert x[|n|+(m+|ds|)] == l[m+|ds|+1] == '_';
      TrimKeeps(x, last);
      assert |TrimRight(n)| <= |n|;
    }
  }

  lemma StatusHasMarker(s: string, marker: string)
    requires Status(s, marker).Some?
    ensures OccursAt(s, marker, LastIndex(s, marker))
  {
  }

  lemma DoubleAtMarker(s: string, nonce: string, r: int)
    requires OccursAt(s, Marker(nonce), r)
    ensures Double(s, r) && r + 18 + |nonce| <= |s|
  {
    var m := Marker(nonce);
    assert m[0] == '_' && m[1] == '_';
    assert s[r..r+|m|][0] == s[r] && s[r..r+|m|][1] == s[r+1];
  }

  /** The trimmed capture is the output, stripped, normalised and right-trimmed, exactly unless the
      output ends inside a control sequence: that swallows the first byte of the result line. An
      unfinished operating-system command swallows the whole line, which does no harm. */
  lemma TrimExactly(o: string, nonce: string, ds: string, nl: string)
    requires IsLine(nonce, ds, nl) && MarkerFree(Normal(Strip(o)), nonce)
    ensures Trim(o + FullLine(nonce, ds, nl), nonce) == TrimRight(Normal(Strip(o))) <==> EndOf(o) != InCsi
  {
    hide Strip, Normal, EndOf, FullLine, Cut, TrimRight, MarkerFree;
    var n := Normal(Strip(o));
    NormalLine(nonce, ds, nl);
    NormalOfWindow(o, nonce, ds, nl);
    match EndOf(o)
    case Outside => CutAtLine(n, nonce, ds, Normal(nl));
    case InCsi => BrokenLineShows(n, nonce, ds, Normal(nl));
    case InOsc => CutNothing(n, nonce);
  }

  lemma CutNothing(n: string, nonce: string)
    requires MarkerFree(n, nonce)
    ensures Cut(n, nonce) == n
  {
    hide Marker, OccursAt;
    if LastIndex(n, Marker(nonce)) == -1 {
      NoMarkerNoStatus(n, Marker(nonce));
    } else {
      InRange(n, Marker(nonce), LastIndex(n, Marker(nonce)));
    }
  }

  // Output whose escapes are all complete is the usual case.
  lemma {:induction false} CompleteEndsOutside(s: string)
    requires Complete(s)
    ensures EndOf(s) == Outside
    decreases |s|
  {
    if s != "" {
      if s[0] != ESC {
        CompleteEndsOutside(s[1..]);
      } else {
        if |s| > 1 && s[1] == ']' { OscDoneStops(s[2..], true); }
        CompleteEndsOutside(s[EscLen(s)..]);
      }
    }
  }

  lemma {:induction false} OscDoneStops(s: string, first: bool)
    requires OscDone(s, first)
    ensures !OscRuns(s, first)
  {
    if s[0] != BEL && !(s[0] == BACKSLASH && !first) && s[0] != ESC { OscDoneStops(s[1..], false); }
  }

  // A window that reaches to the end of the result line holds some of the line end.
  lemma WindowHasLine(o: string, nonce: string, ds: string, nl: string, c: string) returns (rest: string)
    requires LineEnd(nl) && c <= o + FullLine(nonce, ds, nl) && |c| >= |o| + |Line(nonce, ds)|
    ensures LineEnd(rest) && c == o + FullLine(nonce, ds, rest)
  {
    hide Line;
    var k := |c| - |o| - |Line(nonce, ds)|;
    rest := nl[..k];
    assert c == (o + (Line(nonce, ds) + nl))[..|c|] == o + (Line(nonce, ds) + rest);
  }

  /** One command, end to end: output o without the marker, then the line the probe prints, in any
      chunks. The window returns the exit code, and trimming what was captured gives the output,
      stripped, normalised and right-trimmed, exactly unless o ends inside a control sequence. */
  lemma CommandRoundTrip(es: seq<Event>, n: nat, o: string, nonce: string, code: nat, nl: string,
                         used: nat, w: Window)
    requires IsNonce(nonce) && code < TWO63 && LineEnd(nl)
    requires MarkerFree(o, nonce) && MarkerFree(Normal(Strip(o)), nonce)
    requires n <= |es| && (forall k :: 0 <= k < n ==> es[k].Data?)
    requires Captured(es, n) == o + FullLine(nonce, Digits(code), nl)
    requires WindowIs(es, Marker(nonce), used, w)
    ensures w == Done(code)
    ensures Trim(Captured(es, used), nonce) == TrimRight(Normal(Strip(o))) <==> EndOf(o) != InCsi
  {
    hide Trim, Strip, Normal, EndOf, FullLine, Line, Digits, MarkerFree, Marker, WindowIs, Captured, TrimRight;
    AnyChunkingReturnsTheCode(es, n, o, nonce, code, nl, used, w);
    CapturedPrefix(es, used, n);
    var rest := WindowHasLine(o, nonce, Digits(code), nl, Captured(es, used));
    TrimExactly(o, nonce, Digits(code), rest);
  }
}
