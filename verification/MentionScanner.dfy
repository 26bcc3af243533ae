/** Finding the @-mentions of a prompt. */
module MentionScanner {
  import opened Runs

  datatype Mention = Mention(token: string, path: string)

  // What one scan took off the front of a text.
  datatype Scanned = Scanned(mention: Mention, len: nat)

  // One mention and the stretch of text the scan spent on it.
  datatype Found = Found(start: nat, next: nat, mention: Mention)

  predicate IsSpace(c: char) { c == ' ' || '\t' <= c <= '\r' }
  predicate IsQuote(c: char) { c == '"' || c == '\'' }
  predicate IsPunct(c: char) { c == '.' || c == ',' || c == ':' }

  // How much of s stands before the first q, all of it if there is none.
  function Closing(s: string, q: char): (n: nat)
    ensures n <= |s|
  {
    if s == "" || s[0] == q then 0 else 1 + Closing(s[1..], q)
  }

  // How much of s stands before the first whitespace.
  function WordLen(s: string): (n: nat)
    ensures n <= |s| && (n < |s| ==> IsSpace(s[n])) && (s != "" && !IsSpace(s[0]) ==> n > 0)
  {
    if s == "" || IsSpace(s[0]) then 0 else 1 + WordLen(s[1..])
  }

  function TrimPunct(s: string): (r: string)
    ensures |r| <= |s| && r == s[..|r|]
  {
    if s != "" && IsPunct(s[|s|-1]) then TrimPunct(s[..|s|-1]) else s
  }

  // The mention whose token is taken and then the trimmed word at the front of s.
  function WithTail(taken: string, head: string, s: string): (f: Option<Scanned>)
    ensures f.Some? ==> f.value.len == |taken| + WordLen(s)
  {
    var n := WordLen(s);
    var tail := TrimPunct(s[..n]);
    if head + tail == "" then None else Some(Scanned(Mention(taken + tail, head + tail), |taken| + n))
  }

  // The mention that begins with the @ at the front of s, if there is one.
  function Scan(s: string): (f: Option<Scanned>)
    requires s != ""
    ensures f.Some? ==> 0 < f.value.len <= |s| && (f.value.len < |s| ==> IsSpace(s[f.value.len]))
  {
    var r := s[1..];
    if r != "" && IsQuote(r[0]) then
      var n := Closing(r[1..], r[0]);
      if n == |r| - 1 then None else WithTail(s[..n+3], r[1..n+1], r[n+2..])
    else WithTail(s[..1], "", r)
  }

  // The mentions of s, which begins at offset off of its text.
  function Find(s: string, off: nat): seq<Found>
    decreases |s|
  {
    if s == "" then []
    else if IsSpace(s[0]) then Find(s[1..], off + 1)
    else if s[0] == '@' && Scan(s).Some? then
      var f := Scan(s).value;
      [Found(off, off + f.len, f.mention)] + Find(s[f.len..], off + f.len)
    else Find(s[WordLen(s)..], off + WordLen(s))
  }

  function Mentions(fs: seq<Found>): seq<Mention> {
    if fs == [] then [] else [fs[0].mention] + Mentions(fs[1..])
  }

  // The scanner.

  lemma Rest(text: string, i: nat, n: nat)
    requires i + n <= |text|
    ensures text[i..][n..] == text[i+n..] && text[i..][..n] == text[i..i+n]
  {
  }

  lemma ClosingStep(text: string, i: nat, q: char)
    requires i <= |text|
    ensures i < |text| && text[i] != q ==> Closing(text[i..], q) == 1 + Closing(text[i+1..], q)
    ensures i == |text| || text[i] == q ==> Closing(text[i..], q) == 0
  {
    if i < |text| { Rest(text, i, 1); }
  }

  lemma WordLenStep(text: string, i: nat)
    requires i <= |text|
    ensures i < |text| && !IsSpace(text[i]) ==> WordLen(text[i..]) == 1 + WordLen(text[i+1..])
    ensures i == |text| || IsSpace(text[i]) ==> WordLen(text[i..]) == 0
  {
    if i < |text| { Rest(text, i, 1); }
  }

  // On to the next whitespace.
  method SkipWord(text: string, from: nat) returns (i: nat)
    requires from <= |text|
    ensures from <= i <= |text| && i == from + WordLen(text[from..])
  {
    hide WordLen;
    i := from;
    while i < |text| && !IsSpace(text[i])
      invariant from <= i <= |text|
      invariant WordLen(text[from..]) == i - from + WordLen(text[i..])
    {
      WordLenStep(text, i);
      i := i + 1;
    }
    WordLenStep(text, i);
  }

  // On to the closing quote.
  method SkipQuoted(text: string, from: nat, q: char) returns (i: nat)
    requires from <= |text|
    ensures from <= i <= |text| && i == from + Closing(text[from..], q)
  {
    hide Closing;
    i := from;
    while i < |text| && text[i] != q
      invariant from <= i <= |text|
      invariant Closing(text[from..], q) == i - from + Closing(text[i..], q)
    {
      ClosingStep(text, i, q);
      i := i + 1;
    }
    ClosingStep(text, i, q);
  }

  lemma ScanWithQuote(text: string, start: nat, i: nat)
    requires start + 1 < |text| && IsQuote(text[start+1])
    requires i == start + 2 + Closing(text[start+2..], text[start+1]) <= |text|
    ensures Scan(text[start..]) ==
            if i == |text| then None else WithTail(text[start..i+1], text[start+2..i], text[i+1..])
  {
    hide WithTail, Closing;
    var s := text[start..];
    var r := s[1..];
    assert r == text[start+1..] && r[1..] == text[start+2..];
    if i < |text| {
      var n := i - start - 2;
      assert s[..n+3] == text[start..i+1] && r[1..n+1] == text[start+2..i] && r[n+2..] == text[i+1..];
    }
  }

  lemma ScanWithoutQuote(text: string, start: nat)
    requires start < |text| && (start + 1 < |text| ==> !IsQuote(text[start+1]))
    ensures Scan(text[start..]) == WithTail(text[start..start+1], "", text[start+1..])
  {
    hide WithTail, Closing;
    Rest(text, start, 1);
  }

  method ScanMention(text: string, start: nat) returns (m: Mention, next: nat, ok: bool)
    requires start < |text| && text[start] == '@'
    ensures var f := Scan(text[start..]);
            (ok <==> f.Some?) && (ok ==> m == f.value.mention && next == start + f.value.len)
  {
    hide Scan, WithTail, Closing;
    var i, head := start + 1, "";
    if i < |text| && IsQuote(text[i]) {
      var segStart := i + 1;
      i := SkipQuoted(text, segStart, text[i]);
      ScanWithQuote(text, start, i);
      if i >= |text| {
        return Mention("", ""), 0, false;
      }
      head := text[segStart..i];
      i := i + 1;
    } else {
      ScanWithoutQuote(text, start);
    }
    m, next, ok := ScanTail(text, start, i, head);
  }

  // The second half of the scan: the tail after the quoted part.
  method ScanTail(text: string, start: nat, tailStart: nat, head: string) returns (m: Mention, next: nat, ok: bool)
    requires start < tailStart <= |text|
    ensures var f := WithTail(text[start..tailStart], head, text[tailStart..]);
            (ok <==> f.Some?) && (ok ==> m == f.value.mention && next == start + f.value.len)
  {
    hide WordLen, TrimPunct;
    var i := SkipWord(text, tailStart);
    Rest(text, tailStart, i - tailStart);
    var tail := TrimPunct(text[tailStart..i]);
    var path := head + tail;
    if |path| == 0 {
      return Mention("", ""), 0, false;
    }
    var tokenEnd := i - (|text[tailStart..i]| - |tail|);
    TrimmedSlice(text, start, tailStart, i);
    return Mention(text[start..tokenEnd], path), i, true;
  }

  lemma TrimmedSlice(text: string, start: nat, tailStart: nat, i: nat)
    requires start <= tailStart <= i <= |text|
    ensures var tail := TrimPunct(text[tailStart..i]);
            text[start..tailStart+|tail|] == text[start..tailStart] + tail
  {
  }

  lemma FindEnd(text: string)
    ensures Find(text[|text|..], |text|) == []
  {
  }

  // The three ways on from position i.
  lemma FindFrom(text: string, i: nat)
    requires i < |text|
    ensures IsSpace(text[i]) ==> Find(text[i..], i) == Find(text[i+1..], i + 1)
    ensures !IsSpace(text[i]) && text[i] == '@' && Scan(text[i..]).Some? ==>
              var f := Scan(text[i..]).value;
              var next := i + f.len;
              && i < next <= |text| && (next < |text| ==> IsSpace(text[next]))
              && Find(text[i..], i) == [Found(i, next, f.mention)] + Find(text[next..], next)
    ensures !IsSpace(text[i]) && !(text[i] == '@' && Scan(text[i..]).Some?) ==>
              var next := i + WordLen(text[i..]);
              && i < next <= |text| && (next < |text| ==> IsSpace(text[next]))
              && Find(text[i..], i) == Find(text[next..], next)
  {
    var s := text[i..];
    Rest(text, i, 1);
    if !IsSpace(text[i]) {
      if text[i] == '@' && Scan(s).Some? {
        Rest(text, i, Scan(s).value.len);
      } else {
        Rest(text, i, WordLen(s));
      }
    }
  }

  method ParseMentions(text: string) returns (out: seq<Mention>)
    ensures out == Mentions(Find(text, 0))
  {
    hide Find, Scan, WordLen;
    out := [];
    var i := 0;
    assert text[0..] == text;
    while i < |text|
      invariant i <= |text|
      invariant out + Mentions(Find(text[i..], i)) == Mentions(Find(text, 0))
      decreases |text| - i
    {
      FindFrom(text, i);
      if IsSpace(text[i]) {
        i := i + 1;
        continue;
      }
      if text[i] == '@' {
        var m, next, ok := ScanMention(text, i);
        if ok {
          out := out + [m];
          i := next;
          continue;
        }
      }
      i := SkipWord(text, i);
    }
    FindEnd(text);
    assert out + [] == out;
  }

  // Where mentions are.

  predicate WordStart(text: string, p: int) {
    0 <= p < |text| && !IsSpace(text[p]) && (p == 0 || IsSpace(text[p-1]))
  }

  // Between words, or at the start of one.
  predicate Boundary(text: string, i: int) {
    0 <= i <= |text| && (i == 0 || i == |text| || IsSpace(text[i-1]) || IsSpace(text[i]))
  }

  predicate IsMentionAt(text: string, p: int) { WordStart(text, p) && text[p] == '@' && Scan(text[p..]).Some? }

  predicate Placed(text: string, f: Found) {
    f.start <= f.next && IsMentionAt(text, f.start) && Scan(text[f.start..]) == Some(Scanned(f.mention, f.next - f.start))
  }

  predicate WellPlaced(text: string, i: nat, fs: seq<Found>) {
    && (forall k :: 0 <= k < |fs| ==> i <= fs[k].start < fs[k].next <= |text| && Placed(text, fs[k]))
    && (forall j, k :: 0 <= j < k < |fs| ==> fs[j].next <= fs[k].start)
  }

  predicate Inside(f: Found, p: int) { f.start <= p < f.next }

  lemma WellPlacedMore(text: string, i: nat, f: Found, fs: seq<Found>)
    requires WellPlaced(text, f.next, fs) && i <= f.start < f.next <= |text| && Placed(text, f)
    ensures WellPlaced(text, i, [f] + fs)
  {
    hide Scan, IsMentionAt;
    var all := [f] + fs;
    assert forall k :: 0 < k < |all| ==> all[k] == fs[k-1];
  }

  lemma {:induction false} WordHasNoSpace(s: string)
    ensures forall k :: 0 <= k < WordLen(s) ==> !IsSpace(s[k])
  {
    if s != "" && !IsSpace(s[0]) {
      WordHasNoSpace(s[1..]);
      assert forall k :: 0 < k < |s| ==> s[k] == s[1..][k-1];
    }
  }

  lemma {:induction false} FindWellPlaced(text: string, i: nat)
    requires Boundary(text, i)
    ensures WellPlaced(text, i, Find(text[i..], i))
    decreases |text| - i
  {
    hide Scan, Find, WordLen;
    FindEnd(text);
    if i < |text| {
      FindFrom(text, i);
      if IsSpace(text[i]) {
        FindWellPlaced(text, i + 1);
      } else if text[i] == '@' && Scan(text[i..]).Some? {
        var f := Scan(text[i..]).value;
        FindWellPlaced(text, i + f.len);
        WellPlacedMore(text, i, Found(i, i + f.len, f.mention), Find(text[i+f.len..], i + f.len));
      } else {
        FindWellPlaced(text, i + WordLen(text[i..]));
      }
    }
  }

  predicate Covers(fs: seq<Found>, p: int) { exists k :: 0 <= k < |fs| && Inside(fs[k], p) }

  lemma CoversMore(f: Found, fs: seq<Found>, p: int)
    requires Inside(f, p) || Covers(fs, p)
    ensures Covers([f] + fs, p)
  {
    if Inside(f, p) {
      assert Inside(([f] + fs)[0], p);
    } else {
      var k :| 0 <= k < |fs| && Inside(fs[k], p);
      assert Inside(([f] + fs)[k+1], p);
    }
  }

  lemma {:induction false} FindMissesNone(text: string, i: nat, p: int)
    requires Boundary(text, i) && i <= p && IsMentionAt(text, p)
    ensures Covers(Find(text[i..], i), p)
    decreases |text| - i
  {
    hide Scan, Find, WordLen;
    FindFrom(text, i);
    if IsSpace(text[i]) {
      FindMissesNone(text, i + 1, p);
    } else if text[i] == '@' && Scan(text[i..]).Some? {
      var f := Scan(text[i..]).value;
      var next := i + f.len;
      if p >= next { FindMissesNone(text, next, p); }
      CoversMore(Found(i, next, f.mention), Find(text[next..], next), p);
    } else {
      WordHasNoSpace(text[i..]);
      var next := i + WordLen(text[i..]);
      assert forall k :: i <= k < next ==> text[k] == text[i..][k-i];
      FindMissesNone(text, next, p);
    }
  }

  lemma {:induction false} TokenIsPrefix(s: string)
    requires s != "" && Scan(s).Some?
    ensures Scan(s).value.mention.token <= s
  {
    var r := s[1..];
    if r != "" && IsQuote(r[0]) {
      var n := Closing(r[1..], r[0]);
      assert s[..n+3] + r[n+2..] == s;
    } else {
      assert s[..1] + r == s;
    }
  }

  /** The mentions found are in text order and disjoint, and each starts with an @ at the start
      of a word. */
  lemma MentionsInOrder(text: string)
    ensures WellPlaced(text, 0, Find(text, 0))
  {
    assert text[0..] == text;
    FindWellPlaced(text, 0);
  }

  /** Each token is a slice of the text, from where its mention starts. */
  lemma TokensAreSlices(text: string, f: Found)
    requires f in Find(text, 0)
    ensures f.start <= |text| && f.mention.token <= text[f.start..]
  {
    hide Scan, Find;
    MentionsInOrder(text);
    assert Placed(text, f);
    TokenIsPrefix(text[f.start..]);
  }

  /** Every position where a mention could start is one, or lies within one (in the quoted part
      of its path). */
  lemma NoMentionIsMissed(text: string, p: int)
    requires IsMentionAt(text, p)
    ensures Covers(Find(text, 0), p)
  {
    hide Scan, Find, Covers;
    assert text[0..] == text;
    FindMissesNone(text, 0, p);
  }

  // Printing mentions and reading them back.

  // A mention as one may write it: an optional quoted part, a tail, punctuation and whitespace after it.
  datatype Written = Written(quoted: Option<(char, string)>, tail: string, punct: string, after: string)

  // Tab, line feed, vertical tab, form feed, carriage return and space.
  predicate Blank(c: char) { c as int in {9, 10, 11, 12, 13, 32} }

  predicate NoSpace(s: string) { forall k :: 0 <= k < |s| ==> !Blank(s[k]) }
  predicate AllPunct(s: string) { forall k :: 0 <= k < |s| ==> s[k] in ".,:" }
  predicate AllSpace(s: string) { forall k :: 0 <= k < |s| ==> Blank(s[k]) }

  predicate TailOk(tail: string, punct: string) {
    NoSpace(tail) && (tail != "" ==> tail[|tail|-1] !in ".,:") && AllPunct(punct)
  }

  predicate Writable(w: Written) {
    && (match w.quoted
        case None => w.tail != "" && w.tail[0] !in "\"'"
        case Some(q) => q.0 in "\"'" && q.0 !in q.1)
    && TailOk(w.tail, w.punct) && AllSpace(w.after) && Path(w) != ""
  }

  function Head(w: Written): string { if w.quoted.None? then "" else w.quoted.value.1 }

  function Path(w: Written): string { Head(w) + w.tail }

  function Quoted(w: Written): string {
    match w.quoted
    case None => ""
    case Some(q) => [q.0] + (q.1 + [q.0])
  }

  function Token(w: Written): string { "@" + Quoted(w) + w.tail }

  function Print(ws: seq<Written>): string {
    if ws == [] then "" else Token(ws[0]) + (ws[0].punct + (ws[0].after + Print(ws[1..])))
  }

  // Every mention but the last has whitespace after it.
  predicate Printable(ws: seq<Written>) {
    ws != [] ==> Writable(ws[0]) && (|ws| > 1 ==> ws[0].after != "") && Printable(ws[1..])
  }

  function Meant(ws: seq<Written>): seq<Mention> {
    if ws == [] then [] else [Mention(Token(ws[0]), Path(ws[0]))] + Meant(ws[1..])
  }

  predicate SpaceOrEnd(s: string) { s == "" || IsSpace(s[0]) }

  lemma {:induction false} ClosingAt(w: string, q: char, rest: string)
    requires q !in w
    ensures Closing(w + ([q] + rest), q) == |w|
  {
    var s := w + ([q] + rest);
    if w == "" {
      assert s[0] == q;
    } else {
      assert s[0] == w[0] && s[1..] == w[1..] + ([q] + rest);
      ClosingAt(w[1..], q, rest);
    }
  }

  lemma {:induction false} WordLenAt(w: string, rest: string)
    requires NoSpace(w) && SpaceOrEnd(rest)
    ensures WordLen(w + rest) == |w|
  {
    if w == "" {
      assert w + rest == rest;
    } else {
      assert (w + rest)[0] == w[0] && (w + rest)[1..] == w[1..] + rest;
      WordLenAt(w[1..], rest);
    }
  }

  lemma {:induction false} TrimPunctOff(tail: string, punct: string)
    requires AllPunct(punct) && (tail != "" ==> !IsPunct(tail[|tail|-1]))
    ensures TrimPunct(tail + punct) == tail
    decreases |punct|
  {
    if punct == "" {
      assert tail + punct == tail;
    } else {
      var p := punct[..|punct|-1];
      assert (tail + punct)[..|tail + punct|-1] == tail + p;
      TrimPunctOff(tail, p);
    }
  }

  lemma WithTailAt(taken: string, head: string, tail: string, punct: string, rest: string)
    requires TailOk(tail, punct) && head + tail != "" && SpaceOrEnd(rest)
    ensures WithTail(taken, head, tail + (punct + rest)) ==
            Some(Scanned(Mention(taken + tail, head + tail), |taken| + |tail| + |punct|))
  {
    var s, w := tail + (punct + rest), tail + punct;
    assert s == w + rest && NoSpace(w);
    WordLenAt(w, rest);
    assert s[..|w|] == w;
    TrimPunctOff(tail, punct);
  }

  lemma ScanPlain(s: string)
    requires s != "" && !IsQuote(s[0])
    ensures Scan("@" + "" + s) == WithTail("@" + "", "", s)
  {
    var t := "@" + "" + s;
    assert t[1..] == s && t[..1] == "@" + "";
  }

  lemma ScanQuoted(q: char, inner: string, s: string)
    requires IsQuote(q) && q !in inner
    ensures Scan("@" + ([q] + (inner + [q])) + s) == WithTail("@" + ([q] + (inner + [q])), inner, s)
  {
    var taken := "@" + ([q] + (inner + [q]));
    var t, r, n := taken + s, [q] + (inner + ([q] + s)), |inner|;
    assert t == "@" + r && t[1..] == r && r[0] == q && r[1..] == inner + ([q] + s);
    ClosingAt(inner, q, s);
    assert t[..n+3] == taken && r[1..n+1] == inner && r[n+2..] == s;
  }

  lemma ScanAt(w: Written, rest: string)
    requires Writable(w) && SpaceOrEnd(rest)
    ensures Token(w) != "" && Token(w)[0] == '@'
    ensures Scan(Token(w) + (w.punct + rest)) == Some(Scanned(Mention(Token(w), Path(w)), |Token(w)| + |w.punct|))
  {
    hide Scan, WithTail, TailOk, AllSpace;
    var taken, s := "@" + Quoted(w), w.tail + (w.punct + rest);
    assert Token(w) + (w.punct + rest) == taken + s;
    match w.quoted {
      case None => ScanPlain(s);
      case Some(q) => ScanQuoted(q.0, q.1, s);
    }
    WithTailAt(taken, Head(w), w.tail, w.punct, rest);
  }

  lemma ReadOne(w: Written, rest: string, off: nat)
    requires Writable(w) && SpaceOrEnd(rest)
    ensures var n := |Token(w)| + |w.punct|;
            Mentions(Find(Token(w) + (w.punct + rest), off)) ==
              [Mention(Token(w), Path(w))] + Mentions(Find(rest, off + n))
  {
    hide Scan, Token, Path, Writable;
    var s, n, m := Token(w) + (w.punct + rest), |Token(w)| + |w.punct|, Mention(Token(w), Path(w));
    ScanAt(w, rest);
    assert s[n..] == rest && s[0] == '@';
    assert Find(s, off) == [Found(off, off + n, m)] + Find(rest, off + n);
  }

  lemma {:induction false} SkipSpaces(sep: string, rest: string, off: nat)
    requires AllSpace(sep)
    ensures Find(sep + rest, off) == Find(rest, off + |sep|)
    decreases |sep|
  {
    if sep == "" {
      assert sep + rest == rest;
    } else {
      assert (sep + rest)[0] == sep[0] && (sep + rest)[1..] == sep[1..] + rest;
      SkipSpaces(sep[1..], rest, off + 1);
    }
  }

  lemma FindNone(off: nat)
    ensures Find("", off) == []
  {
  }

  lemma {:induction false} ReadBack(ws: seq<Written>, off: nat)
    requires Printable(ws)
    ensures Mentions(Find(Print(ws), off)) == Meant(ws)
    decreases |ws|
  {
    hide Find, Token, Path, TailOk;
    if ws == [] {
      FindNone(off);
    } else {
      var w, more := ws[0], Print(ws[1..]);
      assert w.after == "" ==> |ws| == 1 && w.after + more == "";
      ReadOne(w, w.after + more, off);
      SkipSpaces(w.after, more, off + |Token(w)| + |w.punct|);
      ReadBack(ws[1..], off + |Token(w)| + |w.punct| + |w.after|);
    }
  }

  /** Printing any mentions, quoted or not, each with a path tail, punctuation and whitespace
      after it, and scanning the text gives exactly those mentions. */
  lemma RoundTrip(lead: string, ws: seq<Written>)
    requires AllSpace(lead) && Printable(ws)
    ensures Mentions(Find(lead + Print(ws), 0)) == Meant(ws)
  {
    hide Find, Print, Printable, Meant;
    SkipSpaces(lead, Print(ws), 0);
    ReadBack(ws, |lead|);
  }
}
