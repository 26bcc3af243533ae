/** UTF-8 (RFC 3629, section 4) and the decoding of the last character of a byte string. */
module Utf8 {
  type Byte = x: int | 0 <= x < 256
  type Bytes = seq<Byte>

  // The longest encoding of one character.
  const UTF_MAX := 4

  predicate Continuation(b: Byte) { 0x80 <= b <= 0xBF }

  // How long an encoding that starts with b is; 0 if none does.
  function LeadLen(b: Byte): (n: nat)
    ensures n <= UTF_MAX && (n > 0 ==> !Continuation(b))
  {
    if b <= 0x7F then 1
    else if 0xC2 <= b <= 0xDF then 2
    else if 0xE0 <= b <= 0xEF then 3
    else if 0xF0 <= b <= 0xF4 then 4
    else 0
  }

  // The second byte some lead bytes allow is narrower: no overlong forms, no surrogates, nothing
  // past the last code point.
  predicate SecondOk(lead: Byte, b: Byte) {
    Continuation(b) && (lead == 0xE0 ==> b >= 0xA0) && (lead == 0xED ==> b <= 0x9F)
    && (lead == 0xF0 ==> b >= 0x90) && (lead == 0xF4 ==> b <= 0x8F)
  }

  // The length of the encoding at the front of s; 0 if there is none.
  function RuneLen(s: Bytes): (n: nat)
    ensures n <= |s| && n <= UTF_MAX
    ensures n > 0 ==> n == LeadLen(s[0])
  {
    if s == [] then 0
    else
      var n := LeadLen(s[0]);
      if n == 0 || |s| < n then 0
      else if n > 1 && !SecondOk(s[0], s[1]) then 0
      else if (n > 2 && !Continuation(s[2])) || (n > 3 && !Continuation(s[3])) then 0
      else n
  }

  predicate Valid(s: Bytes) { s == [] || (RuneLen(s) > 0 && Valid(s[RuneLen(s)..])) }

  // The last n bytes are one character.
  predicate RuneAtEnd(s: Bytes, n: int) { 0 < n <= |s| && RuneLen(s[|s|-n..]) == n }

  predicate EndsInRune(s: Bytes) { exists n :: 0 < n <= UTF_MAX && RuneAtEnd(s, n) }

  lemma RuneBytes(s: Bytes)
    requires RuneLen(s) > 0
    ensures !Continuation(s[0]) && forall i :: 0 < i < RuneLen(s) ==> Continuation(s[i])
  {
  }

  lemma LastByteDecides(s: Bytes, n: int)
    requires RuneAtEnd(s, n)
    ensures n <= UTF_MAX && !Continuation(s[|s|-n]) && forall k :: |s| - n < k < |s| ==> Continuation(s[k])
    ensures n == 1 <==> s[|s|-1] < 0x80
  {
    var r := s[|s|-n..];
    RuneBytes(r);
    assert r[0] == s[|s|-n];
    forall k | |s| - n < k < |s| ensures Continuation(s[k]) { assert s[k] == r[k-(|s|-n)]; }
    if n > 1 { assert Continuation(s[|s|-1]); }
  }

  lemma Ascii(s: Bytes)
    requires s != [] && s[|s|-1] < 0x80
    ensures RuneAtEnd(s, 1)
  {
    assert s[|s|-1..] == [s[|s|-1]];
  }

  // Decoding forwards from where the walk stopped finds the character that ends s.
  lemma WalkFinds(s: Bytes, stop: int, start: nat)
    requires s != [] && s[|s|-1] >= 0x80 && |s| - UTF_MAX - 1 <= stop <= |s| - 2
    requires forall k :: stop < k <= |s| - 2 && k >= 0 ==> Continuation(s[k])
    requires stop >= 0 && stop >= |s| - UTF_MAX ==> !Continuation(s[stop])
    requires start == if stop < 0 then 0 else stop
    ensures EndsInRune(s) <==> RuneAtEnd(s, |s| - start)
  {
    hide RuneLen;
    forall n | 0 < n <= UTF_MAX && RuneAtEnd(s, n) ensures n == |s| - start {
      LastByteDecides(s, n);
    }
    if RuneAtEnd(s, |s| - start) { LastByteDecides(s, |s| - start); }
  }

  /** The library's backwards decoder: the size of the character that ends s, if one does. It
      walks back to the nearest byte that is no continuation byte, at most four bytes in all, and
      decodes forwards from there. */
  method DecodeLastRune(s: Bytes) returns (size: nat, ok: bool)
    requires s != []
    ensures ok ==> RuneAtEnd(s, size)
    ensures ok <==> EndsInRune(s)
  {
    hide RuneLen;
    var end := |s|;
    if s[end-1] < 0x80 {
      Ascii(s);
      return 1, true;
    }
    var lim := if end < UTF_MAX then 0 else end - UTF_MAX;
    var start := end - 2;
    while start >= lim && Continuation(s[start])
      invariant lim - 1 <= start <= end - 2
      invariant forall k :: start < k <= end - 2 ==> Continuation(s[k])
    {
      start := start - 1;
    }
    ghost var stop := start;
    if start < 0 {
      start := 0;
    }
    WalkFinds(s, stop, start);
    size := RuneLen(s[start..]);
    ok := size > 0 && start + size == end;
  }

  // The greatest offset up to c at which a character of v begins or v ends.
  function Boundary(v: Bytes, c: nat): (b: nat)
    requires Valid(v) && c <= |v|
    ensures b <= c
  {
    if v == [] || RuneLen(v) > c then 0 else RuneLen(v) + Boundary(v[RuneLen(v)..], c - RuneLen(v))
  }

  lemma {:induction false} BoundaryIsValid(v: Bytes, c: nat)
    requires Valid(v) && c <= |v|
    ensures Valid(v[..Boundary(v, c)]) && c - Boundary(v, c) < UTF_MAX
  {
    var n := RuneLen(v);
    if v != [] && n <= c {
      BoundaryIsValid(v[n..], c - n);
      var b := Boundary(v, c);
      assert v[..b][n..] == v[n..][..b-n];
      SameRune(v, v[..b]);
    }
  }

  // A character is decided by its own bytes.
  lemma SameRune(s: Bytes, t: Bytes)
    requires RuneLen(s) > 0 && |t| >= RuneLen(s) && forall i :: 0 <= i < RuneLen(s) ==> t[i] == s[i]
    ensures RuneLen(t) == RuneLen(s)
  {
  }

  // Within a character no other one ends.
  lemma MiddleEndsInNoRune(v: Bytes, j: nat)
    requires 0 < j < RuneLen(v)
    ensures !EndsInRune(v[..j])
  {
    var s := v[..j];
    RuneBytes(v);
    assert s[0..] == s;
    if n :| 0 < n <= UTF_MAX && RuneAtEnd(s, n) { LastByteDecides(s, n); }
  }

  lemma SameEnd(v: Bytes, n: nat, j: nat, m: nat)
    requires m + n <= j <= |v|
    ensures v[n..][..j-n][j-n-m..] == v[..j][j-m..]
  {
  }

  // Behind a character, whether the next ones are complete does not depend on it.
  lemma EndsBehind(v: Bytes, n: nat, j: nat)
    requires RuneLen(v) == n > 0 && n < j <= |v| && RuneLen(v[n..]) > 0
    ensures EndsInRune(v[n..][..j-n]) <==> EndsInRune(v[..j])
  {
    hide RuneLen;
    var s, t := v[..j], v[n..][..j-n];
    if m :| 0 < m <= UTF_MAX && RuneAtEnd(t, m) {
      SameEnd(v, n, j, m);
      assert RuneAtEnd(s, m);
    }
    if m :| 0 < m <= UTF_MAX && RuneAtEnd(s, m) {
      LastByteDecides(s, m);
      assert s[n] == v[n..][0];
      assert m <= |t|;
      SameEnd(v, n, j, m);
      assert RuneAtEnd(t, m);
    }
  }

  lemma FirstEnds(v: Bytes)
    requires RuneLen(v) > 0
    ensures EndsInRune(v[..RuneLen(v)])
  {
    var n := RuneLen(v);
    SameRune(v, v[..n]);
    assert v[..n][n-n..] == v[..n];
    assert RuneAtEnd(v[..n], n);
  }

  /** Between the boundary and c no prefix of valid text ends in a character; at it, one does. */
  lemma {:induction false} BoundaryEnds(v: Bytes, c: nat, j: nat)
    requires Valid(v) && c <= |v| && Boundary(v, c) <= j <= c && j > 0
    ensures EndsInRune(v[..j]) <==> j == Boundary(v, c)
  {
    hide RuneLen, EndsInRune;
    var n := RuneLen(v);
    if n > c {
      MiddleEndsInNoRune(v, j);
    } else if j == n {
      FirstEnds(v);
      BoundaryMoves(v, c);
    } else {
      BoundaryEnds(v[n..], c - n, j - n);
      EndsBehind(v, n, j);
    }
  }

  lemma BoundaryMoves(v: Bytes, c: nat)
    requires Valid(v) && v != [] && RuneLen(v) <= c <= |v|
    ensures Boundary(v, c) >= RuneLen(v)
  {
  }

  // Valid text ends in a character.
  lemma ValidEnds(v: Bytes)
    requires Valid(v) && v != []
    ensures EndsInRune(v)
  {
    assert v[..|v|] == v;
    BoundaryAll(v);
    BoundaryEnds(v, |v|, |v|);
  }

  lemma {:induction false} BoundaryAll(v: Bytes)
    requires Valid(v)
    ensures Boundary(v, |v|) == |v|
  {
    if v != [] { BoundaryAll(v[RuneLen(v)..]); }
  }

  /** The boundary is the longest valid prefix of at most c bytes. */
  lemma BoundaryIsLongest(v: Bytes, c: nat, k: nat)
    requires Valid(v) && k <= c <= |v| && Valid(v[..k])
    ensures k <= Boundary(v, c)
  {
    if k > Boundary(v, c) {
      ValidEnds(v[..k]);
      BoundaryEnds(v, c, k);
    }
  }

  // The encoding itself, from code points.

  predicate Scalar(cp: int) { 0 <= cp < 0xD800 || 0xE000 <= cp < 0x110000 }

  function Encode(cp: int): (s: Bytes)
    requires Scalar(cp)
    ensures 1 <= |s| <= 4
  {
    if cp < 0x80 then [cp]
    else if cp < 0x800 then [0xC0 + cp / 64, 0x80 + cp % 64]
    else if cp < 0x1_0000 then [0xE0 + cp / 64 / 64, 0x80 + cp / 64 % 64, 0x80 + cp % 64]
    else [0xF0 + cp / 64 / 64 / 64, 0x80 + cp / 64 / 64 % 64, 0x80 + cp / 64 % 64, 0x80 + cp % 64]
  }

  lemma EncodeIsRune(cp: int, rest: Bytes)
    requires Scalar(cp)
    ensures RuneLen(Encode(cp) + rest) == |Encode(cp)|
  {
    var e := Encode(cp);
    var s := e + rest;
    assert forall i :: 0 <= i < |e| ==> s[i] == e[i];
  }

  lemma SixBits(hi: int, lo: int)
    requires 0 <= lo < 64
    ensures (hi * 64 + lo) / 64 == hi && (hi * 64 + lo) % 64 == lo
  {
  }

  lemma TwoBytes(a: int, b: int) returns (cp: int)
    requires 0xC2 <= a <= 0xDF && 0x80 <= b <= 0xBF
    ensures Scalar(cp) && Encode(cp) == [a, b]
  {
    SixBits(a - 0xC0, b - 0x80);
    cp := (a - 0xC0) * 64 + (b - 0x80);
  }

  lemma ThreeBytes(a: int, b: int, c: int) returns (cp: int)
    requires 0xE0 <= a <= 0xEF && 0x80 <= b <= 0xBF && 0x80 <= c <= 0xBF && SecondOk(a, b)
    ensures Scalar(cp) && Encode(cp) == [a, b, c]
  {
    var hi := (a - 0xE0) * 64 + (b - 0x80);
    SixBits(a - 0xE0, b - 0x80);
    SixBits(hi, c - 0x80);
    cp := hi * 64 + (c - 0x80);
  }

  lemma FourBytes(a: int, b: int, c: int, d: int) returns (cp: int)
    requires 0xF0 <= a <= 0xF4 && 0x80 <= b <= 0xBF && 0x80 <= c <= 0xBF && 0x80 <= d <= 0xBF && SecondOk(a, b)
    ensures Scalar(cp) && Encode(cp) == [a, b, c, d]
  {
    var hi := (a - 0xF0) * 64 + (b - 0x80);
    var mid := hi * 64 + (c - 0x80);
    SixBits(a - 0xF0, b - 0x80);
    SixBits(hi, c - 0x80);
    SixBits(mid, d - 0x80);
    cp := mid * 64 + (d - 0x80);
  }

  lemma RuneIsEncode(s: Bytes) returns (cp: int)
    requires RuneLen(s) > 0
    ensures Scalar(cp) && Encode(cp) == s[..RuneLen(s)]
  {
    hide Encode, Scalar;
    var n := RuneLen(s);
    if n == 1 {
      cp := s[0];
      OneByte(cp);
      assert s[..1] == [s[0]];
    } else if n == 2 {
      cp := TwoBytes(s[0], s[1]);
      assert s[..2] == [s[0], s[1]];
    } else if n == 3 {
      cp := ThreeBytes(s[0], s[1], s[2]);
      assert s[..3] == [s[0], s[1], s[2]];
    } else {
      cp := FourBytes(s[0], s[1], s[2], s[3]);
      assert s[..4] == [s[0], s[1], s[2], s[3]];
    }
  }

  lemma OneByte(a: int)
    requires 0 <= a < 0x80
    ensures Scalar(a) && Encode(a) == [a]
  {
  }

  function EncodeAll(cps: seq<int>): Bytes
    requires forall i :: 0 <= i < |cps| ==> Scalar(cps[i])
  {
    if cps == [] then [] else Encode(cps[0]) + EncodeAll(cps[1..])
  }

  lemma {:induction false} EncodedIsValid(cps: seq<int>)
    requires forall i :: 0 <= i < |cps| ==> Scalar(cps[i])
    ensures Valid(EncodeAll(cps))
  {
    if cps != [] {
      EncodedIsValid(cps[1..]);
      var e, rest := Encode(cps[0]), EncodeAll(cps[1..]);
      EncodeIsRune(cps[0], rest);
      assert (e + rest)[|e|..] == rest;
    }
  }

  lemma {:induction false} ValidIsEncoded(s: Bytes) returns (cps: seq<int>)
    requires Valid(s)
    ensures (forall i :: 0 <= i < |cps| ==> Scalar(cps[i])) && s == EncodeAll(cps)
  {
    cps := [];
    if s != [] {
      var n := RuneLen(s);
      var cp := RuneIsEncode(s);
      var more := ValidIsEncoded(s[n..]);
      cps := [cp] + more;
      assert cps[1..] == more && s == s[..n] + s[n..];
    }
  }

  /** The valid byte strings are exactly the encodings of code points that are no surrogates. */
  lemma ValidExactly(s: Bytes)
    ensures Valid(s) <==>
      exists cps: seq<int> :: (forall i :: 0 <= i < |cps| ==> Scalar(cps[i])) && s == EncodeAll(cps)
  {
    if Valid(s) { var cps := ValidIsEncoded(s); }
    if cps: seq<int> :| (forall i :: 0 <= i < |cps| ==> Scalar(cps[i])) && s == EncodeAll(cps) { EncodedIsValid(cps); }
  }

  /** A byte string ends in a character exactly if it ends in the encoding of one. */
  lemma EndsInRuneExactly(s: Bytes)
    ensures EndsInRune(s) <==> exists cp :: Scalar(cp) && |Encode(cp)| <= |s| && s[|s|-|Encode(cp)|..] == Encode(cp)
  {
    if n :| 0 < n <= UTF_MAX && RuneAtEnd(s, n) {
      var r := s[|s|-n..];
      var cp := RuneIsEncode(r);
      assert r[..n] == r;
    }
    if cp :| Scalar(cp) && |Encode(cp)| <= |s| && s[|s|-|Encode(cp)|..] == Encode(cp) {
      EncodeIsRune(cp, []);
      assert Encode(cp) + [] == Encode(cp);
      assert RuneAtEnd(s, |Encode(cp)|);
    }
  }
}
