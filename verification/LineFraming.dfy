/** One JSON message a line: the asynchronous writer and the line reader. A message is what it
    marshals to; bytes are characters. */
module LineFraming {
  import opened Runs

  type Message = string

  const WRITE_BUFFER: nat := 256

  // A marshalled object is never empty, and holds no raw newline unless the marshaller is broken.
  predicate Marshalled(m: Message) { m != "" && '\n' !in m }

  // What writeFrame puts out: nothing for a message it rejects.
  function FrameOf(m: Message): string { if '\n' in m then "" else m + "\n" }

  function Framed(ms: seq<Message>): string { if ms == [] then "" else FrameOf(ms[0]) + Framed(ms[1..]) }

  lemma {:induction false} FramedConcat(a: seq<Message>, b: seq<Message>)
    ensures Framed(a + b) == Framed(a) + Framed(b)
  {
    if a == [] {
      assert a + b == b;
    } else {
      assert (a + b)[0] == a[0] && (a + b)[1..] == a[1..] + b;
      FramedConcat(a[1..], b);
    }
  }

  lemma FramedSnoc(ms: seq<Message>, m: Message)
    ensures Framed(ms + [m]) == Framed(ms) + FrameOf(m)
  {
    FramedConcat(ms, [m]);
    assert [m][1..] == [] && FrameOf(m) + "" == FrameOf(m);
  }

  // Reading.

  datatype Read = Line(raw: string, rest: string) | EmptyLine(rest: string) | End

  // How much of s stands before the first newline, all of it if there is none.
  function LineLen(s: string): (n: nat)
    ensures n <= |s| && '\n' !in s[..n] && (n < |s| ==> s[n] == '\n')
  {
    if s == "" || s[0] == '\n' then 0
    else
      var n := LineLen(s[1..]);
      assert s[..1+n] == [s[0]] + s[1..][..n];
      1 + n
  }

  // readFrame, up to the decoding of the line; a line without its newline is not a frame.
  function ReadFrame(s: string): Read {
    var n := LineLen(s);
    if n == |s| then End
    else if n == 0 then EmptyLine(s[1..])
    else Line(s[..n], s[n+1..])
  }

  // Everything the read loop gets from a stream: it reads on after an empty line.
  function ReadAll(s: string): seq<Message>
    decreases |s|
  {
    match ReadFrame(s)
    case End => []
    case EmptyLine(rest) => ReadAll(rest)
    case Line(raw, rest) => [raw] + ReadAll(rest)
  }

  method ReadLoop(stream: string) returns (lines: seq<Message>)
    ensures lines == ReadAll(stream)
  {
    lines := [];
    var s := stream;
    while true
      invariant lines + ReadAll(s) == ReadAll(stream)
      decreases |s|
    {
      match ReadFrame(s) {
        case End =>
          assert lines + [] == lines;
          return;
        case EmptyLine(rest) => s := rest;
        case Line(raw, rest) =>
          assert lines + ([raw] + ReadAll(rest)) == lines + [raw] + ReadAll(rest);
          lines := lines + [raw];
          s := rest;
      }
    }
  }

  lemma {:induction false} LineLenAt(w: string, rest: string)
    requires '\n' !in w
    ensures LineLen(w + ("\n" + rest)) == |w|
  {
    var s := w + ("\n" + rest);
    if w != "" {
      assert s[0] == w[0] && s[1..] == w[1..] + ("\n" + rest);
      LineLenAt(w[1..], rest);
    } else {
      assert s[0] == '\n';
    }
  }

  lemma ReadOne(m: Message, rest: string)
    requires '\n' !in m
    ensures ReadFrame(m + "\n" + rest) == if m == "" then EmptyLine(rest) else Line(m, rest)
  {
    var s := m + "\n" + rest;
    assert s == m + ("\n" + rest);
    LineLenAt(m, rest);
    assert s[..|m|] == m && s[|m|+1..] == rest;
  }

  function Good(ms: seq<Message>): seq<Message> {
    if ms == [] then [] else (if Marshalled(ms[0]) then [ms[0]] else []) + Good(ms[1..])
  }

  /** Whatever is written, the reader gets back exactly the messages that marshalled to one
      non-empty line, in order, and a frame that is still incomplete hides none before it. */
  lemma {:induction false} ReadsWhatWasWritten(ms: seq<Message>, partial: string)
    requires '\n' !in partial
    ensures ReadAll(Framed(ms) + partial) == Good(ms)
  {
    if ms == [] {
      assert Framed(ms) + partial == partial;
      PartialIsEnd(partial);
    } else {
      var m, rest := ms[0], Framed(ms[1..]) + partial;
      ReadsWhatWasWritten(ms[1..], partial);
      if '\n' in m {
        assert Framed(ms) + partial == rest;
      } else {
        assert Framed(ms) + partial == m + "\n" + rest;
        ReadOne(m, rest);
      }
    }
  }

  lemma {:induction false} PartialIsEnd(s: string)
    requires '\n' !in s
    ensures LineLen(s) == |s|
  {
    if s != "" { PartialIsEnd(s[1..]); }
  }

  // The writer.

  // A write that fails stops a frame short, and the stream refuses all later ones.
  predicate Fails(m: Message, cut: Option<nat>) { cut.Some? && cut.value < |FrameOf(m)| }

  function Through(m: Message, broken: bool, cut: Option<nat>): string {
    if broken then "" else if Fails(m, cut) then FrameOf(m)[..cut.value] else FrameOf(m)
  }

  class Writer {
    var out: string          // the underlying stream
    var broken: bool         // it has failed
    var ch: seq<Message>     // the bounded channel
    var closed: bool
    ghost var accepted: seq<Message>
    ghost var whole: nat     // how many messages were through when it failed

    // The messages the drain has taken.
    ghost function Taken(): seq<Message>
      reads this
      requires |ch| <= |accepted|
    {
      accepted[..|accepted|-|ch|]
    }

    ghost predicate Valid()
      reads this
    {
      && |ch| <= WRITE_BUFFER && |ch| <= |accepted| && accepted == Taken() + ch
      && if broken then whole <= |accepted| && CutShort(accepted[..whole], out) else out == Framed(Taken())
    }

    constructor ()
      ensures Valid() && accepted == [] && !closed && !broken
    {
      out, broken, ch, closed, accepted, whole := "", false, [], false, [], 0;
    }

    // Blocks while the channel is full, so it is called with room.
    method Write(m: Message)
      requires Valid() && !closed && |ch| < WRITE_BUFFER
      modifies this
      ensures Valid() && accepted == old(accepted) + [m] && ch == old(ch) + [m]
      ensures out == old(out) && broken == old(broken) && closed == old(closed)
    {
      assert (accepted + [m])[..|accepted|-|ch|] == Taken();
      assert broken ==> (accepted + [m])[..whole] == accepted[..whole];
      ch := ch + [m];
      accepted := accepted + [m];
    }

    // writeFrame on the stream; a failure is swallowed.
    method WriteFrame(m: Message, cut: Option<nat>)
      modifies `out, `broken
      ensures broken <==> old(broken) || Fails(m, cut)
      ensures out == old(out) + Through(m, old(broken), cut)
    {
      if broken || '\n' in m {
        assert out + "" == out;
        return;
      }
      if Fails(m, cut) {
        broken := true;
        out := out + m[..cut.value];
        assert FrameOf(m)[..cut.value] == m[..cut.value];
      } else {
        assert out + FrameOf(m) == out + m + "\n";
        out := out + m;
        out := out + "\n";
      }
    }

    // One turn of the drain goroutine.
    method DrainOne(cut: Option<nat>)
      requires Valid() && ch != []
      modifies this
      ensures Valid() && accepted == old(accepted) && closed == old(closed) && ch == old(ch)[1..]
      ensures broken <==> old(broken) || Fails(old(ch)[0], cut)
      ensures out == old(out) + Through(old(ch)[0], old(broken), cut)
    {
      hide Framed, FrameOf, CutShort;
      var m := ch[0];
      ghost var taken, was := Taken(), broken;
      assert out + "" == out;
      TakeNext(taken, ch);
      FramedSnoc(taken, m);
      CutNow(taken, m, cut);
      WriteFrame(m, cut);
      ch := ch[1..];
      if broken && !was { whole := |taken|; }
    }

    /** Closing flushes: the stream then holds every accepted message, in order, and reading it
        gives them back; from a stream that fails, the reader gets those of the messages before
        the failure. Closing again changes nothing. */
    method Close(cuts: nat -> Option<nat>)
      requires Valid() && (closed ==> ch == [])
      modifies this
      ensures Valid() && closed && ch == [] && accepted == old(accepted)
      ensures !broken ==> out == Framed(accepted) && ReadAll(out) == Good(accepted)
      ensures broken ==> whole <= |accepted| && ReadAll(out) == Good(accepted[..whole])
      ensures old(closed) ==> out == old(out) && broken == old(broken)
    {
      if !closed {
        closed := true;
        while ch != []
          invariant Valid() && closed && accepted == old(accepted)
          decreases |ch|
        {
          DrainOne(cuts(|ch|));
        }
      }
      if broken {
        ReadsUpToTheCut(accepted[..whole], out);
      } else {
        assert out == out + "" && Taken() == accepted;
        ReadsWhatWasWritten(accepted, "");
      }
    }
  }

  // The frames of ms and the beginning of one more line.
  ghost predicate CutShort(ms: seq<Message>, out: string) {
    exists partial :: '\n' !in partial && out == Framed(ms) + partial
  }

  lemma CutNow(ms: seq<Message>, m: Message, cut: Option<nat>)
    ensures Fails(m, cut) ==> CutShort(ms, Framed(ms) + Through(m, false, cut))
  {
    if Fails(m, cut) { assert FrameOf(m)[..cut.value] == m[..cut.value]; }
  }

  lemma TakeNext(taken: seq<Message>, queue: seq<Message>)
    requires queue != []
    ensures taken + queue == taken + [queue[0]] + queue[1..]
    ensures (taken + queue)[..|taken|] == taken && (taken + queue)[..|taken|+1] == taken + [queue[0]]
  {
  }

  lemma ReadsUpToTheCut(ms: seq<Message>, out: string)
    requires CutShort(ms, out)
    ensures ReadAll(out) == Good(ms)
  {
    var partial :| '\n' !in partial && out == Framed(ms) + partial;
    ReadsWhatWasWritten(ms, partial);
  }
}
