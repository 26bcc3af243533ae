/** Project memory: which files are found, how each is read and cut, and the budget of the
    injected text. File contents are bytes; paths are lists of names. */
module ProjectMemory {
  import opened Runs
  import opened Utf8

  type Path = seq<string>

  const PER_FILE_CAP: nat := 24 * 1024
  const TOTAL_BUDGET: nat := 64 * 1024
  const CLAUDE_MD := "CLAUDE.md"
  const AGENTS_MD := "AGENTS.md"

  datatype Note = Shadowed(winner: Path) | Unreadable
  datatype MemoryFile = MemoryFile(path: Path, content: Bytes, truncated: bool, origBytes: nat, note: Option<Note>)

  // Cutting at the cap.

  // The greatest offset up to k that is 0 or the end of a character.
  function CutAt(s: Bytes, k: nat): (c: nat)
    requires k <= |s|
    ensures c <= k && (c == 0 || EndsInRune(s[..c])) && forall j :: c < j <= k ==> !EndsInRune(s[..j])
  {
    if k == 0 || EndsInRune(s[..k]) then k else CutAt(s, k - 1)
  }

  function Truncated(content: Bytes): Bytes {
    if |content| <= PER_FILE_CAP then content else content[..CutAt(content, PER_FILE_CAP)]
  }

  method TruncateMemory(content: Bytes) returns (cut: Bytes, truncated: bool)
    ensures truncated <==> |content| > PER_FILE_CAP
    ensures cut == Truncated(content) && |cut| <= PER_FILE_CAP
  {
    if |content| <= PER_FILE_CAP {
      return content, false;
    }
    cut := content[..PER_FILE_CAP];
    while cut != []
      invariant |cut| <= PER_FILE_CAP && cut == content[..|cut|]
      invariant CutAt(content, PER_FILE_CAP) == CutAt(content, |cut|)
    {
      var size, ok := DecodeLastRune(cut);
      if ok {
        break;
      }
      cut := cut[..|cut|-1];
    }
    truncated := true;
  }

  /** What is cut from the front part of a longer valid text is its longest valid prefix within the
      cap, at most three bytes short of it. */
  lemma CutIsLongestValid(v: Bytes, content: Bytes)
    requires Valid(v) && content <= v && |content| > PER_FILE_CAP
    ensures Valid(Truncated(content)) && Truncated(content) <= content
    ensures 24 * 1024 - 3 <= |Truncated(content)| <= 24 * 1024
    ensures forall k :: 0 <= k <= 24 * 1024 && Valid(content[..k]) ==> k <= |Truncated(content)|
  {
    var c, b := CutAt(content, PER_FILE_CAP), Boundary(v, PER_FILE_CAP);
    BoundaryIsValid(v, PER_FILE_CAP);
    forall k | 0 <= k <= PER_FILE_CAP ensures content[..k] == v[..k] {}
    BoundaryEnds(v, PER_FILE_CAP, b);
    if c > b { BoundaryEnds(v, PER_FILE_CAP, c); }
    assert c == b;
    forall k | 0 <= k <= PER_FILE_CAP && Valid(content[..k]) ensures k <= b {
      BoundaryIsLongest(v, PER_FILE_CAP, k);
    }
  }

  /** Over the cap everything is lost exactly when no complete character stands within it; text in
      another encoding, without a single lead byte, is such a case. */
  lemma OtherEncodingsLoseAll(content: Bytes)
    requires |content| > PER_FILE_CAP
    ensures Truncated(content) == [] <==> forall k, n :: 0 < n <= k <= PER_FILE_CAP ==> !RuneAtEnd(content[..k], n)
    ensures (forall i :: 0 <= i < |content| ==> LeadLen(content[i]) == 0) ==> Truncated(content) == []
  {
    var c := CutAt(content, PER_FILE_CAP);
    if n, k :| 0 < n <= k <= PER_FILE_CAP && RuneAtEnd(content[..k], n) {
      assert EndsInRune(content[..k]);
    }
    if forall i :: 0 <= i < |content| ==> LeadLen(content[i]) == 0 {
      NoLeadNoRune(content[..c]);
    } else if c != 0 {
      var n :| 0 < n <= UTF_MAX && RuneAtEnd(content[..c], n);
      assert n <= c;
    }
  }

  lemma NoLeadNoRune(s: Bytes)
    requires forall i :: 0 <= i < |s| ==> LeadLen(s[i]) == 0
    ensures !EndsInRune(s)
  {
    forall n | 0 < n <= |s| ensures !RuneAtEnd(s, n) {
      assert s[|s|-n..][0] == s[|s|-n];
    }
  }

  // The read cache.

  datatype Stat = Stat(mtime: int, size: nat)
  datatype Cached = Cached(stat: Stat, content: Bytes)

  // One byte more than the cap shows that there is more.
  function Prefix(b: Bytes): Bytes { if |b| <= PER_FILE_CAP + 1 then b else b[..PER_FILE_CAP+1] }

  /** So much of a file is enough: what is shown of it, and whether it was cut, is the same. */
  lemma PrefixIsEnough(b: Bytes)
    ensures Truncated(Prefix(b)) == Truncated(b) && (|Prefix(b)| > 24 * 1024 <==> |b| > 24 * 1024)
    ensures Prefix(b) <= b && |Prefix(b)| <= 24 * 1024 + 1
  {
    if |b| > PER_FILE_CAP { CutSame(Prefix(b), b, PER_FILE_CAP); }
  }

  lemma {:induction false} CutSame(a: Bytes, b: Bytes, k: nat)
    requires k <= |a| && k <= |b| && a[..k] == b[..k]
    ensures CutAt(a, k) == CutAt(b, k) && a[..CutAt(a, k)] == b[..CutAt(b, k)]
  {
    if k > 0 {
      assert a[..k-1] == a[..k][..k-1] && b[..k-1] == b[..k][..k-1];
      CutSame(a, b, k - 1);
    }
  }

  class MemoryCache {
    var cache: map<Path, Cached>
    var readCount: nat

    constructor ()
      ensures cache == map[] && readCount == 0
    {
      cache, readCount := map[], 0;
    }

    predicate Hit(path: Path, info: Stat)
      reads this
    {
      path in cache && cache[path].stat == info
    }

    /** What the file system holds under a path, time and size, for all of the cache. */
    ghost predicate Faithful(ever: (Path, Stat) -> Bytes)
      reads this
    {
      forall p :: p in cache ==> cache[p].content == Prefix(ever(p, cache[p].stat))
    }

    /** A read through the cache; disk is what reading the file would give now. Where path, time and
        size fix what a file holds, the cache never shows: the caller gets what the disk holds, or
        nothing only if the disk gives nothing, and a second read of an unchanged file is a hit. */
    method CachedRead(path: Path, info: Stat, disk: Option<Bytes>, ghost ever: (Path, Stat) -> Bytes)
      returns (raw: Option<Bytes>)
      requires Faithful(ever) && (disk.Some? ==> disk.value == Prefix(ever(path, info)))
      modifies this
      ensures Faithful(ever)
      ensures raw.Some? ==> raw.value == Prefix(ever(path, info)) && Hit(path, info)
      ensures raw.None? <==> disk.None? && !old(Hit(path, info))
      ensures old(Hit(path, info)) || disk.None? ==> cache == old(cache) && readCount == old(readCount)
      ensures !old(Hit(path, info)) && disk.Some? ==>
                cache == old(cache)[path := Cached(info, disk.value)] && readCount == old(readCount) + 1
    {
      if path in cache && cache[path].stat == info {
        return Some(cache[path].content);
      }
      if disk.None? {
        return None;
      }
      cache := cache[path := Cached(info, disk.value)];
      readCount := readCount + 1;
      raw := disk;
    }
  }

  // One level.

  // What is found under a name: nothing, something that is no file, or a file with what reading
  // it gives.
  datatype Probe = Absent | NotRegular | Regular(raw: Option<Bytes>, size: nat)

  function UnreadableNote(path: Path): MemoryFile { MemoryFile(path, [], false, 0, Some(Unreadable)) }

  function ReadEntry(path: Path, file: Probe): MemoryFile
    requires file.Regular?
  {
    match file.raw
    case None => UnreadableNote(path)
    case Some(raw) => MemoryFile(path, Truncated(raw), |raw| > PER_FILE_CAP, file.size, None)
  }

  function LevelMemory(dir: Path, claude: Probe, agents: Probe): seq<MemoryFile> {
    var c, a := dir + [CLAUDE_MD], dir + [AGENTS_MD];
    if claude.Regular? then
      [ReadEntry(c, claude)] + (if agents.Absent? then [] else [MemoryFile(a, [], false, 0, Some(Shadowed(c)))])
    else if agents.Regular? then
      [ReadEntry(a, agents)] + (if claude.Absent? then [] else [UnreadableNote(c)])
    else (if claude.Absent? then [] else [UnreadableNote(c)]) + (if agents.Absent? then [] else [UnreadableNote(a)])
  }

  predicate Entry(fs: seq<MemoryFile>, p: Path) { exists i :: 0 <= i < |fs| && fs[i].path == p }

  predicate Contributes(fs: seq<MemoryFile>, p: Path) {
    exists i :: 0 <= i < |fs| && fs[i].path == p && fs[i].note.None?
  }

  lemma NamesDiffer(dir: Path)
    ensures dir + [CLAUDE_MD] != dir + [AGENTS_MD]
  {
    assert (dir + [CLAUDE_MD])[|dir|] != (dir + [AGENTS_MD])[|dir|];
  }

  /** At one level each name that is present has exactly one entry, and no other name has any. */
  lemma LevelHasEachNameOnce(dir: Path, claude: Probe, agents: Probe, p: Path)
    ensures var fs := LevelMemory(dir, claude, agents);
            && (|fs| <= 2 && (|fs| == 2 ==> fs[0].path != fs[1].path))
            && (Entry(fs, p) <==> (p == dir + [CLAUDE_MD] && !claude.Absent?) || (p == dir + [AGENTS_MD] && !agents.Absent?))
  {
    var fs := LevelMemory(dir, claude, agents);
    NamesDiffer(dir);
    if |fs| > 0 && fs[0].path == p { assert Entry(fs, p); }
    if |fs| > 1 && fs[1].path == p { assert Entry(fs, p); }
  }

  /** The text of CLAUDE.md comes in exactly if it is a readable file, that of AGENTS.md exactly if
      it is one and CLAUDE.md is no file: even an unreadable CLAUDE.md shadows it. */
  lemma LevelTextExactly(dir: Path, claude: Probe, agents: Probe)
    ensures var fs := LevelMemory(dir, claude, agents);
            && (Contributes(fs, dir + [CLAUDE_MD]) <==> claude.Regular? && claude.raw.Some?)
            && (Contributes(fs, dir + [AGENTS_MD]) <==> agents.Regular? && agents.raw.Some? && !claude.Regular?)
  {
    var fs := LevelMemory(dir, claude, agents);
    NamesDiffer(dir);
    if |fs| > 0 && fs[0].note.None? { assert Contributes(fs, fs[0].path); }
  }

  // The entry of a file that was read: its text, cut only if it is over 24 KiB.
  ghost predicate Holds(f: MemoryFile, raw: Bytes, size: nat) {
    && f.note.None? && f.origBytes == size && f.content <= raw && |f.content| <= 24 * 1024
    && (if |raw| <= 24 * 1024 then f.content == raw && !f.truncated
        else f.truncated && (f.content == [] || EndsInRune(f.content)) &&
             forall k :: |f.content| < k <= 24 * 1024 ==> !EndsInRune(raw[..k]))
  }

  predicate Marks(f: MemoryFile, note: Note) { f.note == Some(note) && f.content == [] && !f.truncated && f.origBytes == 0 }

  /** What stands in a level's entries: a readable file's own text, a note where AGENTS.md is shadowed
      by the CLAUDE.md beside it, and else a note that the name could not be read. */
  lemma LevelEntries(dir: Path, claude: Probe, agents: Probe, f: MemoryFile)
    requires f in LevelMemory(dir, claude, agents)
    ensures f.path == dir + [CLAUDE_MD] ==>
      if claude.Regular? && claude.raw.Some? then Holds(f, claude.raw.value, claude.size) else Marks(f, Unreadable)
    ensures f.path == dir + [AGENTS_MD] ==>
      if claude.Regular? then Marks(f, Shadowed(dir + [CLAUDE_MD]))
      else if agents.Regular? && agents.raw.Some? then Holds(f, agents.raw.value, agents.size)
      else Marks(f, Unreadable)
  {
    NamesDiffer(dir);
    forall path, file: Probe | file.Regular? && file.raw.Some?
      ensures Holds(ReadEntry(path, file), file.raw.value, file.size)
    {
      var raw := file.raw.value;
      if |raw| > PER_FILE_CAP { assert Truncated(raw) == raw[..CutAt(raw, PER_FILE_CAP)]; }
    }
  }

  // The levels.

  /** From dir up to the nearest directory with a repository marker; none if there is none up to
      the root. */
  method MemoryLevels(dir: Path, marked: Path -> bool) returns (up: Option<seq<Path>>)
    ensures up.None? <==> forall k :: 0 <= k <= |dir| ==> !marked(dir[..k])
    ensures up.Some? ==>
              var n := |up.value|;
              && 0 < n <= |dir| + 1
              && (forall i :: 0 <= i < n ==> up.value[i] == dir[..|dir|-i])
              && marked(dir[..|dir|-(n-1)])
              && (forall k :: |dir| - (n - 1) < k <= |dir| ==> !marked(dir[..k]))
  {
    var acc: seq<Path>, cur := [], dir;
    while true
      invariant |cur| == |dir| - |acc| >= 0 && cur == dir[..|cur|]
      invariant forall i :: 0 <= i < |acc| ==> acc[i] == dir[..|dir|-i]
      invariant forall k :: |cur| < k <= |dir| ==> !marked(dir[..k])
      decreases |cur|
    {
      acc := acc + [cur];
      if marked(cur) {
        return Some(acc);
      }
      if cur == [] {
        return None;
      }
      cur := cur[..|cur|-1];
    }
  }

  // The injected text.

  datatype Part = Skipped(path: Path, note: Note) | OverBudget(path: Path) | Included(path: Path, content: Bytes, cut: bool)

  // The content in the first n parts.
  function Used(parts: seq<Part>, n: nat): nat
    requires n <= |parts|
  {
    if n == 0 then 0
    else Used(parts, n - 1) + (if parts[n-1].Included? then |parts[n-1].content| else 0)
  }

  // The part for one file when so much of the budget is used.
  function PartFor(f: MemoryFile, used: nat): Part {
    match f.note
    case Some(note) => Skipped(f.path, note)
    case None =>
      if used + |f.content| <= TOTAL_BUDGET then Included(f.path, f.content, f.truncated) else OverBudget(f.path)
  }

  /** Every file is rendered once, in order, as a note or whole, and whole exactly if the files
      included before it leave room. */
  predicate Rendered(files: seq<MemoryFile>, parts: seq<Part>) {
    |parts| == |files| && forall i :: 0 <= i < |files| ==> parts[i] == PartFor(files[i], Used(parts, i))
  }

  method MemoryInjection(files: seq<MemoryFile>) returns (parts: seq<Part>)
    ensures Rendered(files, parts)
    ensures Used(parts, |parts|) <= 64 * 1024
    ensures forall i :: 0 <= i < |files| ==>
      match files[i].note
      case Some(note) => parts[i] == Skipped(files[i].path, note)
      case None =>
        parts[i] == if Used(parts, i) + |files[i].content| > 64 * 1024 then OverBudget(files[i].path)
                    else Included(files[i].path, files[i].content, files[i].truncated)
  {
    parts := [];
    var remaining := TOTAL_BUDGET;
    for i := 0 to |files|
      invariant |parts| == i && 0 <= remaining == TOTAL_BUDGET - Used(parts, i)
      invariant RenderedUpTo(files, parts)
    {
      var f := files[i];
      ghost var before := parts;
      var part: Part;
      if f.note.Some? {
        part := Skipped(f.path, f.note.value);
      } else if |f.content| > remaining {
        part := OverBudget(f.path);
      } else {
        remaining := remaining - |f.content|;
        part := Included(f.path, f.content, f.truncated);
      }
      assert part == PartFor(f, Used(before, i));
      parts := parts + [part];
      RenderMore(files, before, part);
    }
  }

  predicate RenderedUpTo(files: seq<MemoryFile>, parts: seq<Part>) {
    |parts| <= |files| && forall k :: 0 <= k < |parts| ==> parts[k] == PartFor(files[k], Used(parts, k))
  }

  lemma RenderMore(files: seq<MemoryFile>, parts: seq<Part>, part: Part)
    requires RenderedUpTo(files, parts) && |parts| < |files|
    requires part == PartFor(files[|parts|], Used(parts, |parts|))
    ensures RenderedUpTo(files, parts + [part])
    ensures Used(parts + [part], |parts| + 1) ==
            Used(parts, |parts|) + if part.Included? then |part.content| else 0
  {
    hide PartFor;
    var all := parts + [part];
    forall k | 0 <= k <= |parts| ensures Used(all, k) == Used(parts, k) { UsedSame(all, parts, k); }
  }

  lemma {:induction false} UsedSame(p: seq<Part>, q: seq<Part>, n: nat)
    requires n <= |p| && n <= |q| && forall k :: 0 <= k < n ==> p[k] == q[k]
    ensures Used(p, n) == Used(q, n)
  {
    if n > 0 { UsedSame(p, q, n - 1); }
  }

  lemma {:induction false} RenderedIsUnique(files: seq<MemoryFile>, p: seq<Part>, q: seq<Part>, n: nat)
    requires Rendered(files, p) && Rendered(files, q) && n <= |files|
    ensures forall k :: 0 <= k < n ==> p[k] == q[k]
  {
    hide PartFor;
    if n > 0 {
      RenderedIsUnique(files, p, q, n - 1);
      UsedSame(p, q, n - 1);
    }
  }

  /** The rendering is determined by the files. */
  lemma RenderingIsDetermined(files: seq<MemoryFile>, p: seq<Part>, q: seq<Part>)
    requires Rendered(files, p) && Rendered(files, q)
    ensures p == q
  {
    RenderedIsUnique(files, p, q, |files|);
  }

  lemma {:induction false} UsedGrows(parts: seq<Part>, i: nat, n: nat)
    requires i <= n <= |parts|
    ensures Used(parts, i) <= Used(parts, n)
  {
    if i < n { UsedGrows(parts, i, n - 1); }
  }

  /** Since no file is longer than the cap, one is left out for the budget only when more than the
      budget less the cap has been included before it: the first two never are. */
  lemma {:induction false} BudgetIsNotWasted(files: seq<MemoryFile>, parts: seq<Part>, i: nat)
    requires Rendered(files, parts) && (forall k :: 0 <= k < |files| ==> |files[k].content| <= PER_FILE_CAP)
    requires i < |files| && parts[i].OverBudget?
    ensures Used(parts, i) > TOTAL_BUDGET - PER_FILE_CAP && i >= 2
    ensures Used(parts, |parts|) > TOTAL_BUDGET - PER_FILE_CAP
  {
    assert parts[i] == PartFor(files[i], Used(parts, i));
    UsedGrows(parts, i, |parts|);
  }
}
