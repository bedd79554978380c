/**
 * Source sets of the module records: a `:name` link to another module's
 * sources, or a glob pattern split into exact and wildcard chunks.
 */
module SourceSets {
  import opened Wrappers
  import opened Text

  /** One chunk of a glob: literal text, `**` (greedy) or `*` (non-greedy). */
  datatype Chunk = Exact(value: string) | Greedy | NonGreedy

  datatype SourceSet =
    | SourceLink(library: string)
    | GlobItem(chunks: seq<Chunk>)

  /** `SourceSet(value)`: a link when the text starts with `:`, a glob otherwise. */
  function SourceSetOf(value: string): (r: SourceSet) {
    if |value| > 0 && value[0] == ':' then SourceLink(value[1..]) else GlobItem(Chunks(value))
  }

  /** A link is exactly a value starting with `:`, and its library is the rest of the text. */
  lemma SourceLinkIff(value: string)
    ensures SourceSetOf(value).SourceLink? <==> StartsWith(value, ":")
    ensures SourceSetOf(value).SourceLink? ==> ":" + SourceSetOf(value).library == value
  {
    if |value| > 0 && value[0] == ':' {
      assert ":" + value[1..] == value;
    }
  }

  // ---------------------------------------------------------------- chunking

  /** The wildcard starting at the `*` at `next`: `**` when another `*` follows. */
  function StarAt(p: string, next: nat): Chunk
    requires next < |p|
  {
    if next + 1 < |p| && p[next + 1] == '*' then Greedy else NonGreedy
  }

  /** Where the text after the wildcard at `next` starts. */
  function StarEnd(p: string, next: nat): (r: nat)
    requires next < |p| && p[next] == '*'
    ensures next < r <= |p| && p[next..r] == ChunkText(StarAt(p, next))
  {
    if next + 1 < |p| && p[next + 1] == '*' then next + 2 else next + 1
  }

  /** The chunks the glob constructor builds from `p[pos..]`. */
  function ChunksFrom(p: string, pos: nat): seq<Chunk>
    requires pos <= |p|
    decreases |p| - pos
  {
    var next := IndexOf(p, '*', pos);
    if next == -1 then [Exact(p[pos..])]
    else [Exact(p[pos..next]), StarAt(p, next)] + ChunksFrom(p, StarEnd(p, next))
  }

  function Chunks(p: string): seq<Chunk> {
    ChunksFrom(p, 0)
  }

  /** The `GlobItem` constructor: a loop that cuts the pattern at each `*` or `**`. */
  method MakeGlob(pattern: string) returns (g: SourceSet)
    ensures g == GlobItem(Chunks(pattern))
  {
    var pos := 0;
    var chunks: seq<Chunk> := [];
    while true
      invariant pos <= |pattern|
      invariant chunks + ChunksFrom(pattern, pos) == Chunks(pattern)
      decreases |pattern| - pos
    {
      var next := IndexOf(pattern, '*', pos);
      if next == -1 {
        ChunksEnd(pattern, pos);
        break;
      }
      ghost var before := chunks;
      ghost var exact := Exact(pattern[pos..next]);
      ghost var rest := ChunksFrom(pattern, StarEnd(pattern, next));
      ChunksStep(pattern, pos);
      chunks := chunks + [Exact(pattern[pos..next])];
      pos := next + 1;
      if pos < |pattern| && pattern[pos] == '*' {
        chunks := chunks + [Greedy];
        pos := pos + 1;
      } else {
        chunks := chunks + [NonGreedy];
      }
      assert pos == StarEnd(pattern, next);
      Regroup(before, exact, StarAt(pattern, next), rest);
    }
    chunks := chunks + [Exact(pattern[pos..])];
    g := GlobItem(chunks);
  }

  lemma Regroup(before: seq<Chunk>, e: Chunk, w: Chunk, rest: seq<Chunk>)
    ensures before + [e] + [w] + rest == before + ([e, w] + rest)
  {
  }

  lemma ChunksStep(p: string, pos: nat)
    requires pos <= |p| && IndexOf(p, '*', pos) >= 0
    ensures var next := IndexOf(p, '*', pos);
      ChunksFrom(p, pos) == [Exact(p[pos..next]), StarAt(p, next)] + ChunksFrom(p, StarEnd(p, next))
  {
  }

  lemma ChunksEnd(p: string, pos: nat)
    requires pos <= |p| && IndexOf(p, '*', pos) == -1
    ensures ChunksFrom(p, pos) == [Exact(p[pos..])]
  {
  }

  /** The text a chunk stands for. */
  function ChunkText(c: Chunk): string {
    match c
    case Exact(v) => v
    case Greedy => "**"
    case NonGreedy => "*"
  }

  function Render(cs: seq<Chunk>): string {
    if cs == [] then "" else ChunkText(cs[0]) + Render(cs[1..])
  }

  lemma {:induction false} RenderAppend(a: seq<Chunk>, b: seq<Chunk>)
    ensures Render(a + b) == Render(a) + Render(b)
    decreases |a|
  {
    if a == [] {
      assert a + b == b;
    } else {
      assert (a + b)[1..] == a[1..] + b;
      RenderAppend(a[1..], b);
    }
  }

  /** Chunks alternate exact and wildcard, start and end with an exact chunk, and no exact chunk holds `*`. */
  predicate Alternating(cs: seq<Chunk>) {
    |cs| % 2 == 1
    && (forall i :: 0 <= i < |cs| ==> (cs[i].Exact? <==> i % 2 == 0))
    && (forall i :: 0 <= i < |cs| && cs[i].Exact? ==> '*' !in cs[i].value)
  }

  lemma AlternatingCons(e: string, w: Chunk, rest: seq<Chunk>)
    requires '*' !in e && !w.Exact? && Alternating(rest)
    ensures Alternating([Exact(e), w] + rest)
  {
    var cs := [Exact(e), w] + rest;
    forall i | 2 <= i < |cs|
      ensures cs[i] == rest[i - 2]
    {
    }
  }

  /** Putting `*` or `**` back between the exact chunks gives the pattern back. */
  lemma {:induction false} ChunksRoundTrip(p: string, pos: nat)
    requires pos <= |p|
    ensures Render(ChunksFrom(p, pos)) == p[pos..]
    decreases |p| - pos
  {
    var next := IndexOf(p, '*', pos);
    if next == -1 {
      assert Render([Exact(p[pos..])]) == p[pos..];
    } else {
      var w := StarAt(p, next);
      var after := StarEnd(p, next);
      var head := [Exact(p[pos..next]), w];
      ChunksRoundTrip(p, after);
      RenderAppend(head, ChunksFrom(p, after));
      assert Render(head) == p[pos..next] + ChunkText(w) by {
        assert head[1..] == [w];
        assert Render([w]) == ChunkText(w) + Render([]);
      }
      SplitAt(p, pos, next, after);
    }
  }

  lemma SplitAt(p: string, a: nat, b: nat, c: nat)
    requires a <= b <= c <= |p|
    ensures p[a..] == p[a..b] + p[b..c] + p[c..]
  {
  }

  /** The chunks alternate exact and wildcard, starting and ending with an exact chunk. */
  lemma {:induction false} ChunksAlternate(p: string, pos: nat)
    requires pos <= |p|
    ensures Alternating(ChunksFrom(p, pos))
    decreases |p| - pos
  {
    var next := IndexOf(p, '*', pos);
    if next == -1 {
      assert '*' !in p[pos..];
    } else {
      ChunksAlternate(p, StarEnd(p, next));
      assert '*' !in p[pos..next];
      AlternatingCons(p[pos..next], StarAt(p, next), ChunksFrom(p, StarEnd(p, next)));
    }
  }

  /** A greedy chunk stands exactly where the pattern has `**`; a lone `*` is non-greedy. */
  lemma {:induction false} GreedyWhereDoubleStar(p: string, pos: nat)
    requires pos <= |p|
    ensures var next := IndexOf(p, '*', pos);
      var cs := ChunksFrom(p, pos);
      next >= 0 ==> |cs| >= 2 && (cs[1] == Greedy <==> next + 1 < |p| && p[next + 1] == '*')
  {
  }

  // ---------------------------------------------------------------- queries

  /** `isPattern()`: more than one chunk, or a first chunk that is a wildcard. */
  predicate IsPattern(p: string) {
    var cs := Chunks(p);
    |cs| > 1 || !cs[0].Exact?
  }

  lemma IsPatternIff(p: string)
    ensures IsPattern(p) <==> '*' in p
  {
    if '*' in p {
      var i :| 0 <= i < |p| && p[i] == '*';
      assert IndexOf(p, '*', 0) >= 0;
    }
  }

  /** The text after the last `*` of a pattern (all of it when there is none). */
  function Tail(p: string): string {
    p[LastIndexOf(p, '*') + 1..]
  }

  /** The exact chunk nearest the end (`asReversed().firstOrNull { it is ExactMatchPattern }`). */
  function LastExact(cs: seq<Chunk>): Option<string> {
    if cs == [] then None
    else if cs[|cs| - 1].Exact? then Some(cs[|cs| - 1].value)
    else LastExact(cs[..|cs| - 1])
  }

  /** The last chunk of a glob is its text after the last `*`. */
  lemma {:induction false} LastChunkIsTail(p: string, pos: nat)
    requires pos <= |p|
    ensures var cs := ChunksFrom(p, pos);
      var from := if pos <= LastIndexOf(p, '*') then LastIndexOf(p, '*') + 1 else pos;
      |cs| > 0 && cs[|cs| - 1] == Exact(p[from..])
    decreases |p| - pos
  {
    var next := IndexOf(p, '*', pos);
    var last := LastIndexOf(p, '*');
    if next == -1 {
      assert last < pos;
    } else {
      var after := StarEnd(p, next);
      LastChunkIsTail(p, after);
      assert next <= last;
      assert after <= last + 1 by {
        if after == next + 2 {
          assert p[next + 1] == '*';
        }
      }
    }
  }

  /** The last chunk of a glob, and so its last exact chunk, is its text after the last `*`. */
  lemma LastChunk(p: string)
    ensures var cs := Chunks(p);
      |cs| > 0 && cs[|cs| - 1] == Exact(Tail(p)) && LastExact(cs) == Some(Tail(p))
  {
    LastChunkIsTail(p, 0);
    var cs := Chunks(p);
    var last := LastIndexOf(p, '*');
    assert (if 0 <= last then last + 1 else 0) == last + 1;
    assert cs[|cs| - 1] == Exact(Tail(p));
  }

  /**
   * `isFolder()`: the last exact chunk has no `.`, or its first `.` comes
   * before its first `/`.
   */
  predicate IsFolder(p: string) {
    match LastExact(Chunks(p))
    case None => false
    case Some(v) =>
      var dot := IndexOf(v, '.', 0);
      var sep := IndexOf(v, '/', 0);
      dot < 0 || dot < sep
  }

  /** A pattern names a folder when its text after the last `*` has no `.`, or has a `/` after its first `.`. */
  lemma IsFolderIff(p: string)
    ensures var t := Tail(p);
      IsFolder(p) <==> '.' !in t || ('/' in t && IndexOf(t, '.', 0) < IndexOf(t, '/', 0))
  {
    LastChunk(p);
    DotSlash(Tail(p));
  }

  lemma DotSlash(t: string)
    ensures var dot := IndexOf(t, '.', 0);
      (dot < 0 || dot < IndexOf(t, '/', 0)) <==> '.' !in t || ('/' in t && dot < IndexOf(t, '/', 0))
  {
    if '/' in t {
      var i :| 0 <= i < |t| && t[i] == '/';
      assert IndexOf(t, '/', 0) >= 0;
    }
    if '.' in t {
      var i :| 0 <= i < |t| && t[i] == '.';
      assert IndexOf(t, '.', 0) >= 0;
    }
  }

  /** `fileExtension()`: the text after the last `.` of the last chunk, when that chunk is exact and has a `.`. */
  function FileExtension(p: string): (r: Option<string>) {
    var cs := Chunks(p);
    if |cs| == 0 || !cs[|cs| - 1].Exact? then None
    else
      var file := cs[|cs| - 1].value;
      var index := LastIndexOf(file, '.');
      if index < 0 then None else Some(file[index + 1..])
  }

  /** The extension is what follows the last `.` after the last `*`, and it holds neither. */
  lemma FileExtensionOfTail(p: string)
    ensures FileExtension(p).None? <==> '.' !in Tail(p)
    ensures FileExtension(p).Some? ==>
      var e := FileExtension(p).value;
      EndsWith(p, "." + e) && '.' !in e && '*' !in e
  {
    LastChunk(p);
    var t := Tail(p);
    var index := LastIndexOf(t, '.');
    if index >= 0 {
      TailEnds(p, index);
      assert t[index..] == "." + t[index + 1..];
    }
  }

  lemma TailEnds(p: string, index: nat)
    requires index < |Tail(p)|
    ensures EndsWith(p, Tail(p)[index..]) && '*' !in Tail(p)
  {
    TailSuffix(p, index);
    TailHasNoStar(p);
  }

  lemma TailSuffix(p: string, index: nat)
    requires index < |Tail(p)|
    ensures EndsWith(p, Tail(p)[index..])
  {
    SuffixOfSuffix(p, LastIndexOf(p, '*') + 1, index);
  }

  /** The characters after the last `c` of a text include no `c`. */
  lemma TailHasNoStar(p: string)
    ensures '*' !in Tail(p)
  {
    AfterLast(p, '*', LastIndexOf(p, '*'));
  }

  lemma AfterLast(p: string, c: char, r: int)
    requires -1 <= r < |p|
    requires forall i :: r < i < |p| ==> p[i] != c
    ensures c !in p[r + 1..]
  {
    var t := p[r + 1..];
    forall j | 0 <= j < |t|
      ensures t[j] != c
    {
      assert t[j] == p[r + 1 + j];
    }
  }

  lemma SuffixOfSuffix(p: string, from: nat, index: nat)
    requires from + index <= |p|
    ensures EndsWith(p, p[from..][index..])
  {
    assert p[from..][index..] == p[from + index..];
  }

  /** The exact chunk a glob starts with: all its text before the first `*`. */
  function Head(p: string): string {
    var i := IndexOf(p, '*', 0);
    if i < 0 then p else p[..i]
  }

  /** `toFullPath(base)`: the first exact chunk under `base`, or `base` when there is none. */
  function ToFullPath(base: Path, p: string): (r: Path) {
    match FirstExact(Chunks(p))
    case Some(v) => Child(base, v)
    case None => base
  }

  /** The exact chunk nearest the start (`firstOrNull { it is ExactMatchPattern }`). */
  function FirstExact(cs: seq<Chunk>): Option<string> {
    if cs == [] then None
    else if cs[0].Exact? then Some(cs[0].value)
    else FirstExact(cs[1..])
  }

  /** `toRelativeString()`: the exact chunks before the first wildcard, joined with `", "`. */
  function ToRelativeString(p: string): string {
    Join(ExactPrefix(Chunks(p)), ", ")
  }

  function ExactPrefix(cs: seq<Chunk>): seq<string> {
    if cs == [] || !cs[0].Exact? then [] else [cs[0].value] + ExactPrefix(cs[1..])
  }

  /** Both use only the text before the first `*`. */
  lemma FullPathUsesHead(base: Path, p: string)
    ensures ToFullPath(base, p) == Child(base, Head(p))
    ensures ToRelativeString(p) == Head(p)
    ensures '*' !in Head(p) && StartsWith(p, Head(p))
  {
    var cs := Chunks(p);
    ChunksRoundTrip(p, 0);
    assert cs[0] == Exact(Head(p));
    if |cs| > 1 {
      assert !cs[1].Exact?;
      assert ExactPrefix(cs[1..]) == [];
    } else {
      assert cs[1..] == [];
    }
    assert ExactPrefix(cs) == [Head(p)];
  }
}
