/**
 * The few string functions of the Kotlin, Java and Python standard libraries
 * that the modelled code relies on, each stated by what it returns.
 */
module Text {

  /**
   * Kotlin `Char.isWhitespace`, which `trim`, `trimStart`, `trimEnd` and
   * `isBlank` use: the control characters tab to carriage return and the four
   * separators U+001C to U+001F, and every Unicode space, line and paragraph
   * separator, the non-breaking ones included.
   */
  predicate IsWhitespace(c: char) {
    ('\t' <= c <= '\r') || ('\U{1C}' <= c <= ' ')
    || c == '\U{A0}' || c == '\U{1680}' || ('\U{2000}' <= c <= '\U{200A}')
    || c == '\U{2028}' || c == '\U{2029}' || c == '\U{202F}' || c == '\U{205F}' || c == '\U{3000}'
  }

  predicate StartsWith(s: string, prefix: string) {
    |prefix| <= |s| && s[..|prefix|] == prefix
  }

  predicate EndsWith(s: string, suffix: string) {
    |suffix| <= |s| && s[|s| - |suffix|..] == suffix
  }

  /** Java `s.indexOf(c, from)`: the first position at or after `from` holding `c`, or -1. */
  function IndexOf(s: string, c: char, from: nat): (r: int)
    ensures r == -1 || from <= r < |s|
    ensures r >= 0 ==> s[r] == c && forall i :: from <= i < r ==> s[i] != c
    ensures r == -1 ==> forall i :: from <= i < |s| ==> s[i] != c
    decreases |s| - from
  {
    if from >= |s| then -1
    else if s[from] == c then from
    else IndexOf(s, c, from + 1)
  }

  /** Java `s.lastIndexOf(c, from)`: the last position at or before `from` holding `c`, or -1. */
  function LastIndexOfAt(s: string, c: char, from: int): (r: int)
    ensures r == -1 || (0 <= r < |s| && r <= from)
    ensures r >= 0 ==> s[r] == c && forall i :: r < i <= from && i < |s| ==> s[i] != c
    ensures r == -1 ==> forall i :: 0 <= i <= from && i < |s| ==> s[i] != c
    decreases from + 1
  {
    if from < 0 then -1
    else if from >= |s| then LastIndexOfAt(s, c, |s| - 1)
    else if s[from] == c then from
    else LastIndexOfAt(s, c, from - 1)
  }

  /** Java `s.lastIndexOf(c)`. */
  function LastIndexOf(s: string, c: char): (r: int)
    ensures -1 <= r < |s|
    ensures r >= 0 ==> s[r] == c && forall i :: r < i < |s| ==> s[i] != c
    ensures r == -1 ==> c !in s
  {
    LastIndexOfAt(s, c, |s| - 1)
  }

  /** Kotlin `s.split(c)`: every piece between occurrences of `c`, empty pieces included. */
  function Split(s: string, c: char): (parts: seq<string>)
    ensures |parts| >= 1
    ensures forall i :: 0 <= i < |parts| ==> c !in parts[i]
    decreases |s|
  {
    var i := IndexOf(s, c, 0);
    if i < 0 then [s] else [s[..i]] + Split(s[i + 1..], c)
  }

  /** Kotlin `parts.joinToString(sep)`. */
  function Join(parts: seq<string>, sep: string): (r: string)
    ensures |parts| == 1 ==> r == parts[0]
  {
    if |parts| == 0 then ""
    else if |parts| == 1 then parts[0]
    else parts[0] + sep + Join(parts[1..], sep)
  }

  /** Splitting and joining again with the same separator gives the text back. */
  lemma {:induction false} JoinSplit(s: string, c: char)
    ensures Join(Split(s, c), [c]) == s
    decreases |s|
  {
    var i := IndexOf(s, c, 0);
    if i >= 0 {
      var rest := s[i + 1..];
      JoinSplit(rest, c);
      JoinCons(s[..i], Split(rest, c), [c]);
      AroundSeparator(s, i);
    }
  }

  lemma JoinCons(head: string, parts: seq<string>, sep: string)
    requires |parts| >= 1
    ensures Join([head] + parts, sep) == head + sep + Join(parts, sep)
  {
    assert ([head] + parts)[1..] == parts;
  }

  lemma AroundSeparator(s: string, i: nat)
    requires i < |s|
    ensures s == s[..i] + [s[i]] + s[i + 1..]
  {
    assert s == s[..i] + s[i..];
    assert s[i..] == [s[i]] + s[i + 1..];
  }

  /** Kotlin `s.split(c, limit = 2)`: the text before the first `c` and everything after it. */
  function SplitOnce(s: string, c: char): (parts: seq<string>)
    ensures 1 <= |parts| <= 2
    ensures |parts| == 1 <==> c !in s
    ensures |parts| == 1 ==> parts[0] == s
    ensures |parts| == 2 ==> c !in parts[0] && s == parts[0] + [c] + parts[1]
  {
    var i := IndexOf(s, c, 0);
    if i < 0 then [s] else [s[..i], s[i + 1..]]
  }

  function TrimStart(s: string): (r: string)
    ensures |r| <= |s| && r == s[|s| - |r|..]
    ensures r == [] || !IsWhitespace(r[0])
    ensures forall i :: 0 <= i < |s| - |r| ==> IsWhitespace(s[i])
  {
    if |s| > 0 && IsWhitespace(s[0]) then TrimStart(s[1..]) else s
  }

  function TrimEnd(s: string): (r: string)
    ensures |r| <= |s| && r == s[..|r|]
    ensures r == [] || !IsWhitespace(r[|r| - 1])
    ensures forall i :: |r| <= i < |s| ==> IsWhitespace(s[i])
  {
    if |s| > 0 && IsWhitespace(s[|s| - 1]) then TrimEnd(s[..|s| - 1]) else s
  }

  /** Kotlin `s.trim()`. */
  function Trim(s: string): (r: string)
    ensures r == [] || (!IsWhitespace(r[0]) && !IsWhitespace(r[|r| - 1]))
  {
    TrimEnd(TrimStart(s))
  }

  predicate IsBlank(s: string) {
    forall i :: 0 <= i < |s| ==> IsWhitespace(s[i])
  }

  /** `n` spaces, the indentation unit of the writers and of the completion text. */
  function Spaces(n: nat): (r: string)
    ensures |r| == n && forall i :: 0 <= i < n ==> r[i] == ' '
  {
    if n == 0 then "" else Spaces(n - 1) + " "
  }

  /** A file path as the list of its names from the root (`[]` is `/`). */
  type Path = seq<string>

  /**
   * Java `File(parent, child)` for a child that names one entry: the child
   * under the parent, or the parent itself when the child is empty.
   */
  function Child(parent: Path, child: string): (r: Path)
    ensures child == "" ==> r == parent
    ensures child != "" ==> |r| == |parent| + 1 && r[..|parent|] == parent && r[|parent|] == child
  {
    if child == "" then parent else parent + [child]
  }

  /**
   * The path whose last name is `suffix` appended to the last name of `p`
   * (Kotlin `"${p.absolutePath}$suffix"`; the root is `/`, so its sibling is
   * `/` + `suffix`).
   */
  function Sibling(p: Path, suffix: string): (r: Path)
    ensures |r| == if p == [] then 1 else |p|
    ensures p != [] ==> r[..|p| - 1] == p[..|p| - 1] && r[|p| - 1] == p[|p| - 1] + suffix
  {
    if p == [] then [suffix] else p[..|p| - 1] + [p[|p| - 1] + suffix]
  }
}
