/**
 * The reader of legacy `Android.mk` files: physical lines are joined at
 * trailing backslashes, then each logical line either switches the module
 * being built (`include $(CLEAR_VARS)`, `include $(BUILD_…)`) or assigns one
 * of the `LOCAL_…` variables the reader understands.
 *
 * Reading files is not modelled: the lines of a file are a parameter, and so
 * are the lines contributed by the files it includes.
 */
module Makefile {
  import opened Wrappers
  import opened Text
  import opened Values
  import opened Legacy

  /** `:=` creates a variable, `+=` appends to it, `=` assigns it. */
  datatype VariableAction = Create | Append | Assign

  /** The module being built, as a value: its name, its type and its list-valued variables. */
  datatype Builder = Builder(name: Option<string>, typeName: Option<string>, values: map<string, seq<string>>)

  const EmptyBuilder := Builder(None, None, map[])

  // ---------------------------------------------------------------- variables

  /** `assign(key, value, action)` */
  function AssignValue(b: Builder, key: string, value: seq<string>, action: VariableAction): (r: Builder)
    ensures r.name == b.name && r.typeName == b.typeName
  {
    match action
    case Create => b.(values := b.values[key := value])
    case Append => if key in b.values then b.(values := b.values[key := b.values[key] + value]) else b
    case Assign => if "static_libs" in b.values then b else b.(values := b.values[key := value])
  }

  /** `:=` replaces the variable whatever it held. */
  lemma CreateReplaces(b: Builder, key: string, value: seq<string>)
    ensures AssignValue(b, key, value, Create).values[key] == value
    ensures forall k :: k != key ==> (k in AssignValue(b, key, value, Create).values <==> k in b.values)
  {
  }

  /** `+=` extends an existing list and never creates one; no other variable changes. */
  lemma AppendOnlyExtends(b: Builder, key: string, value: seq<string>)
    ensures key !in b.values ==> AssignValue(b, key, value, Append) == b
    ensures key in b.values ==> AssignValue(b, key, value, Append).values[key] == b.values[key] + value
    ensures forall k :: k != key && k in b.values ==> AssignValue(b, key, value, Append).values[k] == b.values[k]
  {
  }

  /**
   * `=` writes only while `static_libs` is unset; that key is set only when
   * a module is built, so while lines are read `=` acts as `:=`.
   */
  lemma AssignGuardedByStaticLibs(b: Builder, key: string, value: seq<string>)
    ensures "static_libs" in b.values ==> AssignValue(b, key, value, Assign) == b
    ensures "static_libs" !in b.values ==> AssignValue(b, key, value, Assign) == AssignValue(b, key, value, Create)
  {
  }

  /**
   * `fixLocalDir` on the `/`-separated parts: `$(LOCAL_PATH)` parts are
   * dropped, and any other part starting with `$` gives up (none).
   */
  function KeepParts(parts: seq<string>): (r: Option<seq<string>>)
    ensures r.Some? ==> |r.value| <= |parts|
  {
    if parts == [] then Some([])
    else if StartsWith(parts[0], "$") then
      if parts[0] == "$(LOCAL_PATH)" then KeepParts(parts[1..]) else None
    else
      match KeepParts(parts[1..])
      case None => None
      case Some(rest) => Some([parts[0]] + rest)
  }

  /** `fixLocalDir(path)`: the path without `$(LOCAL_PATH)`, or empty when another variable is used. */
  function FixLocalDir(path: string): string {
    match KeepParts(Split(path, '/'))
    case None => ""
    case Some(parts) => Join(parts, "/")
  }

  lemma {:induction false} KeepPlainParts(parts: seq<string>)
    requires forall i :: 0 <= i < |parts| ==> '$' !in parts[i]
    ensures KeepParts(parts) == Some(parts)
    decreases |parts|
  {
    if parts != [] {
      assert !StartsWith(parts[0], "$") by {
        if |parts[0]| > 0 {
          assert parts[0][0] in parts[0];
        }
      }
      KeepPlainParts(parts[1..]);
      assert [parts[0]] + parts[1..] == parts;
    }
  }

  /** A directory without variables is kept as it is. */
  lemma PlainDirKept(path: string)
    requires '$' !in path
    ensures FixLocalDir(path) == path
  {
    var parts := Split(path, '/');
    assert forall i :: 0 <= i < |parts| ==> '$' !in parts[i] by {
      JoinSplit(path, '/');
      forall i | 0 <= i < |parts|
        ensures '$' !in parts[i]
      {
        JoinHas(parts, "/", i);
      }
    }
    KeepPlainParts(parts);
    JoinSplit(path, '/');
  }

  /** Every character of a part is a character of the joined text. */
  lemma {:induction false} JoinHas(parts: seq<string>, sep: string, i: nat)
    requires i < |parts|
    ensures forall c :: c in parts[i] ==> c in Join(parts, sep)
    decreases |parts|
  {
    if |parts| > 1 {
      if i > 0 {
        JoinHas(parts[1..], sep, i - 1);
        assert parts[1..][i - 1] == parts[i];
      }
    }
  }

  /** A path under `$(LOCAL_PATH)` is taken relative to the module's directory. */
  lemma LocalPathDropped(rest: string)
    requires '$' !in rest
    ensures FixLocalDir("$(LOCAL_PATH)/" + rest) == rest
  {
    var path := "$(LOCAL_PATH)/" + rest;
    assert path[13] == '/';
    assert forall i :: 0 <= i < 13 ==> path[i] != '/';
    assert IndexOf(path, '/', 0) == 13;
    assert path[..13] == "$(LOCAL_PATH)";
    assert path[14..] == rest;
    assert Split(path, '/') == ["$(LOCAL_PATH)"] + Split(rest, '/');
    assert StartsWith("$(LOCAL_PATH)", "$");
    assert (["$(LOCAL_PATH)"] + Split(rest, '/'))[1..] == Split(rest, '/');
    PlainDirKept(rest);
  }

  /** A directory under any other variable cannot be resolved and is dropped later. */
  lemma OtherVariableGivesUp(v: string, rest: string)
    requires '/' !in v && "$" + v != "$(LOCAL_PATH)"
    ensures FixLocalDir("$" + v + "/" + rest) == ""
  {
    var first := "$" + v;
    var path := first + "/" + rest;
    assert path[|first|] == '/';
    assert forall i :: 0 <= i < |first| ==> path[i] != '/' by {
      assert forall i :: 1 <= i < |first| ==> path[i] == v[i - 1];
    }
    assert IndexOf(path, '/', 0) == |first|;
    assert path[..|first|] == first;
    assert Split(path, '/')[0] == first;
    assert StartsWith(first, "$");
  }

  /** The resource directories of a `LOCAL_RESOURCE_DIR` value, unresolvable ones dropped. */
  function ResourceDirs(dirs: seq<string>): (r: seq<string>)
    ensures forall d :: d in r ==> !IsBlank(d)
    ensures |r| <= |dirs|
  {
    if dirs == [] then []
    else
      var d := FixLocalDir(dirs[0]);
      (if IsBlank(d) then [] else [d]) + ResourceDirs(dirs[1..])
  }

  // ---------------------------------------------------------------- sources

  /** Kotlin `value.startsWith(prefix, start)`. */
  predicate StartsWithAt(value: string, prefix: string, start: nat) {
    start + |prefix| <= |value| && value[start..start + |prefix|] == prefix
  }

  /** What one step of the scan contributes, and where the scan resumes. */
  datatype Scan = Scan(found: seq<string>, next: nat)

  /**
   * One step of the `addSource` scan at `start`: a plain space-separated
   * token is kept (an empty one skipped); a `$(call all-java-files-under, X)`
   * adds `X` trimmed; any other `$` token is skipped; an unclosed call
   * throws. As written, a call's parameters are read from offset 7 of the
   * whole value; as intended, from 7 past the call's own `$`.
   */
  function ScanToken(value: string, start: nat, asWritten: bool): (r: Result<Scan, string>)
    requires start < |value|
    ensures r.Success? ==> r.value.next > start
  {
    if value[start] == '$' then
      if StartsWithAt(value, "$(call ", start) then ScanCallAt(value, start, asWritten)
      else
        var next := IndexOf(value, ' ', start);
        Success(Scan([], if next == -1 then |value| else next))
    else
      var next := IndexOf(value, ' ', start);
      var end := if next == -1 then |value| else next;
      Success(Scan(if start != end then [value[start..end]] else [], end + 1))
  }

  /**
   * The scan step at a `$(call …)`: the sources its parameters name, resuming
   * past its `)`; an unclosed call throws.
   */
  function ScanCallAt(value: string, start: nat, asWritten: bool): (r: Result<Scan, string>)
    requires StartsWithAt(value, "$(call ", start)
    ensures r.Success? ==> r.value.next > start
  {
    var end := IndexOf(value, ')', start);
    var from := if asWritten then 7 else start + 7;
    if end < from then Failure("String index out of range")
    else Success(Scan(CallSources(value[from..end]), end + 1))
  }

  /** The sources named by a call's parameters: the directory of an `all-java-files-under` call. */
  function CallSources(params: string): seq<string> {
    var parts := SplitOnce(params, ',');
    if |parts| == 2 && Trim(parts[0]) == JavaFilesUnder then [Trim(parts[1])] else []
  }

  /** The sources the scan finds from `start` on; the first error ends it. */
  function SourcesFrom(value: string, start: nat, asWritten: bool): (r: Result<seq<string>, string>)
    decreases |value| - start
  {
    if start >= |value| then Success([])
    else
      match ScanToken(value, start, asWritten)
      case Failure(e) => Failure(e)
      case Success(step) => Prefixed(step.found, SourcesFrom(value, step.next, asWritten))
  }

  /** One pass of the `addSource` loop body. */
  method ScanStep(value: string, start: nat, asWritten: bool) returns (r: Result<Scan, string>)
    requires start < |value|
    ensures r == ScanToken(value, start, asWritten)
  {
    if value[start] == '$' {
      if StartsWithAt(value, "$(call ", start) {
        r := ScanCallStep(value, start, asWritten);
      } else {
        var next := IndexOf(value, ' ', start);
        if next == -1 {
          next := |value|;
        }
        r := Success(Scan([], next));
      }
    } else {
      var end := IndexOf(value, ' ', start);
      if end == -1 {
        end := |value|;
      }
      var found: seq<string> := [];
      if start != end {
        found := [value[start..end]];
      }
      r := Success(Scan(found, end + 1));
    }
  }

  /** The loop body at a `$(call …)`: its parameters split at the first comma. */
  method ScanCallStep(value: string, start: nat, asWritten: bool) returns (r: Result<Scan, string>)
    requires StartsWithAt(value, "$(call ", start)
    ensures r == ScanCallAt(value, start, asWritten)
  {
    var end := IndexOf(value, ')', start);
    var from := if asWritten then 7 else start + 7;
    if end < from {
      r := Failure("String index out of range");
      assert r == ScanCallAt(value, start, asWritten);
    } else {
      var found := CallSourcesOf(value[from..end]);
      r := Success(Scan(found, end + 1));
      assert r == ScanCallAt(value, start, asWritten);
    }
  }

  /** The call's parameters split at the first comma; the directory when the function is `all-java-files-under`. */
  method CallSourcesOf(params: string) returns (found: seq<string>)
    ensures found == CallSources(params)
  {
    var parts := SplitOnce(params, ',');
    found := [];
    if |parts| == 2 {
      var kind := Trim(parts[0]);
      if kind == JavaFilesUnder {
        found := [Trim(parts[1])];
      }
    }
  }

  /** The `addSource` loop. */
  method CollectSources(value: string, asWritten: bool) returns (r: Result<seq<string>, string>)
    ensures r == SourcesFrom(value, 0, asWritten)
  {
    var start := 0;
    var sources: seq<string> := [];
    PrefixedEmpty(SourcesFrom(value, 0, asWritten));
    while start < |value|
      invariant SourcesFrom(value, 0, asWritten) == Prefixed(sources, SourcesFrom(value, start, asWritten))
      decreases |value| - start
    {
      var step := ScanStep(value, start, asWritten);
      if step.Failure? {
        return Failure(step.error);
      }
      PrefixedConcat(sources, step.value.found, SourcesFrom(value, step.value.next, asWritten));
      sources := sources + step.value.found;
      start := step.value.next;
    }
    assert sources + [] == sources;
    r := Success(sources);
  }

  /** `IndexOf` is the first occurrence at or after `from`. */
  lemma IndexOfIs(s: string, c: char, from: nat, k: nat)
    requires from <= k < |s| && s[k] == c
    requires forall i :: from <= i < k ==> s[i] != c
    ensures IndexOf(s, c, from) == k
  {
  }

  /** The one kind of call whose sources are kept. */
  const JavaFilesUnder := "all-java-files-under"

  /** The text of a call that lists the Java files under `dir`. */
  function JavaFilesCall(dir: string): string {
    "$(call " + (JavaFilesUnder + "," + dir) + ")"
  }

  /** A call at `start` is closed by its own `)`. */
  lemma CallClose(value: string, start: nat, dir: string)
    requires ')' !in dir
    requires StartsWithAt(value, JavaFilesCall(dir), start)
    ensures StartsWithAt(value, "$(call ", start)
    ensures IndexOf(value, ')', start) == start + |dir| + 28
    ensures value[start + 7..start + |dir| + 28] == JavaFilesUnder + "," + dir
  {
    var call := JavaFilesCall(dir);
    var body := JavaFilesUnder + "," + dir;
    var len := |call|;
    assert call == "$(call " + body + ")";
    assert len == 29 + |dir|;
    assert forall i :: start <= i < start + len ==> value[i] == call[i - start] by {
      assert value[start..start + len] == call;
    }
    assert value[start..start + 7] == "$(call " by {
      assert forall i :: 0 <= i < 7 ==> call[i] == "$(call "[i];
    }
    assert value[start + 7..start + len - 1] == body by {
      assert forall i :: 0 <= i < |body| ==> call[7 + i] == body[i];
    }
    assert value[start + len - 1] == ')';
    forall i | start <= i < start + len - 1
      ensures value[i] != ')'
    {
      if i - start < 7 {
        assert value[i] == "$(call "[i - start];
      } else {
        assert value[i] == body[i - start - 7];
        if i - start - 7 >= 21 {
          assert body[i - start - 7] == dir[i - start - 28];
        }
      }
    }
    IndexOfIs(value, ')', start, start + len - 1);
  }

  /** The parameters of a Java-files call name its directory, trimmed. */
  lemma CallParams(dir: string)
    requires ',' !in dir
    ensures CallSources(JavaFilesUnder + "," + dir) == [Trim(dir)]
  {
    var parts := SplitOnce(JavaFilesUnder + "," + dir, ',');
    SplitJavaFiles(dir);
    TrimPlain(JavaFilesUnder);
    assert Trim(parts[0]) == JavaFilesUnder;
  }

  lemma SplitJavaFiles(dir: string)
    requires ',' !in dir
    ensures SplitOnce(JavaFilesUnder + "," + dir, ',') == [JavaFilesUnder, dir]
  {
    var body := JavaFilesUnder + "," + dir;
    IndexOfIs(body, ',', 0, 20);
    assert body[..20] == JavaFilesUnder;
    assert body[21..] == dir;
  }


  /** A value made of a plain token `x`, then a call that lists the Java files under `s`. */
  predicate TokenThenCall(v: string) {
    v == "x " + JavaFilesCall("s")
  }

  /** The plain token `x` comes first, whichever offset calls are read from. */
  lemma ScanLeadingToken(v: string, asWritten: bool)
    requires TokenThenCall(v)
    ensures |v| == 32 && StartsWithAt(v, JavaFilesCall("s"), 2)
    ensures SourcesFrom(v, 0, asWritten) == Prefixed(["x"], SourcesFrom(v, 2, asWritten))
  {
    IndexOfIs(v, ' ', 0, 1);
    assert v[0..1] == "x";
    assert v[2..32] == JavaFilesCall("s");
    assert ScanToken(v, 0, asWritten) == Success(Scan(["x"], 2));
  }

  /** Read from offset 7 of the whole value, the parameters start inside `$(call`. */
  lemma MisreadParams()
    ensures CallSources("l " + (JavaFilesUnder + ",s")) == []
  {
    var kind := "l " + JavaFilesUnder;
    var p := kind + ",s";
    assert p == "l " + (JavaFilesUnder + ",s");
    assert p[22] == ',';
    assert forall i :: 0 <= i < 22 ==> p[i] == kind[i];
    assert ',' !in kind;
    IndexOfIs(p, ',', 0, 22);
    assert p[..22] == kind;
    assert kind[0] == 'l' && kind[21] == 'r';
    TrimPlain(kind);
    assert |kind| != |JavaFilesUnder|;
  }

  /**
   * As written, a call that is not at the start of the value has its
   * parameters read from the wrong place: `x $(call all-java-files-under,s)`
   * yields only `x`.
   */
  lemma CallOffsetAsWritten(v: string)
    requires TokenThenCall(v)
    ensures SourcesFrom(v, 0, true) == Success(["x"])
  {
    ScanLeadingToken(v, true);
    CallMisread(v);
    assert ["x"] + [] == ["x"];
  }

  /** As written, the call in `x $(call all-java-files-under,s)` contributes nothing. */
  lemma CallMisread(v: string)
    requires TokenThenCall(v)
    ensures SourcesFrom(v, 2, true) == Success([])
  {
    MisreadSlice(v);
    MisreadParams();
    ScanCall(v, 2, 31, true, []);
    SourcesStep(v, 2, true, [], 32);
    assert SourcesFrom(v, 32, true) == Success([]);
    PrefixedEmpty<string, string>(Success([]));
  }

  /** Offset 7 of the value falls on the `l ` at the end of `$(call `. */
  lemma MisreadSlice(v: string)
    requires TokenThenCall(v)
    ensures |v| == 32 && StartsWithAt(v, "$(call ", 2) && IndexOf(v, ')', 2) == 31
    ensures v[7..31] == "l " + (JavaFilesUnder + ",s")
  {
    assert |v| == 32 && v[2..32] == JavaFilesCall("s");
    CallClose(v, 2, "s");
    assert v[9..31] == JavaFilesUnder + ",s";
    assert v[7] == 'l' && v[8] == ' ' by {
      assert v[2..9] == "$(call ";
      assert v[7] == v[2..9][5] && v[8] == v[2..9][6];
    }
    assert v[7..31] == [v[7], v[8]] + v[9..31];
  }

  /** The same value, scanned as intended, yields both `x` and the directory `s`. */
  lemma CallOffsetCorrected(v: string)
    requires TokenThenCall(v)
    ensures SourcesFrom(v, 0, false) == Success(["x", "s"])
  {
    ScanLeadingToken(v, false);
    CallAnywhere(v, 2, "s", 32);
    TrimPlain("s");
    assert SourcesFrom(v, 32, false) == Success([]);
    assert ["x"] + (["s"] + []) == ["x", "s"];
  }

  /**
   * As intended, a call contributes its trimmed directory wherever it
   * stands in the value, and the scan resumes at `next`, just past it.
   */
  lemma CallAnywhere(value: string, start: nat, dir: string, next: nat)
    requires ')' !in dir && ',' !in dir
    requires StartsWithAt(value, JavaFilesCall(dir), start) && next == start + |JavaFilesCall(dir)|
    ensures SourcesFrom(value, start, false) == Prefixed([Trim(dir)], SourcesFrom(value, next, false))
  {
    CallClose(value, start, dir);
    var end := next - 1;
    assert end == start + |dir| + 28;
    assert value[start + 7..end] == JavaFilesUnder + "," + dir;
    CallParams(dir);
    ScanCall(value, start, end, false, [Trim(dir)]);
    SourcesStep(value, start, false, [Trim(dir)], next);
  }

  /** The scan continues from where each step resumes. */
  lemma SourcesStep(value: string, start: nat, asWritten: bool, found: seq<string>, next: nat)
    requires start < |value| && ScanToken(value, start, asWritten) == Success(Scan(found, next))
    ensures SourcesFrom(value, start, asWritten) == Prefixed(found, SourcesFrom(value, next, asWritten))
  {
  }

  /** The scan step at a call closed at `end`: what its parameters name, resuming past the `)`. */
  lemma ScanCall(value: string, start: nat, end: nat, asWritten: bool, found: seq<string>)
    requires StartsWithAt(value, "$(call ", start) && IndexOf(value, ')', start) == end
    requires (if asWritten then 7 else start + 7) <= end
    requires CallSources(value[(if asWritten then 7 else start + 7)..end]) == found
    ensures start < |value|
    ensures ScanToken(value, start, asWritten) == Success(Scan(found, end + 1))
  {
    ScanAtCall(value, start, asWritten);
  }

  /** A `$(call ` at `start` is scanned as a call. */
  lemma ScanAtCall(value: string, start: nat, asWritten: bool)
    requires StartsWithAt(value, "$(call ", start)
    ensures start < |value|
    ensures ScanToken(value, start, asWritten) == ScanCallAt(value, start, asWritten)
  {
    assert value[start] == value[start..start + 7][0];
  }

  /** Text without surrounding whitespace is its own trim. */
  lemma TrimPlain(s: string)
    requires |s| > 0 && !IsWhitespace(s[0]) && !IsWhitespace(s[|s| - 1])
    ensures Trim(s) == s
  {
  }

  /** A value of plain file names yields its non-empty space-separated tokens, in order. */
  lemma {:induction false} PlainSources(value: string, start: nat)
    requires '$' !in value
    ensures SourcesFrom(value, start, false) == Success(NonEmpty(SplitFrom(value, start)))
    decreases |value| - start
  {
    if start < |value| {
      assert value[start] != '$' by {
        assert value[start] in value;
      }
      var next := IndexOf(value, ' ', start);
      var end := if next == -1 then |value| else next;
      PlainSources(value, end + 1);
    }
  }

  /** The space-separated tokens of the value from `start` (empty ones included). */
  function SplitFrom(value: string, start: nat): seq<string>
    decreases |value| - start
  {
    if start >= |value| then []
    else
      var next := IndexOf(value, ' ', start);
      var end := if next == -1 then |value| else next;
      [value[start..end]] + SplitFrom(value, end + 1)
  }

  function NonEmpty(tokens: seq<string>): (r: seq<string>)
    ensures forall t :: t in r <==> t in tokens && t != ""
  {
    if tokens == [] then [] else (if tokens[0] != "" then [tokens[0]] else []) + NonEmpty(tokens[1..])
  }

  // ---------------------------------------------------------------- parameters and build

  /** `param(name, value, action)`: the variables the reader understands; others are ignored. */
  function ParamStep(b: Builder, name: string, value: string, action: VariableAction): (r: Result<Builder, string>)
    ensures r.Success? && name != "LOCAL_MODULE" && name != "LOCAL_PACKAGE_NAME" ==> r.value.name == b.name
    ensures r.Success? ==> r.value.typeName == b.typeName
  {
    if name == "LOCAL_MODULE" || name == "LOCAL_PACKAGE_NAME" then Success(b.(name := Some(value)))
    else if name == "LOCAL_STATIC_ANDROID_LIBRARIES" then Success(AssignValue(b, "android_static_libs", Split(value, ' '), action))
    else if name == "LOCAL_STATIC_JAVA_LIBRARIES" then Success(AssignValue(b, "java_static_libs", Split(value, ' '), action))
    else if name == "LOCAL_JAVA_LIBRARIES" then Success(AssignValue(b, "libs", Split(value, ' '), action))
    else if name == "LOCAL_SRC_FILES" then
      match SourcesFrom(value, 0, false)
      case Failure(e) => Failure(e)
      case Success(sources) => Success(AssignValue(b, "srcs", sources, action))
    else if name == "LOCAL_RESOURCE_DIR" then
      Success(AssignValue(b, "resource_dirs", ResourceDirs(Split(value, ' ')), action))
    else Success(b)
  }

  /** `LOCAL_MODULE` and `LOCAL_PACKAGE_NAME` both name the module; the later one wins. */
  lemma LastNameWins(b: Builder, first: string, second: string, x: string, y: string, a1: VariableAction, a2: VariableAction)
    requires first in {"LOCAL_MODULE", "LOCAL_PACKAGE_NAME"} && second in {"LOCAL_MODULE", "LOCAL_PACKAGE_NAME"}
    ensures ParamStep(b, first, x, a1).Success?
    ensures ParamStep(ParamStep(b, first, x, a1).value, second, y, a2) == Success(b.(name := Some(y)))
  {
  }

  /** Unknown variables leave the module unchanged. */
  lemma UnknownVariableIgnored(b: Builder, name: string, value: string, action: VariableAction)
    requires name !in {"LOCAL_MODULE", "LOCAL_PACKAGE_NAME", "LOCAL_STATIC_ANDROID_LIBRARIES",
                       "LOCAL_STATIC_JAVA_LIBRARIES", "LOCAL_JAVA_LIBRARIES", "LOCAL_SRC_FILES", "LOCAL_RESOURCE_DIR"}
    ensures ParamStep(b, name, value, action) == Success(b)
  {
  }

  /** Android static libraries, then Java static libraries. */
  function StaticLibs(values: map<string, seq<string>>): seq<string> {
    (if "android_static_libs" in values then values["android_static_libs"] else [])
    + (if "java_static_libs" in values then values["java_static_libs"] else [])
  }

  /** The variables as module members: every one a list of strings. */
  function Members(values: map<string, seq<string>>): (m: map<string, AnyValue>)
    ensures m.Keys == values.Keys
    ensures forall k :: k in values ==> m[k] == List(StrList(values[k]))
  {
    map k | k in values :: List(StrList(values[k]))
  }

  /**
   * `build(path, relativePath)`: nothing unless the module has both a name
   * and a type; `static_libs` joins the Android and Java static libraries; a
   * static Java library with resources is an Android library.
   */
  function BuildSpec(b: Builder, absoluteDir: string, relativeDir: string): (r: Option<Blueprint>)
    ensures r.Some? <==> b.name.Some? && b.typeName.Some?
  {
    if b.name.None? || b.typeName.None? then None
    else
      var values := b.values["static_libs" := StaticLibs(b.values)];
      var t := if b.typeName.value == "java_library_static" && "resource_dirs" in values then "android_library" else b.typeName.value;
      Some(Blueprint(b.name.value, t, Members(values), absoluteDir, relativeDir, true))
  }

  /** What a built module holds: its name, static libraries, adjusted type, and the make origin. */
  lemma BuiltModule(b: Builder, absoluteDir: string, relativeDir: string)
    requires b.name.Some? && b.typeName.Some?
    ensures var r := BuildSpec(b, absoluteDir, relativeDir).value;
      && r.name == b.name.value && r.isFromKati && r.relativeDir == relativeDir
      && StringList(Get(r.members, "static_libs")) == Some(StaticLibs(b.values))
      && (r.typeName == if b.typeName.value == "java_library_static" && "resource_dirs" in b.values
                        then "android_library" else b.typeName.value)
      && forall k :: k in b.values && k != "static_libs" ==> StringList(Get(r.members, k)) == Some(b.values[k])
  {
    var r := BuildSpec(b, absoluteDir, relativeDir).value;
    var values := b.values["static_libs" := StaticLibs(b.values)];
    StringsOfStrings(StaticLibs(b.values));
    forall k | k in b.values && k != "static_libs"
      ensures StringList(Get(r.members, k)) == Some(b.values[k])
    {
      StringsOfStrings(b.values[k]);
    }
  }

  /** The module under construction, updated in place as lines are read. */
  class BlueprintBuilder {
    var name: Option<string>
    var typeName: Option<string>
    var values: map<string, seq<string>>

    function State(): Builder
      reads this
    {
      Builder(name, typeName, values)
    }

    constructor ()
      ensures State() == EmptyBuilder
    {
      name := None;
      typeName := None;
      values := map[];
    }

    /** `type(type)` */
    method SetType(t: string)
      modifies this
      ensures State() == old(State()).(typeName := Some(t))
    {
      typeName := Some(t);
    }

    /** `assign(key, value, action)` */
    method AssignVar(key: string, value: seq<string>, action: VariableAction)
      modifies this
      ensures State() == AssignValue(old(State()), key, value, action)
    {
      match action {
        case Create =>
          values := values[key := value];
        case Append =>
          if key in values {
            values := values[key := values[key] + value];
          }
        case Assign =>
          if "static_libs" !in values {
            values := values[key := value];
          }
      }
    }

    /** `addSource(value, action)`; an unclosed call throws before anything changes. */
    method AddSource(value: string, action: VariableAction) returns (error: Option<string>)
      modifies this
      ensures SourcesFrom(value, 0, false).Failure? ==>
        error == Some(SourcesFrom(value, 0, false).error) && State() == old(State())
      ensures SourcesFrom(value, 0, false).Success? ==>
        error.None? && State() == AssignValue(old(State()), "srcs", SourcesFrom(value, 0, false).value, action)
    {
      var sources := CollectSources(value, false);
      if sources.Failure? {
        return Some(sources.error);
      }
      AssignVar("srcs", sources.value, action);
      error := None;
    }

    /** `param(name, value, action)` */
    method Param(name: string, value: string, action: VariableAction) returns (error: Option<string>)
      modifies this
      ensures ParamStep(old(State()), name, value, action).Failure? ==>
        error == Some(ParamStep(old(State()), name, value, action).error)
      ensures ParamStep(old(State()), name, value, action).Success? ==>
        error.None? && State() == ParamStep(old(State()), name, value, action).value
    {
      error := None;
      if name == "LOCAL_MODULE" || name == "LOCAL_PACKAGE_NAME" {
        this.name := Some(value);
      } else if name == "LOCAL_STATIC_ANDROID_LIBRARIES" {
        AssignVar("android_static_libs", Split(value, ' '), action);
      } else if name == "LOCAL_STATIC_JAVA_LIBRARIES" {
        AssignVar("java_static_libs", Split(value, ' '), action);
      } else if name == "LOCAL_JAVA_LIBRARIES" {
        AssignVar("libs", Split(value, ' '), action);
      } else if name == "LOCAL_SRC_FILES" {
        error := AddSource(value, action);
      } else if name == "LOCAL_RESOURCE_DIR" {
        AssignVar("resource_dirs", ResourceDirs(Split(value, ' ')), action);
      }
    }

    /** `build(path, relativePath)`: also stores `static_libs` in the builder's own variables. */
    method Build(absoluteDir: string, relativeDir: string) returns (r: Option<Blueprint>)
      modifies this
      ensures r == BuildSpec(old(State()), absoluteDir, relativeDir)
      ensures r.Some? ==> State() == old(State()).(values := old(values)["static_libs" := StaticLibs(old(values))])
      ensures r.None? ==> State() == old(State())
    {
      if name.None? || typeName.None? {
        return None;
      }
      var staticLibs: seq<string> := [];
      if "android_static_libs" in values {
        staticLibs := staticLibs + values["android_static_libs"];
      }
      assert staticLibs == if "android_static_libs" in values then values["android_static_libs"] else [];
      if "java_static_libs" in values {
        staticLibs := staticLibs + values["java_static_libs"];
      }
      assert staticLibs == StaticLibs(values);
      values := values["static_libs" := staticLibs];
      var t := typeName.value;
      if t == "java_library_static" && "resource_dirs" in values {
        t := "android_library";
      }
      r := Some(Blueprint(name.value, t, Members(values), absoluteDir, relativeDir, true));
    }
  }

  // ---------------------------------------------------------------- lines

  /** A variable line: the variable's name, its value, and the operator. */
  datatype Assignment = Assignment(name: string, value: string, action: VariableAction)

  /**
   * The split of a line at its first `=`: the character before it selects
   * the operator; the name is right-trimmed and the value trimmed. A line
   * starting with `=` has no last character before it and throws.
   */
  function Classify(line: string): (r: Result<Option<Assignment>, string>)
    ensures '=' !in line ==> r == Success(None)
  {
    var variable := SplitOnce(line, '=');
    if |variable| != 2 then Success(None)
    else if variable[0] == "" then Failure("Char sequence is empty.")
    else
      var lhs := variable[0];
      var last := lhs[|lhs| - 1];
      if last == ':' then Success(Some(Assignment(TrimEnd(lhs[..|lhs| - 1]), Trim(variable[1]), Create)))
      else if last == '+' then Success(Some(Assignment(TrimEnd(lhs[..|lhs| - 1]), Trim(variable[1]), Append)))
      else Success(Some(Assignment(TrimEnd(lhs), Trim(variable[1]), Assign)))
  }

  /** A line splits at its first `=`. */
  lemma SplitAtEquals(lhs: string, value: string)
    requires '=' !in lhs
    ensures SplitOnce(lhs + "=" + value, '=') == [lhs, value]
  {
    var line := lhs + "=" + value;
    assert line[|lhs|] == '=';
    assert forall i :: 0 <= i < |lhs| ==> line[i] == lhs[i];
    IndexOfIs(line, '=', 0, |lhs|);
    assert line[..|lhs|] == lhs;
    assert line[|lhs| + 1..] == value;
  }

  /** `NAME := v`, `NAME += v` and `NAME = v` classify by the character before the first `=`. */
  lemma ClassifyOperators(name: string, op: string, value: string)
    requires '=' !in name && |name| > 0
    requires op == ":" || op == "+" || (op == "" && name[|name| - 1] != ':' && name[|name| - 1] != '+')
    ensures Classify(name + op + "=" + value) ==
      Success(Some(Assignment(TrimEnd(name), Trim(value),
                              if op == ":" then Create else if op == "+" then Append else Assign)))
  {
    var lhs := name + op;
    assert name + op + "=" + value == lhs + "=" + value;
    assert '=' !in lhs;
    ClassifySplit(lhs, value);
    if op != "" {
      assert lhs[..|lhs| - 1] == name;
    } else {
      assert lhs == name;
    }
  }

  /** A line whose first `=` follows a non-empty left side, classified by that side's last character. */
  lemma ClassifySplit(lhs: string, value: string)
    requires '=' !in lhs && |lhs| > 0
    ensures var last := lhs[|lhs| - 1];
      Classify(lhs + "=" + value) ==
        if last == ':' then Success(Some(Assignment(TrimEnd(lhs[..|lhs| - 1]), Trim(value), Create)))
        else if last == '+' then Success(Some(Assignment(TrimEnd(lhs[..|lhs| - 1]), Trim(value), Append)))
        else Success(Some(Assignment(TrimEnd(lhs), Trim(value), Assign)))
  {
    SplitAtEquals(lhs, value);
  }

  /** A line without `=` that is not blank, a comment or an `include` changes nothing. */
  lemma NoEqualsIgnored(st: ParseState, line: string, absoluteDir: string, relativeDir: string)
    requires '=' !in line && !StartsWith(line, "include ")
    ensures LineStep(st, line, absoluteDir, relativeDir) == Success(st)
  {
  }

  /** The reader's state between lines: the module under construction and the modules built so far. */
  datatype ParseState = ParseState(builder: Builder, result: seq<Blueprint>)

  /** The modules so far, with the built one when there is one. */
  function WithBuilt(result: seq<Blueprint>, built: Option<Blueprint>): seq<Blueprint> {
    if built.Some? then result + [built.value] else result
  }

  /**
   * An `include` line's target: `$(CLEAR_VARS)` builds the current module,
   * keeps it when it has a name and a type, and starts a fresh one; the
   * `$(BUILD_…)` targets set the type; any other target is ignored.
   */
  function IncludeStep(st: ParseState, target: string, absoluteDir: string, relativeDir: string): ParseState {
    if target == "$(CLEAR_VARS)" then
      ParseState(EmptyBuilder, WithBuilt(st.result, BuildSpec(st.builder, absoluteDir, relativeDir)))
    else if target == "$(BUILD_STATIC_JAVA_LIBRARY)" then st.(builder := st.builder.(typeName := Some("java_library_static")))
    else if target == "$(BUILD_PACKAGE)" then st.(builder := st.builder.(typeName := Some("android_app")))
    else if target == "$(BUILD_HOST_JAVA_LIBRARY)" then st.(builder := st.builder.(typeName := Some("java_library_host")))
    else st
  }

  /** A variable line: assigns the variable when the line has an `=`. */
  function VariableStep(st: ParseState, line: string): Result<ParseState, string> {
    match Classify(line)
    case Failure(e) => Failure(e)
    case Success(None) => Success(st)
    case Success(Some(a)) =>
      match ParamStep(st.builder, a.name, a.value, a.action)
      case Failure(e) => Failure(e)
      case Success(b) => Success(st.(builder := b))
  }

  /** One logical line: blank and `#` lines are skipped; then `include` lines, then variable lines. */
  function LineStep(st: ParseState, line: string, absoluteDir: string, relativeDir: string): Result<ParseState, string> {
    if IsBlank(line) || StartsWith(line, "#") then Success(st)
    else if StartsWith(line, "include ") then
      var subject := SplitOnce(line, ' ');
      if |subject| > 1 then Success(IncludeStep(st, Trim(subject[1]), absoluteDir, relativeDir))
      else Success(st)
    else VariableStep(st, line)
  }

  /** The lines read in order, from a fresh module; the first error ends the read. */
  function ParseLines(lines: seq<string>, absoluteDir: string, relativeDir: string): Result<ParseState, string>
    decreases |lines|
  {
    if lines == [] then Success(ParseState(EmptyBuilder, []))
    else
      match ParseLines(lines[..|lines| - 1], absoluteDir, relativeDir)
      case Failure(e) => Failure(e)
      case Success(st) => LineStep(st, lines[|lines| - 1], absoluteDir, relativeDir)
  }

  /** `parse`: nothing when the file's directory has no path relative to the source root. */
  function ParseMakefile(lines: seq<string>, absoluteDir: string, relativeDir: Option<string>): (r: Result<seq<Blueprint>, string>) {
    if relativeDir.None? then Success([])
    else
      match ParseLines(lines, absoluteDir, relativeDir.value)
      case Failure(e) => Failure(e)
      case Success(st) => Success(st.result)
  }

  /** An error ends the read: no later line changes it. */
  lemma {:induction false} ParseFailureSticks(lines: seq<string>, k: nat, absoluteDir: string, relativeDir: string)
    requires k <= |lines| && ParseLines(lines[..k], absoluteDir, relativeDir).Failure?
    ensures ParseLines(lines, absoluteDir, relativeDir) == ParseLines(lines[..k], absoluteDir, relativeDir)
    decreases |lines|
  {
    if k == |lines| {
      assert lines[..k] == lines;
    } else {
      var init := lines[..|lines| - 1];
      assert init[..k] == lines[..k];
      ParseFailureSticks(init, k, absoluteDir, relativeDir);
    }
  }

  /** `include` lines: a new builder object for `$(CLEAR_VARS)`, the type otherwise. */
  method Include(blueprint: BlueprintBuilder, result: seq<Blueprint>, target: string, absoluteDir: string, relativeDir: string)
    returns (next: BlueprintBuilder, nextResult: seq<Blueprint>)
    modifies blueprint
    ensures next == blueprint || fresh(next)
    ensures ParseState(next.State(), nextResult)
         == IncludeStep(ParseState(old(blueprint.State()), result), target, absoluteDir, relativeDir)
  {
    next, nextResult := blueprint, result;
    if target == "$(CLEAR_VARS)" {
      var built := blueprint.Build(absoluteDir, relativeDir);
      if built.Some? {
        nextResult := result + [built.value];
      }
      next := new BlueprintBuilder();
    } else if target == "$(BUILD_STATIC_JAVA_LIBRARY)" {
      blueprint.SetType("java_library_static");
    } else if target == "$(BUILD_PACKAGE)" {
      blueprint.SetType("android_app");
    } else if target == "$(BUILD_HOST_JAVA_LIBRARY)" {
      blueprint.SetType("java_library_host");
    }
  }

  /** One line of `parse`, against the builder object of the module being read. */
  method ParseLine(blueprint: BlueprintBuilder, result: seq<Blueprint>, line: string, absoluteDir: string, relativeDir: string)
    returns (next: BlueprintBuilder, nextResult: seq<Blueprint>, error: Option<string>)
    modifies blueprint
    ensures next == blueprint || fresh(next)
    ensures LineStep(ParseState(old(blueprint.State()), result), line, absoluteDir, relativeDir).Failure? ==>
      error == Some(LineStep(ParseState(old(blueprint.State()), result), line, absoluteDir, relativeDir).error)
    ensures LineStep(ParseState(old(blueprint.State()), result), line, absoluteDir, relativeDir).Success? ==>
      error.None? &&
      ParseState(next.State(), nextResult) == LineStep(ParseState(old(blueprint.State()), result), line, absoluteDir, relativeDir).value
  {
    next, nextResult, error := blueprint, result, None;
    if IsBlank(line) || StartsWith(line, "#") {
      return;
    }
    if StartsWith(line, "include ") {
      var subject := SplitOnce(line, ' ');
      if |subject| > 1 {
        next, nextResult := Include(blueprint, result, Trim(subject[1]), absoluteDir, relativeDir);
      }
      return;
    }
    var variable := Classify(line);
    if variable.Failure? {
      return next, nextResult, Some(variable.error);
    }
    if variable.value.Some? {
      var a := variable.value.value;
      error := blueprint.Param(a.name, a.value, a.action);
    }
  }

  /** `parse`: one builder object at a time, replaced at each `$(CLEAR_VARS)`. */
  method Parse(lines: seq<string>, absoluteDir: string, relativeDir: Option<string>) returns (r: Result<seq<Blueprint>, string>)
    ensures r == ParseMakefile(lines, absoluteDir, relativeDir)
  {
    if relativeDir.None? {
      return Success([]);
    }
    var rel := relativeDir.value;
    var result: seq<Blueprint> := [];
    var blueprint := new BlueprintBuilder();
    var i := 0;
    while i < |lines|
      invariant 0 <= i <= |lines|
      invariant fresh(blueprint)
      invariant ParseLines(lines[..i], absoluteDir, rel) == Success(ParseState(blueprint.State(), result))
      decreases |lines| - i
    {
      assert lines[..i + 1][..i] == lines[..i];
      var error;
      blueprint, result, error := ParseLine(blueprint, result, lines[i], absoluteDir, rel);
      if error.Some? {
        ParseFailureSticks(lines, i + 1, absoluteDir, rel);
        return Failure(error.value);
      }
      i := i + 1;
    }
    assert lines[..i] == lines;
    r := Success(result);
  }

  /** Reading one more line is one more step. */
  lemma ParseLinesSnoc(lines: seq<string>, line: string, absoluteDir: string, relativeDir: string)
    ensures ParseLines(lines + [line], absoluteDir, relativeDir)
         == if ParseLines(lines, absoluteDir, relativeDir).Failure? then ParseLines(lines, absoluteDir, relativeDir)
            else LineStep(ParseLines(lines, absoluteDir, relativeDir).value, line, absoluteDir, relativeDir)
  {
    assert (lines + [line])[..|lines|] == lines;
  }

  /** Whether a line is `include` followed by the given target (trimmed). */
  predicate IncludesTarget(line: string, target: string) {
    StartsWith(line, "include ") && |SplitOnce(line, ' ')| > 1 && Trim(SplitOnce(line, ' ')[1]) == target
  }

  /**
   * A module is kept only when a later `$(CLEAR_VARS)` builds it: lines
   * with no `$(CLEAR_VARS)` never add a module.
   */
  lemma {:induction false} NoClearNoModule(lines: seq<string>, tail: seq<string>, absoluteDir: string, relativeDir: string)
    requires forall i :: 0 <= i < |tail| ==> !IncludesTarget(tail[i], "$(CLEAR_VARS)")
    requires ParseLines(lines + tail, absoluteDir, relativeDir).Success?
    ensures ParseLines(lines, absoluteDir, relativeDir).Success?
    ensures ParseLines(lines + tail, absoluteDir, relativeDir).value.result == ParseLines(lines, absoluteDir, relativeDir).value.result
    decreases |tail|
  {
    if tail == [] {
      assert lines + tail == lines;
    } else {
      var init := tail[..|tail| - 1];
      var last := tail[|tail| - 1];
      assert lines + tail == (lines + init) + [last];
      assert forall i :: 0 <= i < |init| ==> !IncludesTarget(init[i], "$(CLEAR_VARS)") by {
        assert forall i :: 0 <= i < |init| ==> init[i] == tail[i];
      }
      ParseLinesSnoc(lines + init, last, absoluteDir, relativeDir);
      NoClearNoModule(lines, init, absoluteDir, relativeDir);
      LineKeepsResult(ParseLines(lines + init, absoluteDir, relativeDir).value, last, absoluteDir, relativeDir);
    }
  }

  /** Only a `$(CLEAR_VARS)` line adds a module. */
  lemma LineKeepsResult(st: ParseState, line: string, absoluteDir: string, relativeDir: string)
    requires !IncludesTarget(line, "$(CLEAR_VARS)")
    requires LineStep(st, line, absoluteDir, relativeDir).Success?
    ensures LineStep(st, line, absoluteDir, relativeDir).value.result == st.result
  {
    if IsBlank(line) || StartsWith(line, "#") {
    } else if StartsWith(line, "include ") {
      IncludeLine(st, line, absoluteDir, relativeDir);
    } else {
      VariableKeepsResult(st, line);
    }
  }

  /** A variable line changes only the module under construction. */
  lemma VariableKeepsResult(st: ParseState, line: string)
    requires VariableStep(st, line).Success?
    ensures VariableStep(st, line).value.result == st.result
  {
    var c := Classify(line);
    if c.Success? && c.value.Some? {
      var a := c.value.value;
      var p := ParamStep(st.builder, a.name, a.value, a.action);
      assert p.Success?;
      assert VariableStep(st, line) == Success(st.(builder := p.value));
    }
  }

  /** Each `$(CLEAR_VARS)` keeps the module read so far, when it has a name and a type, and starts afresh. */
  lemma ClearVarsEmits(lines: seq<string>, line: string, absoluteDir: string, relativeDir: string)
    requires IncludesTarget(line, "$(CLEAR_VARS)")
    requires ParseLines(lines, absoluteDir, relativeDir).Success?
    ensures var st := ParseLines(lines, absoluteDir, relativeDir).value;
      ParseLines(lines + [line], absoluteDir, relativeDir)
      == Success(ParseState(EmptyBuilder, WithBuilt(st.result, BuildSpec(st.builder, absoluteDir, relativeDir))))
  {
    ParseLinesSnoc(lines, line, absoluteDir, relativeDir);
    IncludeLine(ParseLines(lines, absoluteDir, relativeDir).value, line, absoluteDir, relativeDir);
  }

  /** An `include` line is neither blank nor a comment, and always has a target. */
  lemma IncludeLine(st: ParseState, line: string, absoluteDir: string, relativeDir: string)
    requires StartsWith(line, "include ")
    ensures |SplitOnce(line, ' ')| == 2
    ensures LineStep(st, line, absoluteDir, relativeDir) == Success(IncludeStep(st, Trim(SplitOnce(line, ' ')[1]), absoluteDir, relativeDir))
  {
    assert line[0] == 'i' && line[7] == ' ' by {
      assert line[..8] == "include ";
      assert line[0] == line[..8][0] && line[7] == line[..8][7];
    }
    assert !IsBlank(line);
    assert !StartsWith(line, "#");
  }

  // ---------------------------------------------------------------- physical lines

  /** The joining state: the logical line so far and the lines produced. */
  datatype Reading = Reading(current: string, output: seq<string>)

  /**
   * One physical line of `readMakefile`, trimmed: a trailing backslash
   * continues the logical line; a finished `include` of a path that is not a
   * variable is replaced by the lines of that file (`included`, empty when
   * it does not exist); other finished lines are produced as they are.
   */
  function ReadStep(rd: Reading, raw: string, included: string -> seq<string>): Result<Reading, string> {
    var line := Trim(raw);
    if EndsWith(line, "\\") then Success(rd.(current := rd.current + line[..|line| - 1]))
    else
      var current := rd.current + line;
      if StartsWith(current, "include ") then
        var value := TrimStart(current[8..]);
        if value == "" then Failure("String index out of range: 0")
        else if value[0] == '$' then Success(Reading("", rd.output + [current]))
        else Success(Reading("", rd.output + included(value)))
      else Success(Reading("", rd.output + [current]))
  }

  function ReadLines(lines: seq<string>, included: string -> seq<string>): Result<Reading, string>
    decreases |lines|
  {
    if lines == [] then Success(Reading("", []))
    else
      match ReadLines(lines[..|lines| - 1], included)
      case Failure(e) => Failure(e)
      case Success(rd) => ReadStep(rd, lines[|lines| - 1], included)
  }

  /** The logical lines of a file; a line still continued at the end is dropped. */
  function LogicalLines(lines: seq<string>, included: string -> seq<string>): (r: Result<seq<string>, string>) {
    match ReadLines(lines, included)
    case Failure(e) => Failure(e)
    case Success(rd) => Success(rd.output)
  }

  /** An error ends the read: no later line changes it. */
  lemma {:induction false} ReadFailureSticks(lines: seq<string>, k: nat, included: string -> seq<string>)
    requires k <= |lines| && ReadLines(lines[..k], included).Failure?
    ensures ReadLines(lines, included) == ReadLines(lines[..k], included)
    decreases |lines|
  {
    if k == |lines| {
      assert lines[..k] == lines;
    } else {
      var init := lines[..|lines| - 1];
      assert init[..k] == lines[..k];
      ReadFailureSticks(init, k, included);
    }
  }

  /** `readMakefile`: the logical lines, with a string builder for the line being continued. */
  method ReadMakefile(lines: seq<string>, included: string -> seq<string>) returns (r: Result<seq<string>, string>)
    ensures r == LogicalLines(lines, included)
  {
    var current := "";
    var output: seq<string> := [];
    var i := 0;
    while i < |lines|
      invariant 0 <= i <= |lines|
      invariant ReadLines(lines[..i], included) == Success(Reading(current, output))
      decreases |lines| - i
    {
      assert lines[..i + 1][..i] == lines[..i];
      var line := Trim(lines[i]);
      if EndsWith(line, "\\") {
        current := current + line[..|line| - 1];
      } else {
        current := current + line;
        if StartsWith(current, "include ") {
          var value := TrimStart(current[8..]);
          if value == "" {
            ReadFailureSticks(lines, i + 1, included);
            return Failure("String index out of range: 0");
          }
          if value[0] == '$' {
            output := output + [current];
          } else {
            output := output + included(value);
          }
        } else {
          output := output + [current];
        }
        current := "";
      }
      i := i + 1;
    }
    assert lines[..i] == lines;
    r := Success(output);
  }

  /** `parse` of a whole file: its logical lines, then the modules they define. */
  method ParseFile(lines: seq<string>, included: string -> seq<string>, absoluteDir: string, relativeDir: Option<string>)
    returns (r: Result<seq<Blueprint>, string>)
    ensures relativeDir.None? ==> r == Success([])
    ensures relativeDir.Some? && LogicalLines(lines, included).Failure? ==> r == Failure(LogicalLines(lines, included).error)
    ensures relativeDir.Some? && LogicalLines(lines, included).Success? ==>
      r == ParseMakefile(LogicalLines(lines, included).value, absoluteDir, relativeDir)
  {
    if relativeDir.None? {
      return Success([]);
    }
    var logical := ReadMakefile(lines, included);
    if logical.Failure? {
      return Failure(logical.error);
    }
    r := Parse(logical.value, absoluteDir, relativeDir);
  }

  /** A line ending in a backslash is joined to the next one without the backslash. */
  lemma ContinuationJoined(a: string, b: string, included: string -> seq<string>)
    requires EndsWith(Trim(a), "\\") && !EndsWith(Trim(b), "\\")
    requires !StartsWith(Trim(a)[..|Trim(a)| - 1] + Trim(b), "include ")
    ensures LogicalLines([a, b], included) == Success([Trim(a)[..|Trim(a)| - 1] + Trim(b)])
  {
    var first := Trim(a)[..|Trim(a)| - 1];
    assert [a, b][..1] == [a];
    assert [a][..0] == [];
    assert ReadLines([a], included) == ReadStep(Reading("", []), a, included);
    ContinuedStep(Reading("", []), a, included);
    assert "" + first == first;
    assert ReadLines([a, b], included) == ReadStep(Reading(first, []), b, included);
    FinishedStep(Reading(first, []), b, included);
    assert [] + [first + Trim(b)] == [first + Trim(b)];
  }

  /** A physical line ending in a backslash only extends the pending line. */
  lemma ContinuedStep(rd: Reading, raw: string, included: string -> seq<string>)
    requires EndsWith(Trim(raw), "\\")
    ensures ReadStep(rd, raw, included) == Success(Reading(rd.current + Trim(raw)[..|Trim(raw)| - 1], rd.output))
  {
  }

  /** A finished line that is not an `include` is produced as it is. */
  lemma FinishedStep(rd: Reading, raw: string, included: string -> seq<string>)
    requires !EndsWith(Trim(raw), "\\") && !StartsWith(rd.current + Trim(raw), "include ")
    ensures ReadStep(rd, raw, included) == Success(Reading("", rd.output + [rd.current + Trim(raw)]))
  {
  }

  /** A continuation on the last line is never finished, so it produces nothing. */
  lemma DanglingContinuationDropped(lines: seq<string>, last: string, included: string -> seq<string>)
    requires EndsWith(Trim(last), "\\") && ReadLines(lines, included).Success?
    ensures LogicalLines(lines + [last], included) == LogicalLines(lines, included)
  {
    assert (lines + [last])[..|lines|] == lines;
  }
}
