/**
 * The older module description used by the project-sync code and by the
 * `Android.mk` reader: a type name, a name and the raw member map, with
 * derived dependency sets, source and resource directories, and the paths
 * of the R file and resource package under the build output.
 *
 * Paths here are strings joined with `/`, as the source builds them.
 */
module Legacy {
  import opened Wrappers
  import opened Text
  import opened Values

  const AndroidTypes: set<string> := {"android_app", "android_library", "android_test", "android_test_helper_app"}
  const AndroidImportTypes: set<string> := {"android_library_import"}
  const JavaTypes: set<string> := {"java_binary", "java_binary_host", "java_library", "java_library_host",
                                   "java_library_static", "java_plugin", "java_sdk_library", "java_test",
                                   "java_test_helper_library", "java_defaults"}
  const JavaImportTypes: set<string> := {"java_import", "java_import_host"}

  /**
   * A module: `relativeDir` is the definition file's directory relative to
   * the source root, `absoluteDir` the same directory as an absolute path,
   * and `isFromKati` says whether it came from an `Android.mk` file.
   */
  datatype Blueprint = Blueprint(name: string, typeName: string, members: map<string, AnyValue>,
                                 absoluteDir: string, relativeDir: string, isFromKati: bool)

  /** Which part of the dependencies to list. */
  datatype DependenciesScope = All | Static | Dynamic

  /** `relativePath`: the module's own directory under the build output. */
  function RelativePath(b: Blueprint): string {
    b.relativeDir + "/" + b.name
  }

  /** The last `/` of `relativePath` separates the directory from a name without one. */
  lemma RelativePathSplits(b: Blueprint)
    requires '/' !in b.name
    ensures var p := RelativePath(b);
      LastIndexOf(p, '/') == |b.relativeDir| && p[..|b.relativeDir|] == b.relativeDir
      && p[|b.relativeDir| + 1..] == b.name
  {
    var p := RelativePath(b);
    var k := |b.relativeDir|;
    assert p[k] == '/';
    assert forall i :: k < i < |p| ==> p[i] == b.name[i - k - 1];
  }

  predicate IsAndroidProject(b: Blueprint) {
    b.typeName in AndroidTypes
  }

  predicate IsAndroidImport(b: Blueprint) {
    b.typeName in AndroidImportTypes
  }

  predicate IsJavaProject(b: Blueprint) {
    b.typeName in JavaTypes
  }

  /** `isJavaImport()` as written: it tests the Java project types. */
  predicate IsJavaImportAsWritten(b: Blueprint) {
    b.typeName in JavaTypes
  }

  /** `isJavaImport()` as evidently intended: the Java import types. */
  predicate IsJavaImport(b: Blueprint) {
    b.typeName in JavaImportTypes
  }

  /**
   * As written, `isJavaImport()` is `isJavaProject()`: it rejects the
   * `java_import` and `java_import_host` modules it is named for.
   */
  lemma JavaImportAsWritten(b: Blueprint)
    ensures IsJavaImportAsWritten(b) == IsJavaProject(b)
    ensures b.typeName in JavaImportTypes ==> !IsJavaImportAsWritten(b)
  {
  }

  /** The intended test accepts both import types and never a Java project. */
  lemma JavaImportCorrected(b: Blueprint)
    ensures b.typeName == "java_import" || b.typeName == "java_import_host" ==> IsJavaImport(b)
    ensures IsJavaImport(b) ==> !IsJavaProject(b) && !IsAndroidProject(b)
  {
  }

  /** `resApk()`: the resource package of an Android library import. */
  function ResApk(b: Blueprint): (r: Option<string>)
    ensures r.Some? <==> b.typeName == "android_library_import"
    ensures r.Some? ==> r.value == RelativePath(b) + "/android_common/package-res.apk"
  {
    if b.typeName == "android_library_import" then Some(b.relativeDir + "/" + b.name + "/android_common/package-res.apk")
    else None
  }

  /**
   * `R()`: the R file of an Android project, under the module's own output
   * directory for a Blueprint module and under the make intermediates for an
   * `Android.mk` one.
   */
  function RFile(b: Blueprint): (r: Option<string>)
    ensures r.Some? <==> IsAndroidProject(b)
    ensures r.Some? && !b.isFromKati ==> r.value == RelativePath(b) + "/android_common/R.txt"
    ensures r.Some? && b.isFromKati ==> r.value == "../../target/common/obj/JAVA_LIBRARIES/" + b.name + "_intermediates/R.txt"
  {
    if b.typeName !in AndroidTypes then None
    else if !b.isFromKati then Some(b.relativeDir + "/" + b.name + "/android_common/R.txt")
    else Some("../../target/common/obj/JAVA_LIBRARIES/" + b.name + "_intermediates/R.txt")
  }

  /** No module type has both an R file and a resource package. */
  lemma RAndResApkExclusive(b: Blueprint)
    ensures !(RFile(b).Some? && ResApk(b).Some?)
  {
  }

  // ---------------------------------------------------------------- dependencies

  /** The strings of a member that is a list, as a set (`toStringCollection`). */
  function StringSet(v: Option<AnyValue>): (r: set<string>)
    ensures forall s :: s in r <==> v.Some? && v.value.List? && Str(s) in v.value.items
  {
    if v.Some? && v.value.List? then set s | s in Strings(v.value.items) else {}
  }

  /** `members["no_standard_libs"] as? Boolean == true` */
  predicate NoStandardLibs(b: Blueprint) {
    Get(b.members, "no_standard_libs") == Some(Boolean(true))
  }

  /** The standard libraries added for the whole scope, by module type. */
  function StandardLibs(b: Blueprint): set<string> {
    if b.typeName in AndroidTypes then
      {"framework", "framework-res", "kotlin-stdlib"} + (if NoStandardLibs(b) then {} else {"core-all"})
    else if b.typeName in JavaTypes then
      {"kotlin-stdlib"} + (if NoStandardLibs(b) then {} else {"core-all"})
    else if b.typeName == "aidl_interface" || b.typeName == "java_sdk_library" then
      {"framework", "core-all"}
    else {}
  }

  /** The names hard-wired for one module: `services.core` has the framework injected. */
  function Hardcoded(b: Blueprint): set<string> {
    if b.name == "services.core" then {"framework"} else {}
  }

  /**
   * `dependencies(scope)` as a specification: the hard-wired names; the
   * standard libraries for the whole scope only; `libs` unless only static
   * ones are asked for; `static_libs` unless only dynamic ones are.
   */
  function DependencySet(b: Blueprint, scope: DependenciesScope): (r: set<string>) {
    Hardcoded(b)
    + (if scope == All then StandardLibs(b) else {})
    + (if scope != Static then StringSet(Get(b.members, "libs")) else {})
    + (if scope != Dynamic then StringSet(Get(b.members, "static_libs")) else {})
  }

  /** `toStringCollection(target)`: adds the strings of a list member, one by one. */
  method AddStrings(target: set<string>, v: Option<AnyValue>) returns (r: set<string>)
    ensures r == target + StringSet(v)
  {
    r := target;
    if v.Some? && v.value.List? {
      var items := v.value.items;
      for i := 0 to |items|
        invariant r == target + set s | s in Strings(items[..i])
      {
        StringsAppend(items[..i], [items[i]]);
        assert items[..i + 1] == items[..i] + [items[i]];
        assert [items[i]][1..] == [];
        if items[i].Str? {
          r := r + {items[i].s};
        }
      }
      assert items[..|items|] == items;
    }
  }

  /** `dependencies(scope)`: fills a set step by step. */
  method Dependencies(b: Blueprint, scope: DependenciesScope) returns (result: set<string>)
    ensures result == DependencySet(b, scope)
  {
    result := {};
    if b.name == "services.core" {
      result := result + {"framework"};
    }
    if scope == All {
      if b.typeName in AndroidTypes {
        result := result + {"framework", "framework-res"};
        if !NoStandardLibs(b) {
          result := result + {"core-all"};
        }
        result := result + {"kotlin-stdlib"};
      } else if b.typeName in JavaTypes {
        if !NoStandardLibs(b) {
          result := result + {"core-all"};
        }
        result := result + {"kotlin-stdlib"};
      } else if b.typeName == "aidl_interface" || b.typeName == "java_sdk_library" {
        result := result + {"framework", "core-all"};
      }
    }
    assert result == Hardcoded(b) + (if scope == All then StandardLibs(b) else {});
    if scope != Static {
      result := AddStrings(result, Get(b.members, "libs"));
    }
    if scope != Dynamic {
      result := AddStrings(result, Get(b.members, "static_libs"));
    }
  }

  /** The whole scope is the static and the dynamic scope together, plus the standard libraries. */
  lemma ScopesCombine(b: Blueprint)
    ensures DependencySet(b, All) == DependencySet(b, Static) + DependencySet(b, Dynamic) + StandardLibs(b)
  {
  }

  /**
   * A name listed only in `libs` is not a static dependency, and a name
   * listed only in `static_libs` is not a dynamic one (the framework of
   * `services.core` aside).
   */
  lemma ScopesSeparate(b: Blueprint, x: string)
    ensures (x in StringSet(Get(b.members, "libs")) && x !in StringSet(Get(b.members, "static_libs"))
             && x !in Hardcoded(b)) ==> x !in DependencySet(b, Static) && x in DependencySet(b, Dynamic)
    ensures (x in StringSet(Get(b.members, "static_libs")) && x !in StringSet(Get(b.members, "libs"))
             && x !in Hardcoded(b)) ==> x !in DependencySet(b, Dynamic) && x in DependencySet(b, Static)
  {
  }

  /** Outside the whole scope, every dependency is hard-wired or listed in the module. */
  lemma StandardOnlyInAll(b: Blueprint, scope: DependenciesScope, x: string)
    requires scope != All && x in DependencySet(b, scope)
    ensures x in Hardcoded(b) || x in StringSet(Get(b.members, "libs")) || x in StringSet(Get(b.members, "static_libs"))
  {
  }

  /**
   * For Android and Java modules, `no_standard_libs: true` removes exactly
   * `core-all` from the standard libraries.
   */
  lemma NoStandardLibsDropsCore(b: Blueprint)
    requires b.typeName in AndroidTypes || b.typeName in JavaTypes
    ensures NoStandardLibs(b) ==> "core-all" !in StandardLibs(b)
    ensures !NoStandardLibs(b) ==> "core-all" in StandardLibs(b)
    ensures StandardLibs(b) - {"core-all"} ==
      if b.typeName in AndroidTypes then {"framework", "framework-res", "kotlin-stdlib"} else {"kotlin-stdlib"}
  {
  }

  /**
   * `java_sdk_library` is a Java type, so it takes the Java branch and never
   * gets the framework there; the branch naming it is reached by
   * `aidl_interface` alone.
   */
  lemma SdkLibraryTakesJavaBranch(b: Blueprint)
    requires b.typeName == "java_sdk_library"
    ensures "framework" !in StandardLibs(b) && "kotlin-stdlib" in StandardLibs(b)
  {
  }

  /** `services.core` depends on the framework in every scope. */
  lemma ServicesCoreHasFramework(b: Blueprint, scope: DependenciesScope)
    requires b.name == "services.core"
    ensures "framework" in DependencySet(b, scope)
  {
  }

  /** `defaults()` */
  method Defaults(b: Blueprint) returns (result: set<string>)
    ensures forall s :: s in result <==> (Get(b.members, "defaults").Some? && Get(b.members, "defaults").value.List?
                                          && Str(s) in Get(b.members, "defaults").value.items)
  {
    result := AddStrings({}, Get(b.members, "defaults"));
  }

  // ---------------------------------------------------------------- source paths

  /**
   * The directory part `toSourcePaths` keeps of one entry that is not a
   * module reference: a Java or Kotlin file path with a `/` past its first
   * character is cut to its directory; a glob is cut at the last `/` before
   * its first `*`, or at the `*` itself.
   */
  function SourceDir(item: string): (r: string)
    ensures StartsWith(item, r) && '*' !in r
  {
    var pos := IndexOf(item, '*', 0);
    if pos < 0 then
      if EndsWith(item, ".java") || EndsWith(item, ".kt") then
        var end := LastIndexOf(item, '/');
        if end > 0 then item[..end] else item
      else item
    else
      var end := LastIndexOfAt(item, '/', pos);
      if end < 0 then item[..pos] else item[..end]
  }

  /** One entry of `toSourcePaths(base)`: a `:module` reference passes unchanged. */
  function SourcePath(item: string, base: string): (r: string)
    requires |item| > 0
  {
    if item[0] == ':' then item else base + "/" + SourceDir(item)
  }

  /**
   * `toSourcePaths(base)` over the strings of a list. Reading the first
   * character of an empty entry throws.
   */
  function SourcePathsOf(items: seq<string>, base: string): (r: Result<seq<string>, string>)
    ensures r.Success? <==> forall i :: 0 <= i < |items| ==> items[i] != ""
    ensures r.Success? ==> |r.value| == |items| && forall i :: 0 <= i < |items| ==> r.value[i] == SourcePath(items[i], base)
  {
    if items == [] then Success([])
    else if items[0] == "" then Failure("String index out of range: 0")
    else
      match SourcePathsOf(items[1..], base)
      case Failure(e) => Failure(e)
      case Success(rest) => Success([SourcePath(items[0], base)] + rest)
  }

  /** A module reference is kept as it is. */
  lemma ReferencePassesThrough(item: string, base: string)
    requires |item| > 0 && item[0] == ':'
    ensures SourcePath(item, base) == item
  {
  }

  /** A source file below a directory stands for that directory. */
  lemma SourceFileGivesDirectory(dir: string, file: string, ext: string, base: string)
    requires ext == ".java" || ext == ".kt"
    requires |dir| > 0 && dir[0] != ':' && '*' !in dir && '*' !in file && '/' !in file
    ensures SourcePath(dir + "/" + file + ext, base) == base + "/" + dir
  {
    var tail := file + ext;
    var item := dir + "/" + tail;
    assert item == dir + "/" + file + ext;
    NoStarInPath(dir, tail);
    LastSlashIsDirEnd(dir, tail);
    assert EndsWith(item, ext) by {
      assert item[|item| - |ext|..] == ext;
    }
    assert item[0] == dir[0];
  }

  /** No `*` in a path whose directory and file part have none. */
  lemma NoStarInPath(dir: string, tail: string)
    requires '*' !in dir && '*' !in tail
    ensures IndexOf(dir + "/" + tail, '*', 0) == -1
  {
    var item := dir + "/" + tail;
    assert forall i :: 0 <= i < |item| ==> item[i] == (if i < |dir| then dir[i] else if i == |dir| then '/' else tail[i - |dir| - 1]);
  }

  /** The last `/` of `dir/tail` is the one after `dir` when `tail` has none. */
  lemma LastSlashIsDirEnd(dir: string, tail: string)
    requires '/' !in tail
    ensures LastIndexOf(dir + "/" + tail, '/') == |dir|
    ensures (dir + "/" + tail)[..|dir|] == dir
  {
    var item := dir + "/" + tail;
    assert item[|dir|] == '/';
    assert forall i :: |dir| < i < |item| ==> item[i] == tail[i - |dir| - 1];
  }

  /** A glob stands for the directory before its first wildcard. */
  lemma GlobGivesDirectory(dir: string, pattern: string, base: string)
    requires |dir| > 0 && dir[0] != ':' && '*' !in dir
    requires '/' !in pattern && '*' in pattern
    ensures SourcePath(dir + "/" + pattern, base) == base + "/" + dir
  {
    var item := dir + "/" + pattern;
    assert item[0] == dir[0];
    var pos := IndexOf(item, '*', 0);
    assert pos >= 0 by {
      var j :| 0 <= j < |pattern| && pattern[j] == '*';
      assert item[|dir| + 1 + j] == '*';
    }
    assert forall i :: 0 <= i <= |dir| ==> item[i] != '*' by {
      assert forall i :: 0 <= i < |dir| ==> item[i] == dir[i];
    }
    var end := LastIndexOfAt(item, '/', pos);
    assert item[|dir|] == '/';
    assert forall i :: |dir| < i <= pos ==> item[i] == pattern[i - |dir| - 1];
    assert end == |dir|;
    assert item[..end] == dir;
  }

  /** `sources(relative)`: the paths of `srcs`, under the relative or the absolute directory. */
  function Sources(b: Blueprint, relative: bool): (r: Result<seq<string>, string>) {
    var base := if relative then b.relativeDir else b.absoluteDir;
    match StringList(Get(b.members, "srcs"))
    case None => Success([])
    case Some(items) => SourcePathsOf(items, base)
  }

  /**
   * `resources(relative)`: for apps and libraries, the paths of
   * `resource_dirs`, or of `res` when the member is not a list; nothing for
   * other types.
   */
  function Resources(b: Blueprint, relative: bool): (r: Result<seq<string>, string>) {
    var base := if relative then b.relativeDir else b.absoluteDir;
    if b.typeName == "android_app" || b.typeName == "android_library" then
      var dirs := StringList(Get(b.members, "resource_dirs"));
      SourcePathsOf(if dirs.Some? then dirs.value else ["res"], base)
    else Success([])
  }

  /** Apps and libraries without `resource_dirs` keep their resources in `res`; other types have none. */
  lemma DefaultResources(b: Blueprint, relative: bool)
    ensures (b.typeName == "android_app" || b.typeName == "android_library") && StringList(Get(b.members, "resource_dirs")).None?
      ==> Resources(b, relative) == Success([(if relative then b.relativeDir else b.absoluteDir) + "/res"])
    ensures !(b.typeName == "android_app" || b.typeName == "android_library") ==> Resources(b, relative) == Success([])
  {
    if (b.typeName == "android_app" || b.typeName == "android_library") && StringList(Get(b.members, "resource_dirs")).None? {
      var base := if relative then b.relativeDir else b.absoluteDir;
      assert IndexOf("res", '*', 0) == -1;
      assert !EndsWith("res", ".java") && !EndsWith("res", ".kt");
      assert SourceDir("res") == "res";
      assert ["res"][1..] == [];
      assert ["res"][0] == "res" && "res" != "";
      assert SourcePathsOf(["res"][1..], base) == Success([]);
      assert SourcePath("res", base) == base + "/res";
      var r := SourcePathsOf(["res"], base);
      assert r.Success?;
      assert |r.value| == 1 && r.value[0] == base + "/res";
      assert r.value == [base + "/res"];
    }
  }

  /**
   * `create(type, members, path, root)`: a module needs a string `name` and
   * a directory relative to the root (`relative`, computed by the IDE, none
   * when there is no relative path).
   */
  function Create(typeName: string, members: map<string, AnyValue>, absoluteDir: string, relative: Option<string>)
    : (r: Option<Blueprint>)
    ensures r.Some? <==> Get(members, "name").Some? && Get(members, "name").value.Str? && relative.Some?
    ensures r.Some? ==> (r.value.name == members["name"].s && RelativePath(r.value) == relative.value + "/" + members["name"].s
                         && r.value.typeName == typeName && r.value.members == members && !r.value.isFromKati)
  {
    match Get(members, "name")
    case Some(Str(name)) =>
      if relative.None? then None
      else Some(Blueprint(name, typeName, members, absoluteDir, relative.value, false))
    case _ => None
  }
}
