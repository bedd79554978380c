/**
 * The blueprint factory: from a module type name and the evaluated member map
 * of a blueprint to a typed record, with the defaults and the ordered
 * dependency list each record type gets.
 */
module Factory {
  import opened Wrappers
  import opened Text
  import opened Values
  import opened SourceSets
  import opened Records

  /** `values["name"] as? String` */
  function NameOf(values: map<string, AnyValue>): (name: Option<string>)
    ensures name.Some? <==> "name" in values && values["name"].Str?
  {
    match Get(values, "name")
    case Some(Str(s)) => Some(s)
    case _ => None
  }

  /** The source sets of the strings of list member `key`, or `default` when it is not a list. */
  function SourcesOf(values: map<string, AnyValue>, key: string, default: seq<SourceSet>): (r: seq<SourceSet>) {
    match StringList(Get(values, key))
    case Some(ss) => ToSourceSets(ss)
    case None => default
  }

  function ToSourceSets(ss: seq<string>): (r: seq<SourceSet>)
    ensures |r| == |ss| && forall i :: 0 <= i < |ss| ==> r[i] == SourceSetOf(ss[i])
  {
    if ss == [] then [] else [SourceSetOf(ss[0])] + ToSourceSets(ss[1..])
  }

  /** The strings of list member `key`, none when it is not a list. */
  function StringsOf(values: map<string, AnyValue>, key: string): seq<string> {
    match StringList(Get(values, key))
    case Some(ss) => ss
    case None => []
  }

  /** `prefix`, then the strings of `static_libs`, then those of `libs`. */
  function Dependencies(prefix: seq<string>, values: map<string, AnyValue>): seq<string> {
    prefix + StringsOf(values, "static_libs") + StringsOf(values, "libs")
  }

  /** The `libs` list: seeded with `prefix`, then one `add` per string of each list member. */
  method CollectLibs(prefix: seq<string>, values: map<string, AnyValue>) returns (libs: seq<string>)
    ensures libs == Dependencies(prefix, values)
  {
    libs := prefix;
    var staticLibs := StringsOf(values, "static_libs");
    for i := 0 to |staticLibs|
      invariant libs == prefix + staticLibs[..i]
    {
      libs := libs + [staticLibs[i]];
    }
    var dynamicLibs := StringsOf(values, "libs");
    for i := 0 to |dynamicLibs|
      invariant libs == prefix + staticLibs + dynamicLibs[..i]
    {
      libs := libs + [dynamicLibs[i]];
    }
  }

  /** `values["manifest"] as? String ?: "AndroidManifest.xml"` */
  function ManifestOf(values: map<string, AnyValue>): string {
    match Get(values, "manifest")
    case Some(Str(s)) => s
    case _ => "AndroidManifest.xml"
  }

  /** `values["privileged"] == true` */
  function PrivilegedOf(values: map<string, AnyValue>): bool {
    Get(values, "privileged") == Some(Boolean(true))
  }

  /** `backend.java.enabled == true`, through two nested maps. */
  function JavaBackendEnabled(values: map<string, AnyValue>): bool {
    match Get(values, "backend")
    case Some(Obj(backend)) =>
      (match Get(backend, "java")
       case Some(Obj(java)) => Get(java, "enabled") == Some(Boolean(true))
       case _ => false)
    case _ => false
  }

  /** The type names `create` knows; any other becomes an unsupported record. */
  const KnownTypes: set<string> := {
    "android_app", "android_library", "android_library_import", "java_defaults", "filegroup",
    "java_library", "java_library_host", "java_library_static", "java_import", "java_sdk_library",
    "sysprop_library", "aidl_interface"
  }

  /** `BlueprintsFactory.create`: without a string `name` there is no record; with one, every record carries it. */
  function Blueprint(typeName: string, values: map<string, AnyValue>, path: Path): (r: Option<Record>)
    ensures NameOf(values).None? ==> r == None
    ensures r.Some? ==> NameOf(values).Some? && r.value.name == NameOf(values).value
  {
    match NameOf(values)
    case None => None
    case Some(name) =>
      var srcs := SourcesOf(values, "srcs", []);
      if typeName == "android_app" then
        Some(AndroidApp(name, srcs, SourcesOf(values, "resource_dirs", [SourceSetOf("res")]),
                        SourcesOf(values, "asset_dirs", []), Dependencies(["framework", "framework-res"], values),
                        ManifestOf(values), PrivilegedOf(values), StringsOf(values, "defaults")))
      else if typeName == "android_library" then
        Some(AndroidLibrary(name, srcs, SourcesOf(values, "resource_dirs", [SourceSetOf("res")]),
                            SourcesOf(values, "asset_dirs", []), Dependencies(["framework", "framework-res"], values),
                            ManifestOf(values), StringsOf(values, "defaults")))
      else if typeName == "android_library_import" then
        Some(AndroidLibraryImport(name, Dependencies(["framework"], values)))
      else if typeName == "java_defaults" then
        Some(JavaDefault(name, srcs))
      else if typeName == "filegroup" then
        Some(FileGroup(name, srcs))
      else if typeName in {"java_library", "java_library_host", "java_library_static"} then
        Some(JavaLibrary(name, srcs, Dependencies([], values), StringsOf(values, "defaults")))
      else if typeName == "java_import" then
        Some(JavaImport(name, Jars(path, StringsOf(values, "jars"))))
      else if typeName == "java_sdk_library" then
        Some(JavaSdkLibrary(name, srcs, Dependencies(["framework"], values), StringsOf(values, "defaults")))
      else if typeName == "sysprop_library" then
        Some(SyspropLibrary(name, srcs))
      else if typeName == "aidl_interface" then
        if JavaBackendEnabled(values) then Some(AidlJavaInterface(name, srcs, Dependencies(["framework"], values)))
        else None
      else
        Some(Unsupported(name))
  }

  /** `File(path, jar)` for each jar. */
  function Jars(path: Path, jars: seq<string>): (files: seq<Path>)
    ensures |files| == |jars| && forall i :: 0 <= i < |jars| ==> files[i] == Child(path, jars[i])
  {
    if jars == [] then [] else [Child(path, jars[0])] + Jars(path, jars[1..])
  }

  /** The factory itself, building each dependency list with `CollectLibs`. */
  method Create(typeName: string, values: map<string, AnyValue>, path: Path) returns (r: Option<Record>)
    ensures r == Blueprint(typeName, values, path)
  {
    var name := NameOf(values);
    if name.None? {
      return None;
    }
    var srcs := SourcesOf(values, "srcs", []);
    if typeName == "android_app" || typeName == "android_library" {
      var libs := CollectLibs(["framework", "framework-res"], values);
      var resources := SourcesOf(values, "resource_dirs", [SourceSetOf("res")]);
      var assets := SourcesOf(values, "asset_dirs", []);
      if typeName == "android_app" {
        r := Some(AndroidApp(name.value, srcs, resources, assets, libs, ManifestOf(values), PrivilegedOf(values),
                             StringsOf(values, "defaults")));
      } else {
        r := Some(AndroidLibrary(name.value, srcs, resources, assets, libs, ManifestOf(values),
                                 StringsOf(values, "defaults")));
      }
    } else if typeName == "android_library_import" {
      var libs := CollectLibs(["framework"], values);
      r := Some(AndroidLibraryImport(name.value, libs));
    } else if typeName == "java_defaults" {
      r := Some(JavaDefault(name.value, srcs));
    } else if typeName == "filegroup" {
      r := Some(FileGroup(name.value, srcs));
    } else if typeName == "java_library" || typeName == "java_library_host" || typeName == "java_library_static" {
      var libs := CollectLibs([], values);
      r := Some(JavaLibrary(name.value, srcs, libs, StringsOf(values, "defaults")));
    } else if typeName == "java_import" {
      r := Some(JavaImport(name.value, Jars(path, StringsOf(values, "jars"))));
    } else if typeName == "java_sdk_library" {
      var libs := CollectLibs(["framework"], values);
      r := Some(JavaSdkLibrary(name.value, srcs, libs, StringsOf(values, "defaults")));
    } else if typeName == "sysprop_library" {
      r := Some(SyspropLibrary(name.value, srcs));
    } else if typeName == "aidl_interface" {
      var libs := CollectLibs(["framework"], values);
      if !JavaBackendEnabled(values) {
        return None;
      }
      r := Some(AidlJavaInterface(name.value, srcs, libs));
    } else {
      r := Some(Unsupported(name.value));
    }
  }

  // ---------------------------------------------------------------- properties

  /**
   * An unknown type name (`java_binary` among them) gives an unsupported
   * record, and the three Java library names give the same Java library.
   */
  lemma Dispatch(typeName: string, values: map<string, AnyValue>, path: Path)
    requires NameOf(values).Some?
    ensures typeName !in KnownTypes ==> Blueprint(typeName, values, path) == Some(Unsupported(NameOf(values).value))
    ensures Blueprint("java_binary", values, path) == Some(Unsupported(NameOf(values).value))
    ensures Blueprint("java_library_host", values, path) == Blueprint("java_library", values, path)
    ensures Blueprint("java_library_static", values, path) == Blueprint("java_library", values, path)
    ensures Blueprint("java_library", values, path).value.JavaLibrary?
    ensures typeName != "aidl_interface" ==> Blueprint(typeName, values, path).Some?
  {
    assert "java_binary" !in KnownTypes;
    UnknownType(typeName, values, path);
    UnknownType("java_binary", values, path);
    JavaLibraryAliases(values, path);
  }

  /** A name outside the known types falls through to the unsupported record. */
  lemma UnknownType(typeName: string, values: map<string, AnyValue>, path: Path)
    requires NameOf(values).Some?
    ensures typeName !in KnownTypes ==> Blueprint(typeName, values, path) == Some(Unsupported(NameOf(values).value))
    ensures typeName != "aidl_interface" ==> Blueprint(typeName, values, path).Some?
  {
  }

  /** The three Java library type names build the same record. */
  lemma JavaLibraryAliases(values: map<string, AnyValue>, path: Path)
    requires NameOf(values).Some?
    ensures Blueprint("java_library_host", values, path) == Blueprint("java_library", values, path)
    ensures Blueprint("java_library_static", values, path) == Blueprint("java_library", values, path)
    ensures Blueprint("java_library", values, path).value.JavaLibrary?
  {
  }

  /** An AIDL interface gives a record exactly when its Java backend is enabled. */
  lemma AidlNeedsJavaBackend(values: map<string, AnyValue>, path: Path)
    ensures Blueprint("aidl_interface", values, path).Some? <==> NameOf(values).Some? && JavaBackendEnabled(values)
    ensures JavaBackendEnabled(values) ==>
      && "backend" in values && values["backend"].Obj?
      && "java" in values["backend"].fields && values["backend"].fields["java"].Obj?
      && Get(values["backend"].fields["java"].fields, "enabled") == Some(Boolean(true))
  {
  }

  /**
   * Apps and libraries depend on `framework` and `framework-res`, then on
   * `static_libs`, then on `libs`; imports, SDK libraries and AIDL interfaces
   * start with `framework` alone; Java libraries have no implicit entry.
   */
  lemma DependencyOrder(typeName: string, values: map<string, AnyValue>, path: Path)
    requires Blueprint(typeName, values, path).Some?
    ensures var r := Blueprint(typeName, values, path).value;
      var declared := StringsOf(values, "static_libs") + StringsOf(values, "libs");
      && (typeName in {"android_app", "android_library"} ==> r.dependencies == ["framework", "framework-res"] + declared)
      && (typeName in {"android_library_import", "java_sdk_library", "aidl_interface"} ==> r.dependencies == ["framework"] + declared)
      && (typeName in {"java_library", "java_library_host", "java_library_static"} ==> r.dependencies == declared)
  {
    if typeName == "android_app" || typeName == "android_library" {
      DeclaredAfter(["framework", "framework-res"], values);
    } else if typeName == "android_library_import" || typeName == "java_sdk_library" || typeName == "aidl_interface" {
      DeclaredAfter(["framework"], values);
    } else if typeName == "java_library" || typeName == "java_library_host" || typeName == "java_library_static" {
      DeclaredAfter([], values);
    }
  }

  /** The implicit entries come first, then `static_libs`, then `libs`. */
  lemma DeclaredAfter(prefix: seq<string>, values: map<string, AnyValue>)
    ensures Dependencies(prefix, values) == prefix + (StringsOf(values, "static_libs") + StringsOf(values, "libs"))
  {
    assert prefix + StringsOf(values, "static_libs") + StringsOf(values, "libs")
        == prefix + (StringsOf(values, "static_libs") + StringsOf(values, "libs"));
  }

  /**
   * A dependency is an implicit entry or a string element of `static_libs`
   * or `libs`; elements of any other kind are dropped.
   */
  lemma DependenciesAreDeclaredStrings(prefix: seq<string>, values: map<string, AnyValue>, s: string)
    ensures s in Dependencies(prefix, values) <==>
      || s in prefix
      || ("static_libs" in values && values["static_libs"].List? && Str(s) in values["static_libs"].items)
      || ("libs" in values && values["libs"].List? && Str(s) in values["libs"].items)
  {
  }

  /**
   * Defaults: `srcs` and `asset_dirs` are empty, `resource_dirs` is the
   * `res` folder, the manifest is `AndroidManifest.xml`, and an app is
   * privileged only when `privileged` is the boolean `true`.
   */
  lemma AppDefaults(values: map<string, AnyValue>, path: Path)
    requires NameOf(values).Some?
    ensures var r := Blueprint("android_app", values, path).value;
      && ("srcs" !in values ==> r.sources == [])
      && ("asset_dirs" !in values ==> r.assets == [])
      && ("resource_dirs" !in values ==> r.resources == [GlobItem([Exact("res")])])
      && ("manifest" !in values ==> r.manifest == "AndroidManifest.xml")
      && ("manifest" in values && values["manifest"].Str? ==> r.manifest == values["manifest"].s)
      && (r.privileged <==> "privileged" in values && values["privileged"] == Boolean(true))
  {
    assert IndexOf("res", '*', 0) == -1;
    ChunksEnd("res", 0);
  }

  /** Every source string becomes one source set, in order; non-strings are dropped. */
  lemma SourcesFromStrings(values: map<string, AnyValue>, key: string, default: seq<SourceSet>)
    requires key in values && values[key].List?
    ensures SourcesOf(values, key, default) == ToSourceSets(Strings(values[key].items))
    ensures |SourcesOf(values, key, default)| <= |values[key].items|
  {
  }

  /** An imported jar lies under the blueprint's directory. */
  lemma JarsUnderPath(path: Path, jars: seq<string>, i: nat)
    requires i < |jars| && jars[i] != ""
    ensures var f := Jars(path, jars)[i];
      |f| == |path| + 1 && f[..|path|] == path && f[|path|] == jars[i]
  {
  }
}
