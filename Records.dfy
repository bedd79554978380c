/**
 * The module records a Blueprint file describes, with the capabilities each
 * kind of record offers and the build output paths each derives from the
 * directory the build system writes the module's intermediates to.
 *
 * A path is the list of its names from the root (`Text.Path`); `File(base, "a/b")` is `base + ["a", "b"]`.
 */
module Records {
  import opened Wrappers
  import opened Text
  import opened SourceSets

  datatype Record =
    | AndroidApp(name: string, sources: seq<SourceSet>, resources: seq<SourceSet>, assets: seq<SourceSet>,
                 dependencies: seq<string>, manifest: string, privileged: bool, defaults: seq<string>)
    | AndroidLibrary(name: string, sources: seq<SourceSet>, resources: seq<SourceSet>, assets: seq<SourceSet>,
                     dependencies: seq<string>, manifest: string, defaults: seq<string>)
    | AndroidLibraryImport(name: string, dependencies: seq<string>)
    | JavaDefault(name: string, sources: seq<SourceSet>)
    | FileGroup(name: string, sources: seq<SourceSet>)
    | JavaBinary(name: string, sources: seq<SourceSet>, dependencies: seq<string>, defaults: seq<string>)
    | JavaLibrary(name: string, sources: seq<SourceSet>, dependencies: seq<string>, defaults: seq<string>)
    | JavaImport(name: string, libraries: seq<Path>)
    | JavaSdkLibrary(name: string, sources: seq<SourceSet>, dependencies: seq<string>, defaults: seq<string>)
    | SyspropLibrary(name: string, sources: seq<SourceSet>)
    | AidlJavaInterface(name: string, aidls: seq<SourceSet>, dependencies: seq<string>)
    | Unsupported(name: string)
  {
    /** `BlueprintWithSources` */
    predicate HasSources() {
      AndroidApp? || AndroidLibrary? || JavaDefault? || FileGroup? || JavaBinary? || JavaLibrary?
      || JavaSdkLibrary? || SyspropLibrary?
    }

    /** `BlueprintWithDependencies` */
    predicate HasDependencies() {
      AndroidApp? || AndroidLibrary? || AndroidLibraryImport? || JavaBinary? || JavaLibrary?
      || JavaSdkLibrary? || AidlJavaInterface?
    }

    /** `BlueprintWithDefaults` */
    predicate HasDefaults() {
      AndroidApp? || AndroidLibrary? || JavaBinary? || JavaLibrary? || JavaSdkLibrary?
    }

    /** `BlueprintWithResources`: resource lists, R file and resource package. */
    predicate HasResources() {
      AndroidApp? || AndroidLibrary?
    }

    /** `BlueprintWithDynamicResources`: resources found under the build output. */
    predicate HasDynamicResources() {
      AndroidLibraryImport?
    }

    /** `BlueprintWithAssets` and `BlueprintWithManifest` */
    predicate HasAssets() {
      AndroidApp? || AndroidLibrary?
    }

    /** `BlueprintWithArtifacts` */
    predicate HasArtifacts() {
      AndroidLibrary? || AndroidLibraryImport? || JavaLibrary? || JavaImport? || JavaSdkLibrary?
      || SyspropLibrary? || AidlJavaInterface?
    }
  }

  /**
   * `getArtifacts(basePath)` of the records that have it. `onDisk` says
   * whether a file exists; only the Java library asks.
   */
  function Artifacts(r: Record, base: Path, onDisk: Path -> bool): (files: Option<seq<Path>>)
    ensures files.Some? <==> r.HasArtifacts()
  {
    match r
    case AndroidLibrary(name, _, _, _, _, _, _) =>
      Some([base + ["android_common", "combined", name + ".jar"]])
    case AndroidLibraryImport(_, _) =>
      Some([base + ["android_common", "aar", "classes.jar"]])
    case JavaLibrary(name, _, _, _) =>
      var file := base + ["android_common", "combined", name + ".jar"];
      var file' := if !onDisk(file) then base + ["android_common", "turbine-combined", name + ".jar"] else file;
      Some([file'])
    case JavaImport(_, libraries) =>
      Some(libraries)
    case JavaSdkLibrary(name, _, _, _) =>
      Some([base + ["android_common", "turbine-combined", name + ".jar"]])
    case SyspropLibrary(name, _) =>
      Some([base + ["android_common", "turbine-combined", name + ".jar"]])
    case AidlJavaInterface(name, _, _) =>
      Some([Sibling(base, "-java") + ["android_common", "turbine-combined", name + "-java.jar"]])
    case _ => None
  }

  /** `getR(basePath)` of the records with resources. */
  function RFile(r: Record, base: Path): (file: Option<Path>)
    ensures file.Some? <==> r.HasResources() || r.HasDynamicResources()
  {
    if r.HasResources() then Some(base + ["android_common", "R.txt"])
    else if r.AndroidLibraryImport? then Some(base + ["android_common", "aar", "R.txt"])
    else None
  }

  /** `getResApk(basePath)`: the same package for every record with resources. */
  function ResApk(r: Record, base: Path): (file: Option<Path>)
    ensures file.Some? <==> r.HasResources() || r.HasDynamicResources()
  {
    if r.HasResources() || r.AndroidLibraryImport? then Some(base + ["android_common", "package-res.apk"])
    else None
  }

  /** `getResources(basePath)` of an imported library: the unpacked `res` folder of its archive. */
  function DynamicResources(r: Record, base: Path): (dir: Option<Path>)
    ensures dir.Some? <==> r.HasDynamicResources()
  {
    if r.AndroidLibraryImport? then Some(base + ["android_common", "aar", "res"]) else None
  }

  /** `getManifest(basePath)` of an imported library. */
  function DynamicManifest(r: Record, base: Path): (file: Option<Path>)
    ensures file.Some? <==> r.AndroidLibraryImport?
  {
    if r.AndroidLibraryImport? then Some(base + ["android_common", "aar", "AndroidManifest.xml"]) else None
  }

  /** `getSources(basePath)` of an AIDL interface: the Java it generates. */
  function DynamicSources(r: Record, base: Path): (dir: Option<Path>)
    ensures dir.Some? <==> r.AidlJavaInterface?
  {
    if r.AidlJavaInterface? then Some(Sibling(base, "-java-source") + ["gen"]) else None
  }

  // ---------------------------------------------------------------- properties

  /** An app has no artifacts; a library has exactly its combined jar. */
  lemma AppHasNoArtifacts(r: Record, base: Path, onDisk: Path -> bool)
    ensures r.AndroidApp? ==> Artifacts(r, base, onDisk) == None
    ensures r.AndroidLibrary? ==> Artifacts(r, base, onDisk) == Some([base + ["android_common", "combined", r.name + ".jar"]])
  {
  }

  /**
   * Records with resources share one R file and resource package under
   * `android_common`; an imported library reads its R file from the
   * unpacked archive instead.
   */
  lemma ResourcePaths(r: Record, base: Path)
    ensures r.HasResources() ==> RFile(r, base) == Some(base + ["android_common", "R.txt"])
    ensures r.AndroidLibraryImport? ==> RFile(r, base) == Some(base + ["android_common", "aar", "R.txt"])
    ensures RFile(r, base).Some? ==> ResApk(r, base) == Some(base + ["android_common", "package-res.apk"])
    ensures RFile(r, base).Some? ==>
      var f := RFile(r, base).value;
      f[..|base| + 1] == base + ["android_common"] && f[|f| - 1] == "R.txt"
  {
  }

  /** An imported jar list depends neither on the output directory nor on the file system. */
  lemma JavaImportArtifactsFixed(r: Record, base1: Path, base2: Path, e1: Path -> bool, e2: Path -> bool)
    requires r.JavaImport?
    ensures Artifacts(r, base1, e1) == Artifacts(r, base2, e2) == Some(r.libraries)
  {
  }

  /**
   * Every artifact other than an imported jar is one `.jar` file, two levels
   * under `android_common` of the output directory (of its `-java` sibling
   * for an AIDL interface).
   */
  lemma ArtifactsUnderBase(r: Record, base: Path, onDisk: Path -> bool)
    requires r.HasArtifacts() && !r.JavaImport?
    ensures var files := Artifacts(r, base, onDisk).value;
      var dir := if r.AidlJavaInterface? then Sibling(base, "-java") else base;
      |files| == 1 && |files[0]| == |dir| + 3 && files[0][..|dir| + 1] == dir + ["android_common"]
      && EndsWith(files[0][|dir| + 2], ".jar")
  {
    var f := Artifacts(r, base, onDisk).value[0];
    var file := f[|f| - 1];
    if r.AndroidLibraryImport? {
      assert file == "classes" + ".jar";
    } else if r.AidlJavaInterface? {
      assert file == (r.name + "-java") + ".jar";
    } else {
      assert file == r.name + ".jar";
    }
    EndsWithAppend(file[..|file| - 4], ".jar");
  }

  lemma EndsWithAppend(a: string, b: string)
    ensures EndsWith(a + b, b)
  {
    assert (a + b)[|a|..] == b;
  }

  /** A Java library uses its combined jar when it exists and the turbine jar otherwise. */
  lemma JavaLibraryFallback(r: Record, base: Path, onDisk: Path -> bool)
    requires r.JavaLibrary?
    ensures var combined := base + ["android_common", "combined", r.name + ".jar"];
      var turbine := base + ["android_common", "turbine-combined", r.name + ".jar"];
      Artifacts(r, base, onDisk) == Some([if onDisk(combined) then combined else turbine])
  {
  }

  /** SDK and sysprop libraries use the turbine jar, whatever is on disk. */
  lemma TurbineArtifacts(r: Record, base: Path, onDisk: Path -> bool)
    requires r.JavaSdkLibrary? || r.SyspropLibrary?
    ensures Artifacts(r, base, onDisk) == Some([base + ["android_common", "turbine-combined", r.name + ".jar"]])
  {
  }

  /**
   * An AIDL interface builds into the `-java` and `-java-source` siblings of
   * its output directory.
   */
  lemma AidlPaths(r: Record, base: Path, onDisk: Path -> bool)
    requires r.AidlJavaInterface? && base != []
    ensures var up := base[..|base| - 1];
      var last := base[|base| - 1];
      && Artifacts(r, base, onDisk) == Some([up + [last + "-java", "android_common", "turbine-combined", r.name + "-java.jar"]])
      && DynamicSources(r, base) == Some(up + [last + "-java-source", "gen"])
  {
    var up := base[..|base| - 1];
    var last := base[|base| - 1];
    assert Sibling(base, "-java") == up + [last + "-java"];
    assert up + [last + "-java"] + ["android_common", "turbine-combined", r.name + "-java.jar"]
        == up + [last + "-java", "android_common", "turbine-combined", r.name + "-java.jar"];
    assert up + [last + "-java-source"] + ["gen"] == up + [last + "-java-source", "gen"];
  }
}
