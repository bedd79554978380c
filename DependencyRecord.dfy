/**
 * What the project model knows about one Android library a module depends
 * on: its package name and the files of each kind it contributes, gathered
 * by a builder one file at a time while the dependency's outputs are
 * probed, and the test of whether the library can be attached to a module.
 *
 * Files are `Text.Path`s; a probe that found nothing passes `None` (Kotlin
 * `null`), which the builder ignores.
 */
module DependencyRecord {
  import opened Wrappers
  import opened Text

  /** The seven file lists of a record, one per list-valued `withX` method of the builder. */
  datatype Kind = Apk | Res | GeneratedRes | Manifest | Assets | RFile | Jar

  datatype Record = Record(name: string, packageName: Option<string>,
                           apk: seq<Path>, res: seq<Path>, generatedRes: seq<Path>, manifests: seq<Path>,
                           assets: seq<Path>, r: seq<Path>, jars: seq<Path>)
  {
    /**
     * `isValid()`: a library is usable when it has a package, a manifest,
     * and either resource folders or both a resource package and an `R.txt`.
     */
    predicate IsValid() {
      packageName.Some? && manifests != [] && (res != [] || (apk != [] && r != []))
    }

    /** The list of the given kind. */
    function Files(k: Kind): seq<Path> {
      match k
      case Apk => apk
      case Res => res
      case GeneratedRes => generatedRes
      case Manifest => manifests
      case Assets => assets
      case RFile => r
      case Jar => jars
    }
  }

  /** A fresh builder's record: the name and nothing else. */
  function Empty(name: string): (d: Record)
    ensures d.name == name && d.packageName.None?
    ensures forall k :: d.Files(k) == []
  {
    Record(name, None, [], [], [], [], [], [], [])
  }

  /** One call on the builder: `withX(file)` for a list, or `withPackageName(name)`. */
  datatype Call = WithFile(kind: Kind, file: Option<Path>) | WithPackageName(packageName: Option<string>)

  /** The list after `withX(f)`: `f` appended when it is present. */
  function Add(files: seq<Path>, f: Option<Path>): seq<Path> {
    if f.Some? then files + [f.value] else files
  }

  /** The record after one call: the call's own field changes and nothing else. */
  function Step(d: Record, c: Call): (e: Record)
    ensures e.name == d.name
  {
    match c
    case WithPackageName(p) => if p.Some? then d.(packageName := p) else d
    case WithFile(k, f) =>
      match k
      case Apk => d.(apk := Add(d.apk, f))
      case Res => d.(res := Add(d.res, f))
      case GeneratedRes => d.(generatedRes := Add(d.generatedRes, f))
      case Manifest => d.(manifests := Add(d.manifests, f))
      case Assets => d.(assets := Add(d.assets, f))
      case RFile => d.(r := Add(d.r, f))
      case Jar => d.(jars := Add(d.jars, f))
  }

  /**
   * Each `withX(f)` appends a present `f` to its own list, ignores an absent
   * one, and leaves the package name and every other list as they were.
   */
  lemma FileCallTouchesOwnList(d: Record, k: Kind, f: Option<Path>)
    ensures Step(d, WithFile(k, f)).Files(k) == (if f.Some? then d.Files(k) + [f.value] else d.Files(k))
    ensures Step(d, WithFile(k, f)).packageName == d.packageName
    ensures forall k' :: k' != k ==> Step(d, WithFile(k, f)).Files(k') == d.Files(k')
    ensures f.None? ==> Step(d, WithFile(k, f)) == d
  {
  }

  /** `withPackageName(p)` overwrites the name when `p` is present, keeps it otherwise, and touches no list. */
  lemma PackageNameCall(d: Record, p: Option<string>)
    ensures Step(d, WithPackageName(p)).packageName == if p.Some? then p else d.packageName
    ensures forall k :: Step(d, WithPackageName(p)).Files(k) == d.Files(k)
  {
  }

  /** The record after a sequence of calls, in order. */
  function Apply(d: Record, calls: seq<Call>): (e: Record)
    ensures e.name == d.name
  {
    if calls == [] then d else Step(Apply(d, calls[..|calls| - 1]), calls[|calls| - 1])
  }

  /** The present files passed for kind `k`, in call order. */
  function Given(calls: seq<Call>, k: Kind): (files: seq<Path>)
    ensures |files| <= |calls|
  {
    if calls == [] then []
    else
      var c := calls[|calls| - 1];
      var rest := Given(calls[..|calls| - 1], k);
      if c.WithFile? && c.kind == k && c.file.Some? then rest + [c.file.value] else rest
  }

  /** The last present package name passed, if any. */
  function LastPackageName(calls: seq<Call>): Option<string> {
    if calls == [] then None
    else
      var c := calls[|calls| - 1];
      if c.WithPackageName? && c.packageName.Some? then c.packageName
      else LastPackageName(calls[..|calls| - 1])
  }

  /**
   * `build()` after any calls on a fresh builder: the builder's name, the last
   * package name passed (none when every one was absent), and for each kind
   * exactly the present files passed for it, in the order they were passed.
   */
  lemma {:induction false} BuiltRecord(name: string, calls: seq<Call>)
    ensures Apply(Empty(name), calls).name == name
    ensures Apply(Empty(name), calls).packageName == LastPackageName(calls)
    ensures forall k :: Apply(Empty(name), calls).Files(k) == Given(calls, k)
  {
    if calls != [] {
      var prefix := calls[..|calls| - 1];
      var c := calls[|calls| - 1];
      BuiltRecord(name, prefix);
      var d := Apply(Empty(name), prefix);
      match c
      case WithPackageName(p) =>
        PackageNameCall(d, p);
      case WithFile(k, f) =>
        FileCallTouchesOwnList(d, k, f);
    }
  }

  /**
   * The record built from any calls is valid exactly when some call gave a
   * package name, some call gave a manifest, and some call gave a resource
   * folder or else both a resource package and an `R.txt`.
   */
  lemma ValidBuild(name: string, calls: seq<Call>)
    ensures Apply(Empty(name), calls).IsValid() <==>
      LastPackageName(calls).Some? && Given(calls, Manifest) != []
      && (Given(calls, Res) != [] || (Given(calls, Apk) != [] && Given(calls, RFile) != []))
  {
    BuiltRecord(name, calls);
    var d := Apply(Empty(name), calls);
    assert d.manifests == d.Files(Manifest) && d.res == d.Files(Res);
    assert d.apk == d.Files(Apk) && d.r == d.Files(RFile);
  }

  /** Without a manifest call the record is never valid, whatever else was given. */
  lemma NoManifestInvalid(name: string, calls: seq<Call>)
    requires forall i :: 0 <= i < |calls| ==> !(calls[i].WithFile? && calls[i].kind == Manifest)
    ensures !Apply(Empty(name), calls).IsValid()
  {
    NoManifestGiven(calls);
    ValidBuild(name, calls);
  }

  /** No manifest call, no manifest. */
  lemma {:induction false} NoManifestGiven(calls: seq<Call>)
    requires forall i :: 0 <= i < |calls| ==> !(calls[i].WithFile? && calls[i].kind == Manifest)
    ensures Given(calls, Manifest) == []
  {
    if calls != [] {
      NoManifestGiven(calls[..|calls| - 1]);
    }
  }

  /**
   * `AndroidDependencyRecord.Builder`: the name it was created with, the
   * package name seen last and one growing list per kind of file. Every
   * `withX` returns the builder itself, so calls chain.
   */
  class Builder {
    const name: string
    var apk: seq<Path>
    var packageName: Option<string>
    var res: seq<Path>
    var generatedRes: seq<Path>
    var manifests: seq<Path>
    var assets: seq<Path>
    var r: seq<Path>
    var jars: seq<Path>

    /** The record `build()` would return now. */
    function State(): Record
      reads this
    {
      Record(name, packageName, apk, res, generatedRes, manifests, assets, r, jars)
    }

    constructor (name: string)
      ensures State() == Empty(name)
    {
      this.name := name;
      apk := [];
      packageName := None;
      res := [];
      generatedRes := [];
      manifests := [];
      assets := [];
      r := [];
      jars := [];
    }

    method WithResApk(apk: Option<Path>) returns (b: Builder)
      modifies this
      ensures b == this
      ensures State() == Step(old(State()), WithFile(Apk, apk))
    {
      if apk.Some? {
        this.apk := this.apk + [apk.value];
      }
      return this;
    }

    method WithRes(res: Option<Path>) returns (b: Builder)
      modifies this
      ensures b == this
      ensures State() == Step(old(State()), WithFile(Res, res))
    {
      if res.Some? {
        this.res := this.res + [res.value];
      }
      return this;
    }

    method WithGeneratedRes(res: Option<Path>) returns (b: Builder)
      modifies this
      ensures b == this
      ensures State() == Step(old(State()), WithFile(GeneratedRes, res))
    {
      if res.Some? {
        generatedRes := generatedRes + [res.value];
      }
      return this;
    }

    method WithManifest(manifest: Option<Path>) returns (b: Builder)
      modifies this
      ensures b == this
      ensures State() == Step(old(State()), WithFile(Manifest, manifest))
    {
      if manifest.Some? {
        manifests := manifests + [manifest.value];
      }
      return this;
    }

    method WithAssets(assets: Option<Path>) returns (b: Builder)
      modifies this
      ensures b == this
      ensures State() == Step(old(State()), WithFile(Assets, assets))
    {
      if assets.Some? {
        this.assets := this.assets + [assets.value];
      }
      return this;
    }

    method WithR(r: Option<Path>) returns (b: Builder)
      modifies this
      ensures b == this
      ensures State() == Step(old(State()), WithFile(RFile, r))
    {
      if r.Some? {
        this.r := this.r + [r.value];
      }
      return this;
    }

    method WithPackageName(packageName: Option<string>) returns (b: Builder)
      modifies this
      ensures b == this
      ensures State() == Step(old(State()), Call.WithPackageName(packageName))
    {
      if packageName.Some? {
        this.packageName := packageName;
      }
      return this;
    }

    method WithJar(jar: Option<Path>) returns (b: Builder)
      modifies this
      ensures b == this
      ensures State() == Step(old(State()), WithFile(Jar, jar))
    {
      if jar.Some? {
        jars := jars + [jar.value];
      }
      return this;
    }

    /** `build()`: the record of everything gathered so far; the builder is unchanged. */
    method Build() returns (d: Record)
      ensures d == State()
      ensures d.name == name && d.packageName == packageName && d.manifests == manifests
    {
      d := Record(name, packageName, apk, res, generatedRes, manifests, assets, r, jars);
    }

    /** Applies one call through the matching `withX` method. */
    method Perform(c: Call)
      modifies this
      ensures State() == Step(old(State()), c)
    {
      var b: Builder;
      match c
      case WithPackageName(p) => b := WithPackageName(p);
      case WithFile(k, f) =>
        match k
        case Apk => b := WithResApk(f);
        case Res => b := WithRes(f);
        case GeneratedRes => b := WithGeneratedRes(f);
        case Manifest => b := WithManifest(f);
        case Assets => b := WithAssets(f);
        case RFile => b := WithR(f);
        case Jar => b := WithJar(f);
    }
  }

  /**
   * A fresh builder driven through any calls and then built returns the
   * record `Apply` describes, so `BuiltRecord` and `ValidBuild` hold of it.
   */
  method BuildFrom(name: string, calls: seq<Call>) returns (d: Record)
    ensures d == Apply(Empty(name), calls)
    ensures d.packageName == LastPackageName(calls) && d.manifests == Given(calls, Manifest)
  {
    var builder := new Builder(name);
    var i := 0;
    while i < |calls|
      invariant 0 <= i <= |calls|
      invariant builder.State() == Apply(Empty(name), calls[..i])
    {
      assert calls[..i + 1][..i] == calls[..i];
      builder.Perform(calls[i]);
      i := i + 1;
    }
    assert calls[..|calls|] == calls;
    d := builder.Build();
    BuiltRecord(name, calls);
    assert d.manifests == d.Files(Manifest);
  }
}
