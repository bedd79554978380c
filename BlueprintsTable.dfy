/**
 * The project-wide index from module name to the file that defines it, with
 * a per-file cache of parsed modules keyed by the file's timestamp, and the
 * name rewriting that maps stub and generated-library names back to the
 * module that produces them.
 *
 * The file system is a parameter: a map from each existing file to its
 * timestamp and the modules parsing it yields.
 */
module BlueprintsTable {
  import opened Wrappers
  import opened Text
  import opened Values
  import opened Legacy

  // ---------------------------------------------------------------- names

  predicate IsVersion(s: string) {
    forall i :: 0 <= i < |s| ==> IsDigit(s[i]) || s[i] == '.'
  }

  /**
   * `fixUpName(name)` over the names the table knows: a known name is kept;
   * an unknown `x.stubs` is `x`; an unknown `x-java` is `x`, or `m@v` when
   * `x` ends in `-V` followed by a version `v` of digits and dots after its
   * last `-` (the name `m` of a versioned interface).
   */
  function FixUpName(name: string, known: set<string>): (r: string) {
    if EndsWith(name, ".stubs") && name !in known then name[..|name| - 6]
    else if EndsWith(name, "-java") && name !in known then
      var stem := name[..|name| - 5];
      var pos := LastIndexOf(stem, '-');
      if pos != -1 && name[pos + 1] == 'V' && IsVersion(name[pos + 2..|name| - 5]) then
        name[..pos] + "@" + name[pos + 2..|name| - 5]
      else stem
    else name
  }

  /** A name the table knows is never rewritten. */
  lemma KnownNameKept(name: string, known: set<string>)
    requires name in known
    ensures FixUpName(name, known) == name
  {
  }

  /** An unknown stub library names its module, with no further rewrite. */
  lemma StubsDropped(x: string, known: set<string>)
    requires x + ".stubs" !in known
    ensures FixUpName(x + ".stubs", known) == x
  {
    var name := x + ".stubs";
    assert name[|name| - 6..] == ".stubs";
    assert name[..|name| - 6] == x;
  }

  /** The Java library of an unversioned interface names the interface. */
  lemma JavaSuffixDropped(x: string, known: set<string>)
    requires x + "-java" !in known && !EndsWith(x + "-java", ".stubs")
    requires '-' !in x
    ensures FixUpName(x + "-java", known) == x
  {
    var name := x + "-java";
    assert name[|name| - 5..] == "-java";
    assert name[..|name| - 5] == x;
  }

  /**
   * How `m-V<v>-java` splits when `v` has no `-`: not a stub name, its last
   * `-` before the suffix is the one after `m`, followed by `V` and then `v`.
   */
  lemma VersionedParts(m: string, v: string)
    requires '-' !in v
    ensures var name := m + "-V" + v + "-java";
      && EndsWith(name, "-java") && !EndsWith(name, ".stubs")
      && name[..|name| - 5] == m + "-V" + v
      && LastIndexOf(name[..|name| - 5], '-') == |m|
      && name[|m| + 1] == 'V' && name[|m| + 2..|name| - 5] == v && name[..|m|] == m
  {
    var name := m + "-V" + v + "-java";
    var stem := name[..|name| - 5];
    assert name[|name| - 5..] == "-java";
    assert !EndsWith(name, ".stubs") by {
      assert name[|name| - 1] == 'a';
    }
    assert stem == m + "-V" + v;
    assert stem[|m|] == '-';
    assert forall i :: |m| < i < |stem| ==> stem[i] != '-' by {
      forall i | |m| < i < |stem|
        ensures stem[i] != '-'
      {
        if i == |m| + 1 {
          assert stem[i] == 'V';
        } else {
          assert stem[i] == v[i - |m| - 2];
        }
      }
    }
    assert name[|m| + 2..|name| - 5] == v;
    assert name[..|m|] == m;
  }

  /**
   * The Java library `m-V<v>-java` of version `v` of an interface names
   * `m@v`: the inverse of the naming of the interface's generated library.
   */
  lemma VersionedInterface(m: string, v: string, known: set<string>)
    requires IsVersion(v)
    requires m + "-V" + v + "-java" !in known
    ensures FixUpName(m + "-V" + v + "-java", known) == m + "@" + v
  {
    forall i | 0 <= i < |v|
      ensures v[i] != '-'
    {
      assert IsDigit(v[i]) || v[i] == '.';
    }
    VersionedParts(m, v);
  }

  /**
   * When the text after `-V` is not a version, only `-java` is dropped; an
   * empty version is accepted, so `m-V-java` names `m@`.
   */
  lemma NotAVersion(m: string, v: string, known: set<string>)
    requires !IsVersion(v) && '-' !in v
    requires m + "-V" + v + "-java" !in known
    ensures FixUpName(m + "-V" + v + "-java", known) == m + "-V" + v
    ensures FixUpName(m + "-V-java", known) == m + "@" || m + "-V-java" in known
  {
    VersionedParts(m, v);
    if m + "-V-java" !in known {
      assert m + "-V" + "" + "-java" == m + "-V-java";
      assert m + "@" + "" == m + "@";
      assert IsVersion("");
      VersionedInterface(m, "", known);
    }
  }

  // ---------------------------------------------------------------- table

  /** An existing file: its timestamp and the modules parsing it yields. */
  datatype DiskFile = DiskFile(timestamp: int, blueprints: seq<Blueprint>)

  /** A cache entry: the timestamp the file had and the modules parsed then. */
  datatype CacheItem = CacheItem(timestamp: int, blueprints: seq<Blueprint>)

  /** The first module with the given name (`firstOrNull { it.name == name }`). */
  function FirstWithName(bs: seq<Blueprint>, name: string): (r: Option<Blueprint>)
    ensures r.None? <==> forall i :: 0 <= i < |bs| ==> bs[i].name != name
    ensures r.Some? ==> r.value in bs && r.value.name == name
    ensures r.Some? ==> exists i :: 0 <= i < |bs| && bs[i] == r.value && forall j :: 0 <= j < i ==> bs[j].name != name
  {
    if bs == [] then None
    else if bs[0].name == name then Some(bs[0])
    else
      var r := FirstWithName(bs[1..], name);
      assert r.Some? ==> exists i :: 1 <= i < |bs| && bs[i] == r.value && forall j :: 0 <= j < i ==> bs[j].name != name by {
        if r.Some? {
          var k :| 0 <= k < |bs[1..]| && bs[1..][k] == r.value && forall j :: 0 <= j < k ==> bs[1..][j].name != name;
          assert bs[k + 1] == r.value;
          assert forall j :: 0 <= j < k + 1 ==> bs[j].name != name by {
            forall j | 0 <= j < k + 1
              ensures bs[j].name != name
            {
              if j > 0 {
                assert bs[j] == bs[1..][j - 1];
              }
            }
          }
        }
      }
      r
  }

  /**
   * What `parse(file)` returns, given the cache before the call: nothing for
   * a missing file, the cached modules when the timestamp is unchanged, and
   * otherwise nothing without a source root or the modules the file defines.
   */
  function ParseResult(cache: map<Path, CacheItem>, aospRoot: Option<Path>, file: Path, disk: map<Path, DiskFile>): (r: seq<Blueprint>)
    ensures file !in disk ==> r == []
    ensures file in disk && file !in cache && aospRoot.Some? ==> r == disk[file].blueprints
    ensures aospRoot.None? && file !in cache ==> r == []
  {
    if file !in disk then []
    else if file in cache && cache[file].timestamp == disk[file].timestamp then cache[file].blueprints
    else if aospRoot.None? then []
    else disk[file].blueprints
  }

  class Table {
    /** The source root, when the project has one. */
    const aospRoot: Option<Path>
    var files: seq<Path>
    /** The file that defines each module name. */
    var blueprints: map<string, Path>
    var cache: map<Path, CacheItem>

    /** Only non-empty parse results are ever cached. */
    predicate Valid()
      reads this
    {
      forall f :: f in cache ==> cache[f].blueprints != []
    }

    constructor (aospRoot: Option<Path>)
      ensures Valid()
      ensures this.aospRoot == aospRoot && files == [] && blueprints == map[] && cache == map[]
    {
      this.aospRoot := aospRoot;
      files := [];
      blueprints := map[];
      cache := map[];
    }

    /** `update(files, blueprints)`: replaces the file list and the index; the cache stays. */
    method Update(files: seq<Path>, blueprints: map<string, Path>)
      requires Valid()
      modifies this
      ensures Valid()
      ensures this.files == files && this.blueprints == blueprints && cache == old(cache)
    {
      this.files := files;
      this.blueprints := blueprints;
    }

    /**
     * `parse(file)`: nothing for a missing file; the cached modules when the
     * timestamp is unchanged; otherwise nothing without a source root, or the
     * freshly parsed modules, cached when there are any.
     */
    method Parse(file: Path, disk: map<Path, DiskFile>) returns (r: seq<Blueprint>)
      requires Valid()
      modifies this
      ensures Valid()
      ensures files == old(files) && blueprints == old(blueprints)
      ensures r == ParseResult(old(cache), aospRoot, file, disk)
      ensures file !in disk ==> r == [] && cache == old(cache)
      ensures file in disk && file in old(cache) && old(cache)[file].timestamp == disk[file].timestamp ==>
        r == old(cache)[file].blueprints && cache == old(cache)
      ensures file in disk && !(file in old(cache) && old(cache)[file].timestamp == disk[file].timestamp) ==>
        (if aospRoot.None? then r == [] && cache == old(cache)
         else r == disk[file].blueprints
              && cache == if r != [] then old(cache)[file := CacheItem(disk[file].timestamp, r)] else old(cache))
    {
      if file !in disk {
        return [];
      }
      var timestamp := disk[file].timestamp;
      if file in cache && cache[file].timestamp == timestamp {
        return cache[file].blueprints;
      }
      if aospRoot.None? {
        return [];
      }
      r := disk[file].blueprints;
      if r != [] {
        cache := cache[file := CacheItem(timestamp, r)];
      }
    }

    /**
     * `get(name)`: the module named by the rewritten name, from the file the
     * index gives for it; nothing when the index has no such name or the
     * file does not define it.
     */
    method Get(name: string, disk: map<Path, DiskFile>) returns (r: Option<Blueprint>)
      requires Valid()
      modifies this
      ensures Valid()
      ensures var fixed := FixUpName(name, old(blueprints).Keys);
        && (fixed !in old(blueprints) ==> r.None? && cache == old(cache))
        && (r.Some? ==> fixed in old(blueprints) && r.value.name == fixed)
        && (fixed in old(blueprints) && old(blueprints)[fixed] !in disk ==> r.None?)
        && (fixed in old(blueprints) ==> r == FirstWithName(ParseResult(old(cache), aospRoot, old(blueprints)[fixed], disk), fixed))
    {
      var fixed := FixUpName(name, blueprints.Keys);
      if fixed !in blueprints {
        return None;
      }
      var file := blueprints[fixed];
      var parsed := Parse(file, disk);
      r := FirstWithName(parsed, fixed);
    }
  }

  /** Parsing a file twice with nothing changed on disk gives the same modules. */
  method ParseTwice(t: Table, file: Path, disk: map<Path, DiskFile>) returns (first: seq<Blueprint>, second: seq<Blueprint>)
    requires t.Valid()
    modifies t
    ensures first == second
    ensures file in disk && t.aospRoot.Some? && file !in old(t.cache) ==> first == disk[file].blueprints
  {
    first := t.Parse(file, disk);
    second := t.Parse(file, disk);
  }
}
