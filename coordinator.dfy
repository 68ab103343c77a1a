/**
 * `DomainPatchCoordinator`: applies a patch archive in a domain.  The archive
 * is copied into a fresh work directory and unpacked there, a multi-patch
 * bundle is refused, `patch.xml` is parsed, and the patch runs through the
 * two phases of the runner; the modification is cancelled on any failure and
 * the work directory is deleted on every way out.
 *
 * The file system is a set of existing paths.  What `PatchXml.parse` makes
 * of a file is recorded next to it (XML parsing is not part of this model).
 */
module Coordinator {
  import opened Common
  import opened Metadata
  import opened PatchContextModel
  import opened Runner

  /** `DIRECTORY_SUFFIX`. */
  const DirectorySuffix: string := "jboss-as-patch-"

  /** `PatchBundleXml.MULTI_PATCH_XML` and `PatchXml.PATCH_XML`. */
  const MultiPatchXml: string := "patches.xml"
  const PatchXmlName: string := "patch.xml"

  /** A parsed `patch.xml`: the `PatchMetadataResolver` it yields, whose
   *  `resolvePatch` may throw. */
  type Resolver = (string, string) -> Result<Option<Patch>>

  /** The candidate work directory number `n` under `dir`. */
  function TempName(dir: string, n: nat): string
  {
    Child(dir, DirectorySuffix + NatToString(n))
  }

  /** Distinct numbers name distinct candidates. */
  lemma TempNameInjective(dir: string, m: nat, n: nat)
    requires TempName(dir, m) == TempName(dir, n)
    ensures m == n
  {
    var a, b := DirectorySuffix + NatToString(m), DirectorySuffix + NatToString(n);
    assert a == TempName(dir, m)[|dir| + 1..] == TempName(dir, n)[|dir| + 1..] == b;
    assert NatToString(m) == a[|DirectorySuffix|..] == b[|DirectorySuffix|..] == NatToString(n);
    NatToStringInjective(m, n);
  }

  /** The first `n` candidates. */
  function TempNames(dir: string, n: nat): set<string>
  {
    if n == 0 then {} else TempNames(dir, n - 1) + {TempName(dir, n)}
  }

  lemma {:induction false} LaterNotInEarlier(dir: string, n: nat, m: nat)
    requires m < n
    ensures TempName(dir, n) !in TempNames(dir, m)
  {
    if m > 0 {
      LaterNotInEarlier(dir, n, m - 1);
      if TempName(dir, n) == TempName(dir, m) {
        TempNameInjective(dir, n, m);
      }
    }
  }

  /** If the first `n` candidates all exist, there are at least `n` existing names. */
  lemma {:induction false} TakenBound(dir: string, n: nat, names: set<string>)
    requires forall j :: 1 <= j <= n ==> TempName(dir, j) in names
    ensures TempNames(dir, n) <= names && |TempNames(dir, n)| == n
    ensures n <= |names|
  {
    if n > 0 {
      TakenBound(dir, n - 1, names);
      LaterNotInEarlier(dir, n, n - 1);
    }
    assert n == |TempNames(dir, n)| <= |names| by {
      if n > 0 { CardinalityMonotone(TempNames(dir, n), names); }
    }
  }

  lemma CardinalityMonotone(a: set<string>, b: set<string>)
    requires a <= b
    ensures |a| <= |b|
  {
    assert b == a + (b - a);
  }

  /** `p` is the least candidate under `dir` that does not exist in `names`. */
  ghost predicate LeastFree(dir: string, names: set<string>, p: string)
  {
    exists n: nat :: 1 <= n <= |names| + 1 && p == TempName(dir, n) && p !in names &&
      forall j :: 1 <= j < n ==> TempName(dir, j) in names
  }

  /** There is only one least free candidate: the choice of work directory is determined. */
  lemma LeastFreeUnique(dir: string, names: set<string>, p: string, q: string)
    requires LeastFree(dir, names, p) && LeastFree(dir, names, q)
    ensures p == q
  {
    var m: nat :| 1 <= m <= |names| + 1 && p == TempName(dir, m) && p !in names &&
      forall j :: 1 <= j < m ==> TempName(dir, j) in names;
    var n: nat :| 1 <= n <= |names| + 1 && q == TempName(dir, n) && q !in names &&
      forall j :: 1 <= j < n ==> TempName(dir, j) in names;
  }

  /** `path` is `dir` itself or lies below it. */
  predicate InTree(path: string, dir: string)
  {
    path == dir || (|path| > |dir| && path[..|dir| + 1] == dir + "/")
  }

  /** No existing path is `dir` or lies below it. */
  predicate NothingBelow(names: set<string>, dir: string)
  {
    forall n :: n in names ==> !InTree(n, dir)
  }

  lemma ChildInTree(dir: string, name: string)
    ensures InTree(Child(dir, name), dir)
  {
    var p := Child(dir, name);
    assert p[..|dir| + 1] == dir + "/";
  }

  /** The file system the coordinator works on. */
  class FileSystem {
    /** The paths that exist. */
    var names: set<string>
    /** What parsing each file yields. */
    var parses: map<string, Result<Resolver>>
    /** The files opened for reading, in order. */
    var readFiles: seq<string>
    /** `java.io.tmpdir`. */
    const tmpDir: string
    /** The directories `mkdirs` fails to create. */
    const unmakeable: set<string>

    constructor (names: set<string>, tmpDir: string, unmakeable: set<string>)
      ensures this.names == names && parses == map[] && readFiles == []
      ensures this.tmpDir == tmpDir && this.unmakeable == unmakeable
    {
      this.names := names;
      parses := map[];
      readFiles := [];
      this.tmpDir := tmpDir;
      this.unmakeable := unmakeable;
    }

    /** The parent directory `createTempDir` uses: `TEMP_DIR` for a null parent. */
    function DirFor(parent: Option<string>): (dir: string)
      reads this
      ensures parent.None? ==> dir == tmpDir
      ensures parent.Some? ==> dir == parent.value
    {
      if parent.None? then tmpDir else parent.value
    }

    /** The naming loop of `createTempDir`: numbers from 1 up until the name is free. */
    method FindFreeName(parent: Option<string>) returns (workDir: string, count: nat)
      ensures 1 <= count <= |names| + 1
      ensures workDir == TempName(DirFor(parent), count) && workDir !in names
      ensures forall j :: 1 <= j < count ==> TempName(DirFor(parent), j) in names
    {
      var current: Option<string> := None;
      count := 0;
      while current.None? || current.value in names
        invariant current.None? <==> count == 0
        invariant current.Some? ==> current.value == TempName(DirFor(parent), count)
        invariant forall j :: 1 <= j < count ==> TempName(DirFor(parent), j) in names
        invariant count <= |names| + 1
        decreases |names| + 1 - count
      {
        if current.Some? {
          TakenBound(DirFor(parent), count, names);
        }
        count := count + 1;
        current := Some(TempName(DirFor(parent), count));
      }
      workDir := current.value;
    }

    /** `createTempDir(parent)`: the least free candidate, created by `mkdirs`. */
    method CreateTempDir(parent: Option<string>) returns (r: Result<string>)
      modifies this`names
      ensures r.Ok? ==> LeastFree(DirFor(parent), old(names), r.value) && r.value !in unmakeable
      ensures r.Ok? ==> names == old(names) + {r.value}
      ensures r.Fail? ==> names == old(names) && r.error.PatchingException? && r.error.reason.CannotCreateDirectory?
      ensures r.Fail? ==> LeastFree(DirFor(parent), old(names), r.error.reason.path) && r.error.reason.path in unmakeable
    {
      var workDir, count := FindFreeName(parent);
      if workDir in unmakeable {
        return Fail(PatchingException(CannotCreateDirectory(workDir)));
      }
      names := names + {workDir};
      return Ok(workDir);
    }

    /** Writes a file. */
    method AddFile(path: string)
      modifies this`names
      ensures names == old(names) + {path}
    {
      names := names + {path};
    }

    /** `ZipUtils.unzip`: every entry of the archive appears below `dir`. */
    method Unzip(dir: string, entries: map<string, Result<Resolver>>)
      modifies this`names, this`parses
      ensures names == old(names) + set e | e in entries :: Child(dir, e)
      ensures forall e :: e in entries ==> Child(dir, e) in parses && parses[Child(dir, e)] == entries[e]
    {
      var added := set e | e in entries :: Child(dir, e);
      names := names + added;
      parses := parses + map e | e in entries :: Child(dir, e) := entries[e];
      forall e | e in entries ensures Child(dir, e) in parses && parses[Child(dir, e)] == entries[e] {
        ChildName(dir, e);
      }
    }

    /** `IoUtils.recursiveDelete`: `dir` and everything below it disappear. */
    method RecursiveDelete(dir: string)
      modifies this`names
      ensures names == set n | n in old(names) && !InTree(n, dir)
    {
      names := set n | n in names && !InTree(n, dir);
    }

    /** Opens a file for reading and parses it; a missing file is a `FileNotFoundException`. */
    method Parse(path: string) returns (r: Result<Resolver>)
      modifies this`readFiles
      ensures path !in names ==> r == Fail(IOException("file not found")) && readFiles == old(readFiles)
      ensures path in names ==> readFiles == old(readFiles) + [path]
      ensures path in names && path in parses ==> r == parses[path]
      ensures path in names && path !in parses ==> r == Fail(XmlException("unparseable"))
    {
      if path !in names {
        return Fail(IOException("file not found"));
      }
      readFiles := readFiles + [path];
      if path !in parses {
        return Fail(XmlException("unparseable"));
      }
      return parses[path];
    }
  }

  /** The entry name is what follows the directory in a child path, so a
   *  child path names exactly one entry. */
  lemma ChildName(dir: string, e: string)
    ensures forall e' :: Child(dir, e') == Child(dir, e) ==> e' == e
  {
    forall e' | Child(dir, e') == Child(dir, e) ensures e' == e {
      assert e' == Child(dir, e')[|dir| + 1..] == Child(dir, e)[|dir| + 1..] == e;
    }
  }

  /** An uploaded archive: whether it can be copied and unpacked, and its entries. */
  datatype Archive = Archive(readable: bool, entries: map<string, Result<Resolver>>)

  /** The coordinator, with what `InstallationManager` knows about the installation. */
  class PatchCoordinator {
    const fs: FileSystem
    const runner: PhasedPatchRunner
    const name: string
    const version: string
    const current: InstalledState
    const installedIds: seq<string>

    constructor (fs: FileSystem, runner: PhasedPatchRunner, name: string, version: string,
                 current: InstalledState, installedIds: seq<string>)
      ensures this.fs == fs && this.runner == runner && this.name == name && this.version == version
      ensures this.current == current && this.installedIds == installedIds
    {
      this.fs := fs;
      this.runner := runner;
      this.name := name;
      this.version := version;
      this.current := current;
      this.installedIds := installedIds;
    }

    /** The prepare phase of `apply`, stated as far as `apply` depends on it. */
    method PrepareModification(resolve: Resolver, provider: ContentProvider, policy: Policy, modification: Modification)
      returns (r: Outcome)
      requires modification.Valid() && !modification.canceled
      modifies runner, provider, modification`identity, modification`layers, modification`addOns, modification`installed
      ensures runner.Valid() && !modification.canceled
      ensures resolve(modification.name, modification.version).Fail? ==>
        && r == Failed(resolve(modification.name, modification.version).error)
        && runner.state != null && runner.state.patch.None? && runner.state.provider == provider
        && provider.cleanedUp == old(provider.cleanedUp)
      ensures r.Failed? && resolve(modification.name, modification.version).Ok? ==>
        runner.state == null && r.error.PatchingException?
      ensures resolve(modification.name, modification.version) == Ok(None) ==>
        r == Failed(PatchingException(FailedToResolvePatch(modification.name, modification.version)))
      ensures r.Pass? ==>
        && resolve(modification.name, modification.version).Ok?
        && runner.state != null && runner.state.context != null
        && fresh(runner.state) && fresh(runner.state.context) && runner.state.provider == provider
        && runner.state.patch == resolve(modification.name, modification.version).value
        && runner.state.patch.Some?
        && modification.installed == old(modification.installed) + [runner.state.patch.value.patchId]
    {
      r := runner.PrepareToExecute(resolve, provider, policy, modification);
    }

    /**
     * `apply(resolver, provider, policy)`: a new modification, both phases of
     * the runner, and `cancel` on any failure, which is rethrown.
     */
    method ApplyResolved(resolve: Resolver, provider: ContentProvider, policy: Policy)
      returns (r: Result<PatchingResult>, ghost m: Modification)
      requires runner.Valid()
      modifies runner, provider
      ensures fresh(m) && m.name == name && m.version == version
      ensures r.Fail? <==> m.canceled
      ensures r.Fail? ==> r.error.PatchingException?
      ensures runner.Valid()
      ensures resolve(name, version).Ok? ==> runner.state == null
      ensures resolve(name, version).Fail? ==>
        && r == Fail(Rethrow(resolve(name, version).error))
        && runner.state != null && runner.state.patch.None? && runner.state.provider == provider
        && provider.cleanedUp == old(provider.cleanedUp)
      ensures resolve(name, version) == Ok(None) ==> r == Fail(PatchingException(FailedToResolvePatch(name, version)))
      ensures r.Ok? ==>
        resolve(name, version).Ok? && resolve(name, version).value.Some? &&
        r.value == PatchingResult(resolve(name, version).value.value.patchId)
      ensures r.Ok? ==> m.installed == installedIds + [r.value.patchId]
    {
      var modification := new Modification(name, version, current, installedIds);
      m := modification;
      var prepared := PrepareModification(resolve, provider, policy, modification);
      if prepared.Failed? {
        modification.Cancel();
        return Fail(Rethrow(prepared.error)), m;
      }
      r := runner.ExecuteAndFinalize();
      if r.Fail? {
        modification.Cancel();
        return Fail(Rethrow(r.error)), m;
      }
    }

    /**
     * `execute(workDir, policy)`: a multi-patch bundle is refused before
     * anything is read; otherwise `patch.xml` is parsed and applied.
     */
    method Execute(workDir: string, policy: Policy) returns (r: Result<PatchingResult>)
      requires runner.Valid()
      modifies fs`readFiles, runner
      ensures runner.Valid()
      ensures Child(workDir, MultiPatchXml) in fs.names ==>
        r == Fail(PatchingException(BundlesNotSupported)) && fs.readFiles == old(fs.readFiles)
      ensures Child(workDir, MultiPatchXml) !in fs.names && Child(workDir, PatchXmlName) in fs.names ==>
        fs.readFiles == old(fs.readFiles) + [Child(workDir, PatchXmlName)]
      ensures r.Ok? ==>
        Child(workDir, MultiPatchXml) !in fs.names && Child(workDir, PatchXmlName) in fs.names &&
        Child(workDir, PatchXmlName) in fs.parses && fs.parses[Child(workDir, PatchXmlName)].Ok? &&
        var resolve := fs.parses[Child(workDir, PatchXmlName)].value;
        resolve(name, version).Ok? && resolve(name, version).value.Some? &&
        r.value == PatchingResult(resolve(name, version).value.value.patchId)
    {
      if Child(workDir, MultiPatchXml) in fs.names {
        return Fail(PatchingException(BundlesNotSupported));
      }
      var provider := new ContentProvider();
      var parsed := fs.Parse(Child(workDir, PatchXmlName));
      if parsed.Fail? {
        return Fail(parsed.error);
      }
      ghost var m;
      r, m := ApplyResolved(parsed.value, provider, policy);
    }

    /**
     * The part of `apply(InputStream, policy)` inside the work directory: the
     * archive saved to `content`, unpacked beside it and executed, failures
     * rethrown as `PatchingException`s. Everything it adds lies below `dir`.
     */
    method ExecuteArchive(dir: string, archive: Archive, policy: Policy, ghost prior: set<string>)
      returns (r: Result<PatchingResult>)
      requires runner.Valid() && archive.readable
      requires fs.names == prior + {dir}
      modifies fs, runner
      ensures r.Fail? ==> r.error.PatchingException?
      ensures (set n | n in fs.names && !InTree(n, dir)) == (set n | n in prior && !InTree(n, dir))
      ensures MultiPatchXml in archive.entries ==>
        r == Fail(PatchingException(BundlesNotSupported)) && fs.readFiles == old(fs.readFiles)
      ensures r.Ok? ==> MultiPatchXml !in archive.entries
      ensures r.Ok? && NothingBelow(prior, dir) ==>
        PatchXmlName in archive.entries && archive.entries[PatchXmlName].Ok? &&
        var resolve := archive.entries[PatchXmlName].value;
        resolve(name, version).Ok? && resolve(name, version).value.Some? &&
        r.value == PatchingResult(resolve(name, version).value.value.patchId)
    {
      fs.AddFile(Child(dir, "content"));
      fs.Unzip(dir, archive.entries);
      ghost var unpacked := fs.names;
      ChildInTree(dir, "content");
      forall e | e in archive.entries ensures InTree(Child(dir, e), dir) {
        ChildInTree(dir, e);
      }
      if MultiPatchXml in archive.entries {
        assert Child(dir, MultiPatchXml) in fs.names;
      }
      r := Execute(dir, policy);
      if r.Fail? {
        r := Fail(Rethrow(r.error));
      } else if NothingBelow(prior, dir) {
        ChildInTree(dir, PatchXmlName);
        assert Child(dir, PatchXmlName) !in prior + {dir} + {Child(dir, "content")} by {
          assert Child(dir, PatchXmlName) != dir;
        }
        var e :| e in archive.entries && Child(dir, e) == Child(dir, PatchXmlName);
        ChildName(dir, PatchXmlName);
      }
      assert fs.names == unpacked;
    }

    /**
     * `apply(InputStream, policy)`: a work directory is created, the archive
     * is saved to `content` and unpacked beside it, and the result executed;
     * failures are rethrown as `PatchingException`s, and the work directory,
     * once created, is deleted whatever happens.
     */
    method Apply(archive: Archive, policy: Policy) returns (r: Result<PatchingResult>, ghost workDir: Option<string>)
      requires runner.Valid()
      modifies fs, runner
      ensures r.Fail? ==> r.error.PatchingException?
      ensures workDir.None? ==>
        fs.names == old(fs.names) && r.Fail? && r.error.reason.CannotCreateDirectory?
      ensures workDir.Some? ==>
        LeastFree(fs.tmpDir, old(fs.names), workDir.value) &&
        fs.names == set n | n in old(fs.names) && !InTree(n, workDir.value)
      ensures workDir.Some? && archive.readable && MultiPatchXml in archive.entries ==>
        r == Fail(PatchingException(BundlesNotSupported)) && fs.readFiles == old(fs.readFiles)
      ensures !archive.readable ==> r.Fail? && fs.readFiles == old(fs.readFiles)
      ensures r.Ok? ==> workDir.Some? && archive.readable && MultiPatchXml !in archive.entries
      ensures r.Ok? && NothingBelow(old(fs.names), workDir.value) ==>
        PatchXmlName in archive.entries && archive.entries[PatchXmlName].Ok? &&
        var resolve := archive.entries[PatchXmlName].value;
        resolve(name, version).Ok? && resolve(name, version).value.Some? &&
        r.value == PatchingResult(resolve(name, version).value.value.patchId)
    {
      ghost var prior := fs.names;
      var created := fs.CreateTempDir(None);
      if created.Fail? {
        return Fail(Rethrow(created.error)), None;
      }
      var dir := created.value;
      workDir := Some(dir);
      if !archive.readable {
        r := Fail(Rethrow(IOException("cannot read the patch archive")));
      } else {
        r := ExecuteArchive(dir, archive, policy, prior);
      }
      ghost var kept := set n | n in fs.names && !InTree(n, dir);
      assert kept == set n | n in prior && !InTree(n, dir);
      fs.RecursiveDelete(dir);
    }
  }
}
