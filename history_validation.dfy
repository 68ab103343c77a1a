/**
 * The patching-history validation artifacts: `PatchingHistory` (the root
 * state), `PatchArtifact` (the chain of applied patches, newest first, each
 * entry found through the rollback descriptor of the one before it),
 * `PatchHistoryDir` (the history directory of one patch, resolved once) and
 * `RollbackXml` (its `rollback.xml`, resolved once).
 *
 * The installation and the disk are an `Env` value: the identity's target
 * info as `Identity.loadTargetInfo` yields it, the installed image's root of
 * the per-patch history directories, and the rollback descriptors on disk by path,
 * each with the patch id it names and the identity info it records (or the
 * IO failure of loading that info).  The chain loop of the source has no
 * bound when the history is cyclic; here it carries an explicit `fuel`.
 */
module HistoryValidation {
  import opened Common

  const RollbackXmlName: string := "rollback.xml"

  /** A rollback descriptor on disk: the patch it undoes and the identity state it records. */
  datatype Recorded = Recorded(patchId: string, identity: Result<TargetInfo>)

  datatype Env = Env(
    identity: Result<TargetInfo>,
    historyRoot: string,
    rollbacks: map<string, Recorded>)

  /** `new File(dir, name)`: `name` directly inside `dir`. */
  function FileIn(dir: string, name: string): string
  {
    dir + "/" + name
  }

  /** The installed image's history directory of patch `id`: `id` under the history root. */
  function HistoryDirOf(env: Env, id: string): string
  {
    FileIn(env.historyRoot, id)
  }

  /** A patch in the chain: its id and whether it is a one-off or a cumulative patch. */
  type Entry = (string, PatchType)

  /**
   * The state recorded before the patch whose history directory is `dir`,
   * when there is one: its `rollback.xml` exists, the identity info in it
   * loads, and it is not a bare release (BASE with no one-offs).
   */
  function PreviousAt(env: Env, dir: string): Option<TargetInfo>
  {
    var f := FileIn(dir, RollbackXmlName);
    if f in env.rollbacks && env.rollbacks[f].identity.Ok? && !IsReleaseBase(env.rollbacks[f].identity.value)
    then Some(env.rollbacks[f].identity.value)
    else None
  }

  /** The error reported while looking for the previous state: the
   *  descriptor exists but its identity info fails to load. */
  function LoadErrorsAt(env: Env, dir: string): seq<string>
  {
    var f := FileIn(dir, RollbackXmlName);
    if f in env.rollbacks && env.rollbacks[f].identity.Fail?
    then ["Failed to load identity info for patch " + env.rollbacks[f].patchId]
    else []
  }

  function PreviousOf(env: Env, id: string): Option<TargetInfo>
  {
    PreviousAt(env, HistoryDirOf(env, id))
  }

  /**
   * Where the chain starts for an identity: its most recent one-off, else its
   * cumulative patch; nothing for a bare release.  It is the same rule that
   * names the previous state from a rollback descriptor.
   */
  function FirstEntry(identity: TargetInfo): (r: Option<Entry>)
    ensures identity.oneOffs != [] ==> r == Some((identity.oneOffs[0], OneOff))
    ensures identity.oneOffs == [] && identity.cumulative != BASE ==> r == Some((identity.cumulative, Cumulative))
    ensures r.None? <==> IsReleaseBase(identity)
    ensures r.Some? ==> r.value == NewestEntry(identity)
  {
    if identity.oneOffs != [] then Some((identity.oneOffs[0], OneOff))
    else if identity.cumulative == BASE then None
    else Some((identity.cumulative, Cumulative))
  }

  /** The chain from `e`, following previous states for at most `fuel` steps. */
  function Chain(env: Env, e: Entry, fuel: nat): seq<Entry>
    decreases fuel
  {
    [e] + if fuel == 0 then [] else
      match PreviousOf(env, e.0)
      case None => []
      case Some(info) => Chain(env, NewestEntry(info), fuel - 1)
  }

  /**
   * The chain starts at `e`, each entry is the state recorded before the one
   * ahead of it, and it stops at an entry with no previous state or when the
   * fuel runs out.
   */
  lemma {:induction false} ChainShape(env: Env, e: Entry, fuel: nat)
    ensures var c := Chain(env, e, fuel);
      && 1 <= |c| <= fuel + 1
      && c[0] == e
      && (forall k :: 0 <= k < |c| - 1 ==>
            PreviousOf(env, c[k].0).Some? && c[k + 1] == NewestEntry(PreviousOf(env, c[k].0).value))
      && (|c| <= fuel ==> PreviousOf(env, c[|c| - 1].0).None?)
    decreases fuel
  {
    if fuel > 0 && PreviousOf(env, e.0).Some? {
      var next := NewestEntry(PreviousOf(env, e.0).value);
      ChainShape(env, next, fuel - 1);
      var c, rest := Chain(env, e, fuel), Chain(env, next, fuel - 1);
      assert c == [e] + rest;
      forall k | 0 <= k < |c| - 1
        ensures PreviousOf(env, c[k].0).Some? && c[k + 1] == NewestEntry(PreviousOf(env, c[k].0).value)
      {
        if k > 0 {
          assert c[k] == rest[k - 1] && c[k + 1] == rest[k];
        }
      }
    }
  }

  /** One step of the chain: an entry with a previous state, and fuel left. */
  lemma ChainStep(env: Env, e: Entry, fuel: nat)
    requires fuel > 0 && PreviousOf(env, e.0).Some?
    ensures Chain(env, e, fuel) == [e] + Chain(env, NewestEntry(PreviousOf(env, e.0).value), fuel - 1)
  {
  }

  /** The end of the chain: no previous state, or no fuel left. */
  lemma ChainEnd(env: Env, e: Entry, fuel: nat)
    requires fuel == 0 || PreviousOf(env, e.0).None?
    ensures Chain(env, e, fuel) == [e]
  {
  }

  /** A chain that ends before its fuel does is the whole history: more fuel
   *  changes nothing. */
  lemma {:induction false} ChainFuelStable(env: Env, e: Entry, fuel: nat, more: nat)
    requires |Chain(env, e, fuel)| <= fuel <= more
    ensures Chain(env, e, more) == Chain(env, e, fuel)
    decreases fuel
  {
    match PreviousOf(env, e.0)
    case None =>
    case Some(info) =>
      ChainFuelStable(env, NewestEntry(info), fuel - 1, more - 1);
  }

  /** The one-item view of a sequence of patch states. */
  function EntriesOf(s: seq<PatchState>): (r: seq<Entry>)
    ensures |r| == |s| && forall k :: 0 <= k < |s| ==> r[k] == (s[k].patchId, s[k].kind)
  {
    seq(|s|, k requires 0 <= k < |s| => (s[k].patchId, s[k].kind))
  }

  lemma EntriesOfAppend(s: seq<PatchState>, p: PatchState)
    ensures EntriesOf(s + [p]) == EntriesOf(s) + [(p.patchId, p.kind)]
  {
    assert |EntriesOf(s + [p])| == |s| + 1;
  }

  /** `1, 2, …, n`: the collection sizes at which validation ran, one per add. */
  function Counting(n: nat): (r: seq<nat>)
    ensures |r| == n && forall k :: 0 <= k < n ==> r[k] == k + 1
  {
    seq(n, k requires 0 <= k < n => k + 1)
  }

  lemma CountingStep(n: nat)
    ensures Counting(n) + [n + 1] == Counting(n + 1)
  {
    assert |Counting(n) + [n + 1]| == n + 1;
  }

  /** The validation context's error handler: the errors reported so far. */
  class ErrorHandler {
    var errors: seq<string>

    constructor ()
      ensures errors == []
    {
      errors := [];
    }

    method Error(msg: string)
      modifies this`errors
      ensures errors == old(errors) + [msg]
    {
      errors := errors + [msg];
    }
  }

  /** `RollbackXml.State`: the descriptor file of one history directory. */
  class RollbackXmlState {
    const file: string

    constructor (file: string)
      ensures this.file == file
    {
      this.file := file;
    }
  }

  /** `PatchXml.State`; how `PatchXml` resolves it is not part of this model. */
  class PatchXmlState {
    const file: string

    constructor (file: string)
      ensures this.file == file
    {
      this.file := file;
    }
  }

  /** `PatchHistoryDir.State`: the directory and its cached descriptor states. */
  class HistoryDirState {
    const dir: string
    var rollbackXml: RollbackXmlState?
    var patchXml: PatchXmlState?

    /** A cached rollback state is the one for this directory. */
    ghost predicate Valid()
      reads this
    {
      rollbackXml != null ==> rollbackXml.file == FileIn(dir, RollbackXmlName)
    }

    constructor (dir: string)
      ensures this.dir == dir && rollbackXml == null && patchXml == null
      ensures Valid()
    {
      this.dir := dir;
      rollbackXml := null;
      patchXml := null;
    }

    /** `getRollbackXml`: the cached state, else the one `RollbackXml` resolves
     *  (which caches it here). */
    method GetRollbackXml() returns (r: RollbackXmlState)
      requires Valid()
      modifies this`rollbackXml
      ensures Valid()
      ensures r.file == FileIn(dir, RollbackXmlName) && rollbackXml == r
      ensures old(rollbackXml) != null ==> r == old(rollbackXml)
      ensures old(rollbackXml) == null ==> fresh(r)
    {
      if rollbackXml == null {
        r := RollbackXmlInitialState(this);
      } else {
        r := rollbackXml;
      }
    }

    /** `getPatchXml`: the cached state, else `resolved`, the state the
     *  `PatchXml` artifact yields for this directory. */
    method GetPatchXml(resolved: PatchXmlState?) returns (r: PatchXmlState?)
      ensures patchXml != null ==> r == patchXml
      ensures patchXml == null ==> r == resolved
    {
      r := if patchXml == null then resolved else patchXml;
    }
  }

  /**
   * `RollbackXml.getInitialState`: the first call creates the state for
   * `rollback.xml` directly inside the directory and caches it on the
   * directory; later calls return that same state.  The context plays no part.
   */
  method RollbackXmlInitialState(h: HistoryDirState) returns (r: RollbackXmlState)
    requires h.Valid()
    modifies h`rollbackXml
    ensures h.Valid() && h.rollbackXml == r
    ensures r.file == FileIn(h.dir, RollbackXmlName)
    ensures old(h.rollbackXml) != null ==> r == old(h.rollbackXml)
    ensures old(h.rollbackXml) == null ==> fresh(r)
  {
    if h.rollbackXml == null {
      h.rollbackXml := new RollbackXmlState(FileIn(h.dir, RollbackXmlName));
    }
    r := h.rollbackXml;
  }

  /** `PatchArtifact.State`: one patch of the chain. */
  class PatchState {
    const patchId: string
    const kind: PatchType
    var historyDir: HistoryDirState?
    var previous: PatchState?

    ghost predicate Valid()
      reads this, historyDir
    {
      historyDir != null ==> historyDir.Valid()
    }

    constructor (patchId: string, kind: PatchType)
      ensures this.patchId == patchId && this.kind == kind
      ensures historyDir == null && previous == null
    {
      this.patchId := patchId;
      this.kind := kind;
      historyDir := null;
      previous := null;
    }

    /** The state named by a rollback descriptor's identity info: its most
     *  recent one-off if it has any, otherwise its cumulative patch. */
    constructor FromRollback(info: TargetInfo)
      ensures (patchId, kind) == NewestEntry(info)
      ensures historyDir == null && previous == null
    {
      if info.oneOffs == [] {
        patchId := info.cumulative;
        kind := Cumulative;
      } else {
        patchId := info.oneOffs[0];
        kind := OneOff;
      }
      historyDir := null;
      previous := null;
    }

    /**
     * `hasPrevious`: false when the descriptor is missing or its identity
     * info fails to load (which is reported), otherwise whether the recorded
     * state is anything but a bare release.  Without a history directory the
     * source dereferences null.
     */
    method HasPrevious(env: Env, eh: ErrorHandler) returns (r: Result<bool>)
      requires Valid()
      modifies historyDir, eh`errors
      ensures Valid()
      ensures historyDir == null ==> r == Fail(RuntimeFailure("NullPointerException")) && eh.errors == old(eh.errors)
      ensures historyDir != null ==> r == Ok(PreviousAt(env, historyDir.dir).Some?)
      ensures historyDir != null ==> eh.errors == old(eh.errors) + LoadErrorsAt(env, historyDir.dir)
    {
      if historyDir == null {
        return Fail(RuntimeFailure("NullPointerException"));
      }
      var x := historyDir.GetRollbackXml();
      if x.file !in env.rollbacks {
        return Ok(false);
      }
      var patch := env.rollbacks[x.file];
      if patch.identity.Fail? {
        eh.Error("Failed to load identity info for patch " + patch.patchId);
        return Ok(false);
      }
      var info := patch.identity.value;
      return Ok(BASE != info.cumulative || info.oneOffs != []);
    }

    /**
     * `getPrevious`: memoised.  Once computed it returns the same state; when
     * there is no previous state it returns null and remembers nothing.
     */
    method GetPrevious(env: Env, eh: ErrorHandler) returns (r: Result<PatchState?>)
      requires Valid()
      modifies this`previous, historyDir, eh`errors
      ensures Valid()
      ensures old(previous) != null ==> r == Ok(old(previous)) && previous == old(previous) && eh.errors == old(eh.errors)
      ensures old(previous) == null && historyDir == null ==> r == Fail(RuntimeFailure("NullPointerException"))
      ensures old(previous) == null && historyDir != null ==>
        eh.errors == old(eh.errors) + LoadErrorsAt(env, historyDir.dir)
      ensures old(previous) == null && historyDir != null && PreviousAt(env, historyDir.dir).None? ==>
        r == Ok(null) && previous == null
      ensures old(previous) == null && historyDir != null && PreviousAt(env, historyDir.dir).Some? ==>
        && r.Ok? && r.value != null && fresh(r.value) && previous == r.value
        && (r.value.patchId, r.value.kind) == NewestEntry(PreviousAt(env, historyDir.dir).value)
        && r.value.historyDir == null && r.value.previous == null
    {
      if previous == null {
        var has := HasPrevious(env, eh);
        if has.Fail? {
          return Fail(has.error);
        }
        if !has.value {
          return Ok(null);
        }
        var x := historyDir.GetRollbackXml();
        var info := env.rollbacks[x.file].identity.value;
        previous := new PatchState.FromRollback(info);
      }
      return Ok(previous);
    }
  }

  /**
   * `PatchArtifact.CollectionState` with the parts of `ArtifactCollectionState`
   * it uses: the patches in order, the index of the current one, and (for the
   * model) the collection size each time it was validated.
   */
  class PatchCollection {
    var items: seq<PatchState>
    var index: nat
    var validatedAt: seq<nat>

    constructor ()
      ensures items == [] && index == 0 && validatedAt == []
    {
      items := [];
      index := 0;
      validatedAt := [];
    }

    /** `getState`: the current patch, null past the end. */
    function Current(): PatchState?
      reads this
    {
      if index < |items| then items[index] else null
    }

    function CurrentSet(): set<PatchState>
      reads this
    {
      if index < |items| then {items[index]} else {}
    }

    method Next()
      modifies this`index
      ensures index == old(index) + 1
    {
      index := index + 1;
    }

    method ResetIndex()
      modifies this`index
      ensures index == 0
    {
      index := 0;
    }
  }

  /**
   * `PatchHistoryDir.getInitialState`: null when the collection has no
   * current patch; otherwise the current patch's history directory, created
   * once as the installed image's history directory for its id.
   */
  method ResolveHistoryDir(coll: PatchCollection, env: Env) returns (r: HistoryDirState?)
    modifies coll.CurrentSet()
    ensures coll.Current() == null ==> r == null
    ensures coll.Current() != null ==> coll.Current().historyDir == r && r != null
    ensures coll.Current() != null ==> coll.Current().previous == old(coll.Current().previous)
    ensures coll.Current() != null && old(coll.Current().historyDir) != null ==>
      r == old(coll.Current().historyDir)
    ensures coll.Current() != null && old(coll.Current().historyDir) == null ==>
      fresh(r) && r.dir == HistoryDirOf(env, coll.Current().patchId) && r.rollbackXml == null && r.Valid()
  {
    var patch := coll.Current();
    if patch == null {
      return null;
    }
    if patch.historyDir == null {
      var dir := HistoryDirOf(env, patch.patchId);
      patch.historyDir := new HistoryDirState(dir);
    }
    return patch.historyDir;
  }

  /**
   * `CollectionState.add(ctx, patch)`: append, then validate the collection.
   * Validation is modelled by what this chain relies on: it resolves the
   * current patch's history directory.
   */
  method AddValidated(c: PatchCollection, env: Env, patch: PatchState)
    requires c.index == |c.items|
    requires patch.historyDir == null
    modifies c`items, c`validatedAt, patch`historyDir
    ensures c.items == old(c.items) + [patch] && c.validatedAt == old(c.validatedAt) + [|c.items|]
    ensures fresh(patch.historyDir) && patch.historyDir.dir == HistoryDirOf(env, patch.patchId)
    ensures patch.historyDir.rollbackXml == null
  {
    c.items := c.items + [patch];
    c.validatedAt := c.validatedAt + [|c.items|];
    var dir := HistoryDirOf(env, patch.patchId);
    patch.historyDir := new HistoryDirState(dir);
  }

  /** `PatchingHistory.State`: the root state, holding the patch collection once built. */
  class HistoryState {
    var patches: PatchCollection?

    constructor ()
      ensures patches == null
    {
      patches := null;
    }

    method SetPatches(c: PatchCollection)
      modifies this`patches
      ensures GetPatches() == c
    {
      patches := c;
    }

    function GetPatches(): PatchCollection?
      reads this
    {
      patches
    }

    /** `getLastAppliedPatch`: rewinds the collection and returns its first
     *  patch, the newest one; only the index changes. */
    method GetLastAppliedPatch() returns (r: Result<PatchState?>)
      modifies patches
      ensures patches == old(patches)
      ensures patches == null ==> r == Fail(RuntimeFailure("NullPointerException"))
      ensures patches != null ==>
        && patches.index == 0
        && patches.items == old(patches.items) && patches.validatedAt == old(patches.validatedAt)
        && r == Ok(if patches.items == [] then null else patches.items[0])
    {
      if patches == null {
        return Fail(RuntimeFailure("NullPointerException"));
      }
      patches.ResetIndex();
      return Ok(patches.Current());
    }
  }

  /** `PatchingHistory.getInitialState`: always a fresh state with no collection. */
  method HistoryInitialState() returns (r: HistoryState)
    ensures fresh(r) && r.patches == null
  {
    r := new HistoryState();
  }

  /** What a freshly built collection holds for `identity`. */
  ghost predicate ChainBuilt(env: Env, identity: TargetInfo, fuel: nat, c: PatchCollection)
    reads c
  {
    && c.index == 0
    && c.validatedAt == Counting(|c.items|)
    && (FirstEntry(identity).None? ==> c.items == [])
    && (FirstEntry(identity).Some? ==> EntriesOf(c.items) == Chain(env, FirstEntry(identity).value, fuel))
  }

  /** The errors reported while building the chain: those of its last entry's lookup. */
  function ChainErrors(env: Env, identity: TargetInfo, fuel: nat): seq<string>
  {
    match FirstEntry(identity)
    case None => []
    case Some(e) =>
      var c := Chain(env, e, fuel);
      assert |c| >= 1 by { ChainShape(env, e, fuel); }
      LoadErrorsAt(env, HistoryDirOf(env, c[|c| - 1].0))
  }

  /** Moving one entry from the chain to the part already built. */
  lemma ChainAdvance(env: Env, done: seq<Entry>, e: Entry, next: Entry, fuel: nat, whole: seq<Entry>)
    requires fuel > 0 && PreviousOf(env, e.0).Some? && next == NewestEntry(PreviousOf(env, e.0).value)
    requires done + Chain(env, e, fuel) == whole
    ensures (done + [e]) + Chain(env, next, fuel - 1) == whole
  {
    ChainStep(env, e, fuel);
  }

  /**
   * One turn of the constructor's loop, taken when the last patch has a
   * previous state: fetch it, advance the index, add it, and ask whether it
   * has a previous state in turn.
   */
  method ExtendChain(c: PatchCollection, env: Env, patch: PatchState, eh: ErrorHandler, ghost base: seq<string>)
    returns (p: PatchState, more: Result<bool>)
    requires AtLast(c, env, patch) && PreviousOf(env, patch.patchId).Some?
    requires eh.errors == base + LoadErrorsAt(env, HistoryDirOf(env, patch.patchId))
    modifies c`items, c`index, c`validatedAt, patch`previous, patch.historyDir, eh`errors
    ensures fresh(p) && fresh(p.historyDir) && patch.previous == p
    ensures (p.patchId, p.kind) == NewestEntry(PreviousOf(env, patch.patchId).value)
    ensures AtLast(c, env, p)
    ensures EntriesOf(c.items) == EntriesOf(old(c.items)) + [(p.patchId, p.kind)]
    ensures more == Ok(PreviousOf(env, p.patchId).Some?)
    ensures eh.errors == base + LoadErrorsAt(env, HistoryDirOf(env, p.patchId))
  {
    assert eh.errors == base;
    var prev := patch.GetPrevious(env, eh);
    p := prev.value;
    c.Next();
    ghost var before := c.items;
    AddValidated(c, env, p);
    EntriesOfAppend(before, p);
    CountingStep(|before|);
    more := p.HasPrevious(env, eh);
  }

  /** The state of the construction after each add: `patch` is the last and
   *  current patch, with its history directory resolved and no previous
   *  state fetched yet. */
  ghost predicate AtLast(c: PatchCollection, env: Env, patch: PatchState)
    reads c, patch, patch.historyDir
  {
    && c.items != [] && patch == c.items[|c.items| - 1] && c.index == |c.items| - 1
    && c.validatedAt == Counting(|c.items|)
    && patch.previous == null && patch.historyDir != null && patch.historyDir.Valid()
    && patch.historyDir.dir == HistoryDirOf(env, patch.patchId)
  }

  /**
   * The loop of the `CollectionState` constructor: while the last patch has a
   * previous state (and fuel is left), fetch it, advance and add it.
   */
  method FollowChain(c: PatchCollection, env: Env, start: Entry, eh: ErrorHandler, fuel: nat)
    requires c.items == [] && c.index == 0 && c.validatedAt == []
    modifies c`items, c`index, c`validatedAt, eh`errors
    ensures c.items != []
    ensures EntriesOf(c.items) == Chain(env, start, fuel)
    ensures c.validatedAt == Counting(|c.items|)
    ensures eh.errors == old(eh.errors) + LoadErrorsAt(env, HistoryDirOf(env, c.items[|c.items| - 1].patchId))
  {
    var patch := new PatchState(start.0, start.1);
    AddValidated(c, env, patch);
    ghost var done: seq<Entry> := [];
    var steps := 0;
    var more := patch.HasPrevious(env, eh);
    while more == Ok(true) && steps < fuel
      invariant 0 <= steps <= fuel
      invariant fresh(patch) && fresh(patch.historyDir) && AtLast(c, env, patch)
      invariant more == Ok(PreviousOf(env, patch.patchId).Some?)
      invariant EntriesOf(c.items) == done + [(patch.patchId, patch.kind)]
      invariant done + Chain(env, (patch.patchId, patch.kind), fuel - steps) == Chain(env, start, fuel)
      invariant eh.errors == old(eh.errors) + LoadErrorsAt(env, HistoryDirOf(env, patch.patchId))
      decreases fuel - steps
    {
      ghost var e := (patch.patchId, patch.kind);
      var p;
      p, more := ExtendChain(c, env, patch, eh, old(eh.errors));
      ChainAdvance(env, done, e, (p.patchId, p.kind), fuel - steps, Chain(env, start, fuel));
      done := done + [e];
      patch := p;
      steps := steps + 1;
    }
    ChainEnd(env, (patch.patchId, patch.kind), fuel - steps);
  }

  /**
   * The `CollectionState` constructor: registers itself on the parent, then
   * adds the newest patch and each previous one in turn, validating after
   * every add, and rewinds to the first.  A bare release gives an empty
   * collection.
   */
  method NewCollectionState(env: Env, parent: HistoryState, identity: TargetInfo, eh: ErrorHandler, fuel: nat)
    returns (c: PatchCollection)
    modifies parent`patches, eh`errors
    ensures fresh(c) && parent.patches == c
    ensures ChainBuilt(env, identity, fuel, c)
    ensures eh.errors == old(eh.errors) + ChainErrors(env, identity, fuel)
  {
    c := new PatchCollection();
    parent.SetPatches(c);
    var first := FirstEntry(identity);
    if first.None? {
      return;
    }
    FollowChain(c, env, first.value, eh, fuel);
    c.ResetIndex();
  }

  /**
   * `PatchArtifact.getInitialState`: a collection already on the parent is
   * returned as it is; otherwise the identity's info is loaded (a failure
   * yields null) and the collection is built from it.
   */
  method PatchArtifactInitialState(parent: HistoryState, env: Env, eh: ErrorHandler, fuel: nat)
    returns (r: PatchCollection?)
    modifies parent`patches, eh`errors
    ensures old(parent.patches) != null ==>
      r == old(parent.patches) && parent.patches == r && eh.errors == old(eh.errors)
    ensures old(parent.patches) == null && env.identity.Fail? ==>
      r == null && parent.patches == null && eh.errors == old(eh.errors)
    ensures old(parent.patches) == null && env.identity.Ok? ==>
      && r != null && fresh(r) && parent.patches == r
      && ChainBuilt(env, env.identity.value, fuel, r)
      && eh.errors == old(eh.errors) + ChainErrors(env, env.identity.value, fuel)
  {
    var patches := parent.GetPatches();
    if patches != null {
      return patches;
    }
    if env.identity.Fail? {
      return null;
    }
    r := NewCollectionState(env, parent, env.identity.value, eh, fuel);
  }

  /**
   * `PatchingHistory.getLastAppliedPatch(ctx)`: the current patch of the
   * `PatchArtifact` state resolved under a fresh history state, which is the
   * newest patch of the chain (null for a bare release); the source
   * dereferences null when the identity info cannot be loaded.
   */
  method LastAppliedPatch(env: Env, eh: ErrorHandler, fuel: nat) returns (r: Result<Option<Entry>>)
    modifies eh`errors
    ensures env.identity.Fail? ==> r == Fail(RuntimeFailure("NullPointerException"))
    ensures env.identity.Ok? ==> r == Ok(FirstEntry(env.identity.value))
  {
    var h := HistoryInitialState();
    var c := PatchArtifactInitialState(h, env, eh, fuel);
    if c == null {
      return Fail(RuntimeFailure("NullPointerException"));
    }
    var p := c.Current();
    if p == null {
      return Ok(None);
    }
    ChainShape(env, FirstEntry(env.identity.value).value, fuel);
    return Ok(Some((p.patchId, p.kind)));
  }
}
