/**
 * Stand-ins for the runner's collaborators whose code is not part of this
 * model: `InstallationManager.InstallationModification` (the identity and the
 * installed layers and add-ons as mutable patching targets) and
 * `IdentityPatchContext` (one entry per target, each holding the
 * per-location task definitions collected so far).
 */
module PatchContextModel {
  import opened Common
  import opened Metadata

  /** The identity entry, or the entry of a layer or add-on, by name. */
  datatype EntryRef = IdentityEntry | LayerEntry(name: string) | AddOnEntry(name: string)

  /** The entry an element of a patch resolves to. */
  function RefFor(e: PatchElement): (r: EntryRef)
    ensures r != IdentityEntry
    ensures r.name == e.name
  {
    if e.layerType == Layer then LayerEntry(e.name) else AddOnEntry(e.name)
  }

  /** The content policy (`ContentVerificationPolicy`): items whose conflicts
   *  are ignored, and items the user excludes from execution. */
  datatype Policy = Policy(ignored: set<ContentItem>, excluded: set<ContentItem>)

  /** Whether the installation state has the target `ref` names. */
  predicate Has(s: InstalledState, ref: EntryRef)
  {
    match ref
    case IdentityEntry => true
    case LayerEntry(n) => n in s.layers
    case AddOnEntry(n) => n in s.addOns
  }

  /** The state of the target `ref` names. */
  function Get(s: InstalledState, ref: EntryRef): TargetInfo
    requires Has(s, ref)
  {
    match ref
    case IdentityEntry => s.identity
    case LayerEntry(n) => s.layers[n]
    case AddOnEntry(n) => s.addOns[n]
  }

  /** The installation state with the target `ref` names replaced by `t`. */
  function Put(s: InstalledState, ref: EntryRef, t: TargetInfo): (r: InstalledState)
    requires Has(s, ref)
    ensures Has(r, ref) && Get(r, ref) == t
    ensures SameKeys(r, s)
    ensures forall o :: o != ref && Has(s, o) ==> Get(r, o) == Get(s, o)
    ensures forall o :: Has(r, o) <==> Has(s, o)
  {
    match ref
    case IdentityEntry => s.(identity := t)
    case LayerEntry(n) => s.(layers := s.layers[n := t])
    case AddOnEntry(n) => s.(addOns := s.addOns[n := t])
  }

  /** Replacing a target twice keeps only the second replacement. */
  lemma PutPut(s: InstalledState, ref: EntryRef, a: TargetInfo, b: TargetInfo)
    requires Has(s, ref)
    ensures Put(Put(s, ref, a), ref, b) == Put(s, ref, b)
  {
    match ref
    case IdentityEntry =>
    case LayerEntry(n) => assert s.layers[n := a][n := b] == s.layers[n := b];
    case AddOnEntry(n) => assert s.addOns[n := a][n := b] == s.addOns[n := b];
  }

  /** Replacing a target by the state it has changes nothing. */
  lemma PutGet(s: InstalledState, ref: EntryRef)
    requires Has(s, ref)
    ensures Put(s, ref, Get(s, ref)) == s
  {
    match ref
    case IdentityEntry =>
    case LayerEntry(n) => assert s.layers[n := s.layers[n]] == s.layers;
    case AddOnEntry(n) => assert s.addOns[n := s.addOns[n]] == s.addOns;
  }

  /** Two states of one installation: the same layers and add-ons. */
  predicate SameKeys(a: InstalledState, b: InstalledState)
  {
    a.layers.Keys == b.layers.Keys && a.addOns.Keys == b.addOns.Keys
  }

  /** Two states of one installation have the same targets. */
  lemma SameKeysHas(a: InstalledState, b: InstalledState, ref: EntryRef)
    requires SameKeys(a, b)
    ensures Has(a, ref) <==> Has(b, ref)
  {
    match ref
    case IdentityEntry =>
    case LayerEntry(n) => assert n in a.layers.Keys <==> n in b.layers.Keys;
    case AddOnEntry(n) => assert n in a.addOns.Keys <==> n in b.addOns.Keys;
  }

  /**
   * `InstallationModification`: the installation state it started from
   * (`getUnmodifiedInstallationState()`), the mutable targets staged on top
   * of it, the ids recorded through `addInstalledPatch`, and whether it was
   * cancelled.  `getPatchIDs()` is the identity's one-off list.  A mutable
   * target answers `isApplied` from its staged state and
   * `getCumulativePatchID()` from the state it started from.
   */
  class Modification {
    const name: string
    const version: string
    const unmodified: InstalledState
    var identity: TargetInfo
    var layers: map<string, TargetInfo>
    var addOns: map<string, TargetInfo>
    var installed: seq<string>
    var canceled: bool

    constructor (name: string, version: string, current: InstalledState, installed: seq<string>)
      ensures this.name == name && this.version == version
      ensures identity == current.identity && layers == current.layers && addOns == current.addOns
      ensures this.installed == installed && !canceled
      ensures unmodified == current && Valid()
    {
      this.name := name;
      this.version := version;
      unmodified := current;
      identity := current.identity;
      layers := current.layers;
      addOns := current.addOns;
      this.installed := installed;
      canceled := false;
    }

    /** The staged targets are those of the state the modification started from. */
    ghost predicate Valid()
      reads this
    {
      SameKeys(Current(this), unmodified)
    }

    /** `addInstalledPatch`. */
    method AddInstalledPatch(id: string)
      modifies this`installed
      ensures installed == old(installed) + [id]
    {
      installed := installed + [id];
    }

    /** `cancel()`. */
    method Cancel()
      modifies this`canceled
      ensures canceled
    {
      canceled := true;
    }

    /** Replaces the state of one target, leaving every other target as it was. */
    method SetTarget(ref: EntryRef, t: TargetInfo)
      requires HasTarget(this, ref)
      modifies this`identity, this`layers, this`addOns
      ensures layers.Keys == old(layers.Keys) && addOns.Keys == old(addOns.Keys)
      ensures TargetOf(this, ref) == t
      ensures ref != IdentityEntry ==> identity == old(identity)
      ensures ref == IdentityEntry ==> layers == old(layers) && addOns == old(addOns)
      ensures forall other :: other != ref && old(HasTarget(this, other)) ==> TargetOf(this, other) == old(TargetOf(this, other))
      ensures Current(this) == Put(old(Current(this)), ref, t)
    {
      match ref
      case IdentityEntry => identity := t;
      case LayerEntry(n) => layers := layers[n := t];
      case AddOnEntry(n) => addOns := addOns[n := t];
    }
  }

  /** The staged state of the installation. */
  function Current(m: Modification): InstalledState
    reads m
  {
    InstalledState(m.identity, m.layers, m.addOns)
  }

  /** Whether the installation has the target `ref` names. */
  predicate HasTarget(m: Modification, ref: EntryRef)
    reads m
  {
    Has(Current(m), ref)
  }

  /** The staged state of the target `ref` names. */
  function TargetOf(m: Modification, ref: EntryRef): TargetInfo
    reads m
    requires HasTarget(m, ref)
  {
    Get(Current(m), ref)
  }

  predicate Distinct(s: seq<string>)
  {
    forall i, j :: 0 <= i < j < |s| ==> s[i] != s[j]
  }

  function LayerRefs(names: seq<string>): (r: seq<EntryRef>)
    ensures |r| == |names| && forall k :: 0 <= k < |names| ==> r[k] == LayerEntry(names[k])
  {
    seq(|names|, k requires 0 <= k < |names| => LayerEntry(names[k]))
  }

  function AddOnRefs(names: seq<string>): (r: seq<EntryRef>)
    ensures |r| == |names| && forall k :: 0 <= k < |names| ==> r[k] == AddOnEntry(names[k])
  {
    seq(|names|, k requires 0 <= k < |names| => AddOnEntry(names[k]))
  }

  /** The definitions of an entry, or none when it has not been created yet. */
  function Entry(defs: map<EntryRef, Defs>, ref: EntryRef): Defs
  {
    if ref in defs then defs[ref] else []
  }

  /**
   * Everything the prepare phase changes, as one value: the staged targets
   * and installed ids of the modification, and the context's definitions,
   * entry order, resulting version and content loaders.
   */
  datatype Staged = Staged(
    targets: InstalledState,
    installed: seq<string>,
    defs: map<EntryRef, Defs>,
    layerNames: seq<string>,
    addOnNames: seq<string>,
    resultingVersion: Option<string>,
    loaders: seq<string>)

  /** A new context over a modification in the given state. */
  function Started(targets: InstalledState, installed: seq<string>): Staged
  {
    Staged(targets, installed, map[IdentityEntry := []], [], [], None, [])
  }

  /** What `resolveForElement` does to an installed element's entry: it is
   *  created, with no definitions and at the end of its kind's order, unless
   *  it exists. */
  function Resolve(s: Staged, e: PatchElement): (r: Staged)
    ensures r.targets == s.targets && r.installed == s.installed
    ensures r.resultingVersion == s.resultingVersion && r.loaders == s.loaders
    ensures r.defs == s.defs[RefFor(e) := Entry(s.defs, RefFor(e))]
  {
    var ref := RefFor(e);
    if ref in s.defs then s
    else if ref.LayerEntry? then s.(defs := s.defs[ref := []], layerNames := s.layerNames + [e.name])
    else s.(defs := s.defs[ref := []], addOnNames := s.addOnNames + [e.name])
  }

  /**
   * `IdentityPatchContext`: the definitions of every entry, the layers and
   * add-ons in the order they were first resolved, the content loaders
   * recorded by port-forwarding, the resulting version, and the items the
   * executed tasks wrote.
   */
  class PatchContext {
    const mode: Mode
    const modification: Modification
    const policy: Policy
    var defs: map<EntryRef, Defs>
    var layerNames: seq<string>
    var addOnNames: seq<string>
    var resultingVersion: Option<string>
    var loaders: seq<string>
    var executed: seq<ContentItem>

    ghost predicate Valid()
      reads this, modification
    {
      && modification.Valid()
      && IdentityEntry in defs
      && (forall n :: LayerEntry(n) in defs <==> n in layerNames)
      && (forall n :: AddOnEntry(n) in defs <==> n in addOnNames)
      && Distinct(layerNames) && Distinct(addOnNames)
      && (forall n :: n in layerNames ==> n in modification.layers)
      && (forall n :: n in addOnNames ==> n in modification.addOns)
    }

    /** Every entry of a valid context names an installed target. */
    lemma EntriesHaveTargets()
      requires Valid()
      ensures forall r :: r in defs ==> HasTarget(modification, r)
    {
      forall r | r in defs ensures HasTarget(modification, r) {
        match r
        case IdentityEntry =>
        case LayerEntry(n) => assert n in layerNames;
        case AddOnEntry(n) => assert n in addOnNames;
      }
    }

    /** The state the prepare phase works on. */
    ghost function Snapshot(): Staged
      reads this, modification
    {
      Staged(Current(modification), modification.installed, defs, layerNames, addOnNames, resultingVersion, loaders)
    }

    /** The entries in task-preparation order: identity, layers, add-ons. */
    function Order(): seq<EntryRef>
      reads this
    {
      [IdentityEntry] + LayerRefs(layerNames) + AddOnRefs(addOnNames)
    }

    constructor (mode: Mode, modification: Modification, policy: Policy)
      requires modification.Valid()
      ensures this.mode == mode && this.modification == modification && this.policy == policy
      ensures Valid()
      ensures defs == map[IdentityEntry := []] && layerNames == [] && addOnNames == []
      ensures resultingVersion == None && loaders == [] && executed == []
      ensures Snapshot() == Started(Current(modification), modification.installed)
    {
      this.mode := mode;
      this.modification := modification;
      this.policy := policy;
      defs := map[IdentityEntry := []];
      layerNames := [];
      addOnNames := [];
      resultingVersion := None;
      loaders := [];
      executed := [];
    }

    /**
     * `resolveForElement`: the entry of the element's layer or add-on,
     * created on first use; an element whose target is not installed is
     * rejected with `noSuchLayer`.
     */
    method ResolveForElement(e: PatchElement) returns (r: Result<EntryRef>)
      requires Valid()
      modifies this`defs, this`layerNames, this`addOnNames
      ensures Valid()
      ensures r.Ok? <==> HasTarget(modification, RefFor(e))
      ensures r.Ok? ==> r.value == RefFor(e) && r.value in defs
      ensures r.Ok? ==> Snapshot() == Resolve(old(Snapshot()), e)
      ensures r.Fail? ==> r.error == PatchingException(NoSuchLayer(e.name))
      ensures forall x :: x in old(defs) ==> x in defs && defs[x] == old(defs)[x]
      ensures r.Fail? ==> defs == old(defs)
    {
      var ref := RefFor(e);
      if !HasTarget(modification, ref) {
        return Fail(PatchingException(NoSuchLayer(e.name)));
      }
      if ref !in defs {
        defs := defs[ref := []];
        if ref.LayerEntry? {
          layerNames := layerNames + [e.name];
        } else {
          addOnNames := addOnNames + [e.name];
        }
      }
      return Ok(ref);
    }

    /** Replaces the definitions of one entry. */
    method SetDefs(ref: EntryRef, d: Defs)
      requires Valid() && ref in defs
      modifies this`defs
      ensures Valid()
      ensures defs == old(defs)[ref := d]
      ensures Snapshot() == old(Snapshot()).(defs := old(defs)[ref := d])
    {
      defs := defs[ref := d];
    }
  }
}
