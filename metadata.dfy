/**
 * Patch descriptors as the runner reads them (patch.xml and rollback.xml,
 * already parsed), and the per-location task definitions the runner
 * collects for every target.
 *
 * `PatchingTasks` itself is not part of this model: `ApplyModifications`,
 * `RollbackModifications` and `AddMissingModifications` are small stand-ins
 * with the shape the runner relies on (one definition per location, the
 * first writer stays current, a differing second writer raises the
 * definition's conflict flag).
 */
module Metadata {
  import opened Common

  datatype Action = Add | Modify | Remove

  datatype ContentModification =
    ContentModification(item: ContentItem, action: Action, hash: string, targetHash: string)

  /** `UpgradeCondition`: the ids a patch requires and the ids it cannot live with. */
  datatype UpgradeCondition = UpgradeCondition(required: seq<string>, incompatibleWith: seq<string>)

  /** `PatchElement` together with its `PatchElementProvider`. */
  datatype PatchElement = PatchElement(
    id: string,
    name: string,
    layerType: LayerType,
    patchType: PatchType,
    condition: UpgradeCondition,
    modifications: seq<ContentModification>)

  /** `Patch.getIdentity()`: the identity a patch applies to and its own upgrade condition. */
  datatype Identity = Identity(
    name: string,
    version: string,
    patchType: PatchType,
    condition: UpgradeCondition,
    resultingVersion: string)

  datatype Patch = Patch(
    patchId: string,
    identity: Identity,
    elements: seq<PatchElement>,
    modifications: seq<ContentModification>)

  /** `InstalledIdentity` as recorded in a rollback descriptor. */
  datatype InstalledState = InstalledState(
    identity: TargetInfo,
    layers: map<string, TargetInfo>,
    addOns: map<string, TargetInfo>)

  /** `RollbackPatch`: the inverse descriptor plus the state before the patch. */
  datatype RollbackPatch = RollbackPatch(patch: Patch, identityState: InstalledState)

  /** One history directory: the original patch.xml and the generated rollback.xml. */
  datatype HistoryRecord = HistoryRecord(original: Patch, rollback: RollbackPatch)

  /** `ContentTaskDefinition`: the current modification at a location and its conflict flag. */
  datatype Definition = Definition(
    item: ContentItem,
    modification: ContentModification,
    patchId: string,
    conflicts: bool)

  /** The definitions of one target, in insertion order (a `LinkedHashMap` by location). */
  type Defs = seq<Definition>

  function Items(d: Defs): set<ContentItem>
  {
    set k | 0 <= k < |d| :: d[k].item
  }

  predicate DistinctItems(d: Defs)
  {
    forall i, j :: 0 <= i < j < |d| ==> d[i].item != d[j].item
  }

  /** The position of the definition for `item`, if there is one. */
  function Find(d: Defs, item: ContentItem): (r: Option<nat>)
    ensures r.Some? ==> r.value < |d| && d[r.value].item == item
    ensures r.None? ==> item !in Items(d)
  {
    if d == [] then None
    else if d[0].item == item then Some(0)
    else match Find(d[1..], item)
      case None => None
      case Some(k) => Some(k + 1)
  }

  /** `ContentItemFilter.ALL_BUT_MISC` and `ContentItemFilter.MISC_ONLY`. */
  datatype ItemFilter = AllButMisc | MiscOnly

  predicate Accepts(f: ItemFilter, item: ContentItem)
  {
    match f
    case AllButMisc => item.kind != MiscItem
    case MiscOnly => item.kind == MiscItem
  }

  function Filtered(mods: seq<ContentModification>, f: ItemFilter): (r: seq<ContentModification>)
    ensures forall m :: m in r <==> m in mods && Accepts(f, m.item)
  {
    if mods == [] then []
    else (if Accepts(f, mods[0].item) then [mods[0]] else []) + Filtered(mods[1..], f)
  }

  /** Merges one modification into the definitions (first writer stays current). */
  function MergeOne(patchId: string, m: ContentModification, d: Defs): (r: Defs)
    ensures DistinctItems(d) ==> DistinctItems(r)
    ensures m.item in Items(r) && Items(d) <= Items(r)
    ensures |d| <= |r| && forall k :: 0 <= k < |d| ==> r[k].item == d[k].item && r[k].modification == d[k].modification
  {
    match Find(d, m.item)
    case None =>
      var r := d + [Definition(m.item, m, patchId, false)];
      assert r[|d|].item == m.item;
      assert forall x :: x in Items(d) ==> exists k :: 0 <= k < |d| && d[k].item == x && r[k] == d[k];
      r
    case Some(k) =>
      if d[k].modification == m then d
      else
        var r := d[k := d[k].(conflicts := true)];
        assert forall j :: 0 <= j < |r| ==> r[j].item == d[j].item;
        r
  }

  /** Stand-in for `PatchingTasks.apply`: every modification ends up with a definition. */
  function ApplyModifications(patchId: string, mods: seq<ContentModification>, d: Defs): (r: Defs)
    ensures DistinctItems(d) ==> DistinctItems(r)
    ensures forall m :: m in mods ==> m.item in Items(r)
    ensures Items(d) <= Items(r)
    decreases |mods|
  {
    if mods == [] then d
    else ApplyModifications(patchId, mods[1..], MergeOne(patchId, mods[0], d))
  }

  /** Stand-in for `PatchingTasks.rollback`: the rollback descriptor's
   *  modifications of the selected kind are merged like new content. */
  function RollbackModifications(patchId: string, rollback: seq<ContentModification>, d: Defs, f: ItemFilter): (r: Defs)
    ensures DistinctItems(d) ==> DistinctItems(r)
    ensures forall m :: m in rollback && Accepts(f, m.item) ==> m.item in Items(r)
    ensures Items(d) <= Items(r)
  {
    ApplyModifications(patchId, Filtered(rollback, f), d)
  }

  /** Stand-in for `PatchingTasks.addMissingModifications`: locations that
   *  have no definition yet receive the recorded modification. */
  function AddMissingModifications(patchId: string, mods: seq<ContentModification>, d: Defs, f: ItemFilter): (r: Defs)
    ensures DistinctItems(d) ==> DistinctItems(r)
    ensures |d| <= |r| && r[..|d|] == d
    decreases |mods|
  {
    if mods == [] then d
    else
      var m := mods[0];
      var next := if Accepts(f, m.item) && Find(d, m.item).None? then d + [Definition(m.item, m, patchId, false)] else d;
      var r := AddMissingModifications(patchId, mods[1..], next, f);
      assert r[..|d|] == next[..|next|][..|d|];
      r
  }
}
