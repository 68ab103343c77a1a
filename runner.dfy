/**
 * `IdentityPhasedPatchRunner`: the two-phase patch runner.  The prepare phase
 * checks that a patch applies, invalidates what a cumulative patch replaces,
 * applies the patch's elements and identity modifications, port-forwards
 * module changes of earlier cumulative patches and prepares one task per
 * definition; the execute phase runs the tasks and finalises the context.
 */
module Runner {
  import opened Common
  import opened Metadata
  import opened PatchContextModel

  /** What `PatchingTask.prepare` reports for an item: the content is as
   *  expected, it differs, or reading it failed with an `IOException`. */
  datatype PrepareOutcome = Clean | NotClean | PrepareIOError

  /** A cumulative entry of `PatchingHistory`: the patch id it was recorded
   *  under and the patch id it recorded for each layer and add-on. */
  datatype CpEntry = CpEntry(patchId: string, layerPatches: map<string, string>, addOnPatches: map<string, string>)

  /**
   * The installed image and the collaborators the runner cannot see:
   * the history directories (patch.xml and rollback.xml per patch id), the
   * cumulative entries of the patching history, newest first, the ids for
   * which `validateRollbackState` succeeds, what `prepare` reports per item,
   * the items whose `execute` throws, and whether `finalize` throws.
   */
  datatype Environment = Environment(
    history: map<string, HistoryRecord>,
    cumulativeHistory: seq<CpEntry>,
    validRollbackStates: set<string>,
    prepare: ContentItem -> PrepareOutcome,
    executeFails: set<ContentItem>,
    finalizeFails: bool)

  datatype PatchingResult = PatchingResult(patchId: string)

  /** `PreparedTask`: the task for one content item and the entry it belongs to. */
  datatype PreparedTask = PreparedTask(item: ContentItem, entry: EntryRef)

  // ---------------------------------------------------------------------
  // Upgrade conditions
  // ---------------------------------------------------------------------

  /** The position of the first id that is not applied to `t`. */
  function FirstNotApplied(ids: seq<string>, t: TargetInfo): (k: nat)
    ensures k <= |ids|
    ensures forall j :: 0 <= j < k ==> IsApplied(t, ids[j])
    ensures k < |ids| ==> !IsApplied(t, ids[k])
  {
    if ids == [] || !IsApplied(t, ids[0]) then 0 else 1 + FirstNotApplied(ids[1..], t)
  }

  /** The position of the first id that is applied to `t`. */
  function FirstApplied(ids: seq<string>, t: TargetInfo): (k: nat)
    ensures k <= |ids|
    ensures forall j :: 0 <= j < k ==> !IsApplied(t, ids[j])
    ensures k < |ids| ==> IsApplied(t, ids[k])
  {
    if ids == [] || IsApplied(t, ids[0]) then 0 else 1 + FirstApplied(ids[1..], t)
  }

  /**
   * The verdict of `checkUpgradeConditions`: the first required id that is
   * not applied, else the first incompatible id that is applied, else pass.
   */
  function UpgradeCheck(c: UpgradeCondition, t: TargetInfo): (r: Outcome)
    ensures r.Pass? <==>
      (forall x :: x in c.required ==> IsApplied(t, x)) &&
      (forall y :: y in c.incompatibleWith ==> !IsApplied(t, y))
    ensures r.Failed? ==>
      (exists i :: 0 <= i < |c.required| && !IsApplied(t, c.required[i]) &&
        (forall j :: 0 <= j < i ==> IsApplied(t, c.required[j])) &&
        r.error == PatchingException(RequiresPatch(c.required[i])))
      ||
      ((forall x :: x in c.required ==> IsApplied(t, x)) &&
       exists i :: 0 <= i < |c.incompatibleWith| && IsApplied(t, c.incompatibleWith[i]) &&
        (forall j :: 0 <= j < i ==> !IsApplied(t, c.incompatibleWith[j])) &&
        r.error == PatchingException(IncompatiblePatch(c.incompatibleWith[i])))
  {
    var i := FirstNotApplied(c.required, t);
    if i < |c.required| then Failed(PatchingException(RequiresPatch(c.required[i])))
    else
      var j := FirstApplied(c.incompatibleWith, t);
      if j < |c.incompatibleWith| then Failed(PatchingException(IncompatiblePatch(c.incompatibleWith[j])))
      else Pass
  }

  /** `checkUpgradeConditions`: the two check loops. */
  method CheckUpgradeConditions(c: UpgradeCondition, t: TargetInfo) returns (r: Outcome)
    ensures r == UpgradeCheck(c, t)
  {
    for i := 0 to |c.required|
      invariant forall j :: 0 <= j < i ==> IsApplied(t, c.required[j])
    {
      if !IsApplied(t, c.required[i]) {
        assert FirstNotApplied(c.required, t) == i;
        return Failed(PatchingException(RequiresPatch(c.required[i])));
      }
    }
    assert FirstNotApplied(c.required, t) == |c.required|;
    for i := 0 to |c.incompatibleWith|
      invariant forall j :: 0 <= j < i ==> !IsApplied(t, c.incompatibleWith[j])
    {
      if IsApplied(t, c.incompatibleWith[i]) {
        assert FirstApplied(c.incompatibleWith, t) == i;
        return Failed(PatchingException(IncompatiblePatch(c.incompatibleWith[i])));
      }
    }
    assert FirstApplied(c.incompatibleWith, t) == |c.incompatibleWith|;
    return Pass;
  }

  /** `FirstNotApplied` is the least position of an unapplied id. */
  lemma {:induction false} FirstNotAppliedLeast(ids: seq<string>, t: TargetInfo, k: nat)
    requires k <= |ids|
    requires forall j :: 0 <= j < k ==> IsApplied(t, ids[j])
    requires k < |ids| ==> !IsApplied(t, ids[k])
    ensures FirstNotApplied(ids, t) == k
    decreases k
  {
    if k > 0 {
      FirstNotAppliedLeast(ids[1..], t, k - 1);
    }
  }

  // ---------------------------------------------------------------------
  // Restoring a target from its recorded history
  // ---------------------------------------------------------------------

  /** Re-applies the one-offs `ids` as one-offs, the last one first. */
  function ReapplyOneOffs(t: TargetInfo, ids: seq<string>): (r: TargetInfo)
    ensures r.cumulative == t.cumulative
    ensures r.oneOffs == ids + t.oneOffs
    decreases |ids|
  {
    if ids == [] then t
    else
      var n := |ids| - 1;
      var r := ReapplyOneOffs(ApplyPatch(t, ids[n], OneOff), ids[..n]);
      assert ids[..n] + [ids[n]] == ids;
      r
  }

  /**
   * The state `restoreFromHistory` leaves a target in: for a cumulative
   * patch, the rollback patch id becomes the cumulative id and the recorded
   * one-offs are re-applied in reverse, so they come back in their recorded
   * order in front of the target's remaining one-offs; a one-off leaves the
   * target alone.
   */
  function Restored(t: TargetInfo, rollbackPatchId: string, kind: PatchType, history: TargetInfo): TargetInfo
  {
    if kind == Cumulative then ReapplyOneOffs(ApplyPatch(t, rollbackPatchId, Cumulative), history.oneOffs) else t
  }

  /** What restoration means for the target. */
  lemma RestoredShape(t: TargetInfo, rollbackPatchId: string, kind: PatchType, history: TargetInfo)
    ensures kind == Cumulative ==>
      Restored(t, rollbackPatchId, kind, history) == TargetInfo(rollbackPatchId, history.oneOffs + t.oneOffs)
    ensures kind == OneOff ==> Restored(t, rollbackPatchId, kind, history) == t
  {
  }

  /**
   * Restoration reproduces the recorded state exactly when the target has no
   * one-offs left and the rollback patch id is the recorded cumulative id;
   * the code only asserts the latter, with assertions disabled.
   */
  lemma RestoredIsHistory(t: TargetInfo, rollbackPatchId: string, history: TargetInfo)
    requires t.oneOffs == [] && rollbackPatchId == history.cumulative
    ensures Restored(t, rollbackPatchId, Cumulative, history) == history
  {
    assert history.oneOffs + [] == history.oneOffs;
  }

  /** A target with one-offs left over is not restored to the recorded state. */
  lemma RestoredKeepsLeftovers(t: TargetInfo, rollbackPatchId: string, history: TargetInfo)
    requires t.oneOffs != []
    ensures Restored(t, rollbackPatchId, Cumulative, history) != history
  {
    assert |Restored(t, rollbackPatchId, Cumulative, history).oneOffs| > |history.oneOffs|;
  }

  /** `restoreFromHistory` on one target of the modification. */
  method RestoreFromHistory(m: Modification, ref: EntryRef, rollbackPatchId: string, kind: PatchType, history: TargetInfo)
    requires HasTarget(m, ref)
    modifies m`identity, m`layers, m`addOns
    ensures m.layers.Keys == old(m.layers.Keys) && m.addOns.Keys == old(m.addOns.Keys)
    ensures TargetOf(m, ref) == Restored(old(TargetOf(m, ref)), rollbackPatchId, kind, history)
    ensures ref != IdentityEntry ==> m.identity == old(m.identity)
    ensures forall other :: other != ref && old(HasTarget(m, other)) ==> TargetOf(m, other) == old(TargetOf(m, other))
    ensures Current(m) == Put(old(Current(m)), ref, Restored(old(TargetOf(m, ref)), rollbackPatchId, kind, history))
  {
    ghost var c0 := Current(m);
    if kind == Cumulative {
      ghost var t0 := TargetOf(m, ref);
      m.SetTarget(ref, ApplyPatch(TargetOf(m, ref), rollbackPatchId, kind));
      var i := |history.oneOffs|;
      while i > 0
        invariant 0 <= i <= |history.oneOffs|
        invariant m.layers.Keys == old(m.layers.Keys) && m.addOns.Keys == old(m.addOns.Keys)
        invariant TargetOf(m, ref) == TargetInfo(rollbackPatchId, history.oneOffs[i..] + t0.oneOffs)
        invariant forall other :: other != ref && old(HasTarget(m, other)) ==> TargetOf(m, other) == old(TargetOf(m, other))
        invariant ref != IdentityEntry ==> m.identity == old(m.identity)
        invariant Current(m) == Put(c0, ref, TargetOf(m, ref))
      {
        i := i - 1;
        assert [history.oneOffs[i]] + (history.oneOffs[i + 1..] + t0.oneOffs) == history.oneOffs[i..] + t0.oneOffs;
        ghost var before := TargetOf(m, ref);
        m.SetTarget(ref, ApplyPatch(TargetOf(m, ref), history.oneOffs[i], OneOff));
        PutPut(c0, ref, before, TargetOf(m, ref));
      }
      RestoredShape(t0, rollbackPatchId, kind, history);
    } else {
      PutGet(c0, ref);
    }
  }

  // ---------------------------------------------------------------------
  // Rollback element matching
  // ---------------------------------------------------------------------

  /** An element's kind and layer or add-on name (the key of `originalLayers` / `originalAddOns`). */
  function KeyOf(e: PatchElement): (LayerType, string)
  {
    (e.layerType, e.name)
  }

  /** Two elements name the same entry exactly when they have the same kind and name. */
  lemma RefForKey(a: PatchElement, b: PatchElement)
    ensures RefFor(a) == RefFor(b) <==> KeyOf(a) == KeyOf(b)
  {
  }

  function KeySet(es: seq<PatchElement>): set<(LayerType, string)>
  {
    set k | 0 <= k < |es| :: KeyOf(es[k])
  }

  predicate UniqueKeys(es: seq<PatchElement>)
  {
    forall i, j :: 0 <= i < j < |es| ==> KeyOf(es[i]) != KeyOf(es[j])
  }

  /** The rollback descriptor's elements match the original's one to one, by kind and name. */
  predicate RollbackMatches(original: seq<PatchElement>, rollback: seq<PatchElement>)
  {
    UniqueKeys(original) && UniqueKeys(rollback) && KeySet(original) == KeySet(rollback)
  }

  lemma KeySetSnoc(es: seq<PatchElement>, i: nat)
    requires i < |es|
    ensures KeySet(es[..i + 1]) == KeySet(es[..i]) + {KeyOf(es[i])}
  {
    var a, b := es[..i + 1], es[..i];
    forall x | x in KeySet(a) ensures x in KeySet(b) + {KeyOf(es[i])} {
      var k :| 0 <= k < |a| && KeyOf(a[k]) == x;
      if k < i { assert KeyOf(b[k]) == x; }
    }
    forall x | x in KeySet(b) + {KeyOf(es[i])} ensures x in KeySet(a) {
      if x == KeyOf(es[i]) { assert KeyOf(a[i]) == x; }
      else { var k :| 0 <= k < |b| && KeyOf(b[k]) == x; assert KeyOf(a[k]) == x; }
    }
  }

  lemma KeySetCons(es: seq<PatchElement>)
    requires es != []
    ensures KeySet(es) == {KeyOf(es[0])} + KeySet(es[1..])
  {
    var t := es[1..];
    forall x | x in KeySet(es) ensures x in {KeyOf(es[0])} + KeySet(t) {
      var k :| 0 <= k < |es| && KeyOf(es[k]) == x;
      if k > 0 { assert KeyOf(t[k - 1]) == x; }
    }
    forall x | x in KeySet(t) ensures x in KeySet(es) {
      var k :| 0 <= k < |t| && KeyOf(t[k]) == x;
      assert KeyOf(es[k + 1]) == x;
    }
  }

  lemma UniqueKeysSnoc(es: seq<PatchElement>, i: nat)
    requires i < |es| && UniqueKeys(es[..i]) && KeyOf(es[i]) !in KeySet(es[..i])
    ensures UniqueKeys(es[..i + 1])
  {
    var s, p := es[..i + 1], es[..i];
    forall a, b | 0 <= a < b < i + 1 ensures KeyOf(s[a]) != KeyOf(s[b]) {
      if b == i {
        assert KeyOf(p[a]) in KeySet(p);
      } else {
        assert s[a] == p[a] && s[b] == p[b];
      }
    }
  }

  /** The first element whose kind and name is in `seen`, or is that of an earlier element. */
  function FirstDuplicate(es: seq<PatchElement>, seen: set<(LayerType, string)>): Option<PatchElement>
    decreases |es|
  {
    if es == [] then None
    else if KeyOf(es[0]) in seen then Some(es[0])
    else FirstDuplicate(es[1..], seen + {KeyOf(es[0])})
  }

  /** There is no duplicate exactly when every kind and name occurs once and none was seen before. */
  lemma {:induction false} FirstDuplicateMeaning(es: seq<PatchElement>, seen: set<(LayerType, string)>)
    ensures FirstDuplicate(es, seen).None? <==> UniqueKeys(es) && KeySet(es) !! seen
    decreases |es|
  {
    if es != [] {
      var t := es[1..];
      FirstDuplicateMeaning(t, seen + {KeyOf(es[0])});
      KeySetCons(es);
      if UniqueKeys(es) {
        forall i, j | 0 <= i < j < |t| ensures KeyOf(t[i]) != KeyOf(t[j]) {
          assert t[i] == es[i + 1] && t[j] == es[j + 1];
        }
        forall j | 0 <= j < |t| ensures KeyOf(t[j]) != KeyOf(es[0]) {
          assert t[j] == es[j + 1];
        }
      }
      if UniqueKeys(t) && KeySet(t) !! seen + {KeyOf(es[0])} {
        forall i, j | 0 <= i < j < |es| ensures KeyOf(es[i]) != KeyOf(es[j]) {
          assert es[j] == t[j - 1];
          if i > 0 { assert es[i] == t[i - 1]; } else { assert KeyOf(t[j - 1]) in KeySet(t); }
        }
      }
    }
  }

  /** The original elements by kind and name, built in order. */
  function Index(es: seq<PatchElement>): (r: map<(LayerType, string), PatchElement>)
    requires UniqueKeys(es)
    ensures r.Keys == KeySet(es)
    ensures forall k :: 0 <= k < |es| ==> r[KeyOf(es[k])] == es[k]
    decreases |es|
  {
    if es == [] then map[]
    else
      var n := |es| - 1;
      assert forall k :: 0 <= k < n ==> es[..n][k] == es[k];
      var m := Index(es[..n]);
      IndexExtend(es, m);
      m[KeyOf(es[n]) := es[n]]
  }

  /** Adding the last element to the index of the others indexes them all. */
  lemma IndexExtend(es: seq<PatchElement>, m: map<(LayerType, string), PatchElement>)
    requires es != [] && UniqueKeys(es)
    requires m.Keys == KeySet(es[..|es| - 1])
    requires forall k :: 0 <= k < |es| - 1 ==> m[KeyOf(es[k])] == es[k]
    ensures m[KeyOf(es[|es| - 1]) := es[|es| - 1]].Keys == KeySet(es)
    ensures forall k :: 0 <= k < |es| ==> m[KeyOf(es[|es| - 1]) := es[|es| - 1]][KeyOf(es[k])] == es[k]
  {
    var n := |es| - 1;
    KeySetSnoc(es, n);
    assert es[..n + 1] == es;
    forall k | 0 <= k < n ensures KeyOf(es[k]) != KeyOf(es[n]) {
    }
  }

  /** The recorded or unmodified state of an element's layer or add-on, if there is one. */
  function StateFor(s: InstalledState, e: PatchElement): (r: Option<TargetInfo>)
    ensures r.Some? <==> Has(s, RefFor(e))
    ensures r.Some? ==> r.value == Get(s, RefFor(e))
  {
    if Has(s, RefFor(e)) then Some(Get(s, RefFor(e))) else None
  }

  /** Every rollback element names an installed target and a recorded state. */
  predicate Resolvable(s: InstalledState, es: seq<PatchElement>, h: InstalledState)
  {
    forall k :: 0 <= k < |es| ==> Has(s, RefFor(es[k])) && StateFor(h, es[k]).Some?
  }

  /** The failure `rollback` raises when a history file cannot be read. */
  function HistoryReadFailure(patchId: string): Failure
  {
    PatchingException(Cause(IOException("cannot read the history of " + patchId)))
  }

  /** One step of the scan for a duplicate past an element not seen before. */
  lemma FirstDuplicateStep(es: seq<PatchElement>, i: nat)
    requires i < |es| && KeyOf(es[i]) !in KeySet(es[..i])
    ensures FirstDuplicate(es[i..], KeySet(es[..i])) == FirstDuplicate(es[i + 1..], KeySet(es[..i + 1]))
  {
    KeySetSnoc(es, i);
    assert es[i..][0] == es[i] && es[i..][1..] == es[i + 1..];
  }

  /** Indexing one more element adds its kind and name. */
  lemma IndexSnoc(es: seq<PatchElement>, i: nat)
    requires i < |es| && UniqueKeys(es[..i + 1])
    ensures UniqueKeys(es[..i])
    ensures Index(es[..i + 1]) == Index(es[..i])[KeyOf(es[i]) := es[i]]
  {
    assert es[..i + 1][..i] == es[..i];
  }

  /** Checks that the original patch names every layer and add-on once, and
   *  indexes its elements by kind and name. */
  method IndexOriginals(es: seq<PatchElement>) returns (r: Result<map<(LayerType, string), PatchElement>>)
    ensures r.Ok? <==> UniqueKeys(es)
    ensures r.Ok? ==> r.value.Keys == KeySet(es)
    ensures r.Ok? ==> forall e :: e in es ==> r.value[KeyOf(e)] == e
    ensures r.Ok? ==> r.value == Index(es)
    ensures r.Fail? ==>
      r.error.PatchingException? && r.error.reason.DuplicateLayer? &&
      (r.error.reason.layerType, r.error.reason.name) in KeySet(es)
    ensures r.Fail? ==> (FirstDuplicate(es, {}).Some? &&
      r.error == PatchingException(DuplicateLayer(FirstDuplicate(es, {}).value.layerType, FirstDuplicate(es, {}).value.name)))
  {
    var originals: map<(LayerType, string), PatchElement> := map[];
    assert KeySet(es[..0]) == {} && es[0..] == es;
    for i := 0 to |es|
      invariant UniqueKeys(es[..i])
      invariant originals == Index(es[..i])
      invariant FirstDuplicate(es, {}) == FirstDuplicate(es[i..], KeySet(es[..i]))
    {
      var e := es[i];
      if KeyOf(e) in originals {
        assert es[i..][0] == e;
        FirstDuplicateMeaning(es, {});
        assert KeyOf(es[i]) in KeySet(es);
        return Fail(PatchingException(DuplicateLayer(e.layerType, e.name)));
      }
      FirstDuplicateStep(es, i);
      UniqueKeysSnoc(es, i);
      IndexSnoc(es, i);
      originals := originals[KeyOf(e) := e];
    }
    assert es[..|es|] == es;
    forall e | e in es ensures originals[KeyOf(e)] == e {
      var k :| 0 <= k < |es| && es[k] == e;
    }
    return Ok(originals);
  }

  /** The target a rollback element leaves: the original element's id rolled
   *  back and, in ROLLBACK mode, the state restored from the record. */
  function RolledBack(t: TargetInfo, e: PatchElement, originalId: string, record: TargetInfo, mode: Mode): TargetInfo
  {
    var back := RollbackTarget(t, originalId);
    if mode == RollbackMode then Restored(back, e.id, e.patchType, record) else back
  }

  /**
   * The outcome and the state of a round of a loop.  When a round fails the
   * loop stops, and only the outcome of the run is meant; its state then is
   * the one before the failing round.
   */
  datatype Run = Run(outcome: Outcome, staged: Staged)

  /**
   * One round of the loop over the rollback descriptor's elements: the
   * element's entry is resolved, its definitions are rolled back, the
   * original element's id is rolled back on its target and, in ROLLBACK
   * mode, the target is restored from the recorded state.  A target missing
   * from the recorded state fails with the `NullPointerException` the source
   * would raise.
   */
  function RollbackOne(s: Staged, e: PatchElement, originalId: string, history: InstalledState, mode: Mode): Run
  {
    var ref := RefFor(e);
    if !Has(s.targets, ref) then Run(Failed(PatchingException(NoSuchLayer(e.name))), s)
    else if StateFor(history, e).None? then Run(Failed(Rethrow(RuntimeFailure("NullPointerException"))), s)
    else
      var r := Resolve(s, e);
      Run(Pass, r.(
        targets := Put(s.targets, ref, RolledBack(Get(s.targets, ref), e, originalId, StateFor(history, e).value, mode)),
        defs := r.defs[ref := RollbackModifications(e.id, e.modifications, Entry(s.defs, ref), AllButMisc)]))
  }

  /** The loop over the rollback descriptor's elements: each takes the
   *  original element of its kind and name out of `originals`, failing with
   *  `noSuchLayer` when there is none left. */
  function RollbackElementsRun(s: Staged, originals: map<(LayerType, string), PatchElement>,
                               es: seq<PatchElement>, history: InstalledState, mode: Mode): Run
    decreases |es|
  {
    if es == [] then Run(Pass, s)
    else if KeyOf(es[0]) !in originals then Run(Failed(PatchingException(NoSuchLayer(es[0].name))), s)
    else
      var step := RollbackOne(s, es[0], originals[KeyOf(es[0])].id, history, mode);
      if step.outcome.Failed? then step
      else RollbackElementsRun(step.staged, originals - {KeyOf(es[0])}, es[1..], history, mode)
  }

  /** The first element that names the entry `ref`, if any. */
  function ElementNaming(es: seq<PatchElement>, ref: EntryRef): (r: Option<PatchElement>)
    ensures r.Some? ==> r.value in es && RefFor(r.value) == ref
    ensures r.None? ==> forall k :: 0 <= k < |es| ==> RefFor(es[k]) != ref
    decreases |es|
  {
    if es == [] then None
    else if RefFor(es[0]) == ref then Some(es[0])
    else ElementNaming(es[1..], ref)
  }

  /** A passing element loop leaves the same layers and add-ons installed. */
  lemma {:induction false} RollbackElementsKeys(s: Staged, originals: map<(LayerType, string), PatchElement>,
                                               es: seq<PatchElement>, history: InstalledState, mode: Mode)
    requires RollbackElementsRun(s, originals, es, history, mode).outcome.Pass?
    ensures SameKeys(RollbackElementsRun(s, originals, es, history, mode).staged.targets, s.targets)
    ensures Has(RollbackElementsRun(s, originals, es, history, mode).staged.targets, IdentityEntry)
    ensures forall ref :: Has(RollbackElementsRun(s, originals, es, history, mode).staged.targets, ref) <==> Has(s.targets, ref)
    decreases |es|
  {
    if es != [] {
      var s1 := RollbackOne(s, es[0], originals[KeyOf(es[0])].id, history, mode).staged;
      RollbackElementsKeys(s1, originals - {KeyOf(es[0])}, es[1..], history, mode);
    }
  }

  /**
   * What a passing rollback element loop does to one target: the layer or
   * add-on of an element is rolled back from its original element's id (and
   * restored in ROLLBACK mode); every other target, the identity included,
   * is left as it was.
   */
  lemma {:induction false} RollbackElementsTarget(s: Staged, originals: map<(LayerType, string), PatchElement>,
                                                 es: seq<PatchElement>, history: InstalledState, mode: Mode, ref: EntryRef)
    requires RollbackElementsRun(s, originals, es, history, mode).outcome.Pass?
    requires Has(s.targets, ref)
    ensures Has(RollbackElementsRun(s, originals, es, history, mode).staged.targets, ref)
    ensures ElementNaming(es, ref).Some? ==>
      KeyOf(ElementNaming(es, ref).value) in originals && StateFor(history, ElementNaming(es, ref).value).Some?
    ensures Get(RollbackElementsRun(s, originals, es, history, mode).staged.targets, ref) ==
      match ElementNaming(es, ref)
      case None => Get(s.targets, ref)
      case Some(e) => RolledBack(Get(s.targets, ref), e, originals[KeyOf(e)].id, StateFor(history, e).value, mode)
    decreases |es|
  {
    RollbackElementsRunPass(s, originals, es, history, mode);
    if ElementNaming(es, ref).Some? {
      var k :| 0 <= k < |es| && es[k] == ElementNaming(es, ref).value;
      assert KeyOf(es[k]) in KeySet(es);
    }
    if es != [] {
      var e, rest, key := es[0], es[1..], KeyOf(es[0]);
      var s1 := RollbackOne(s, e, originals[key].id, history, mode).staged;
      var left := originals - {key};
      RollbackOneTarget(s, e, originals[key].id, history, mode, ref);
      RollbackElementsTarget(s1, left, rest, history, mode, ref);
      if RefFor(e) == ref {
        match ElementNaming(rest, ref)
        case None =>
        case Some(e2) =>
          RefForKey(e, e2);
          assert false;
      }
    }
  }

  /** A passing round of the rollback element loop changes only its element's target. */
  lemma RollbackOneTarget(s: Staged, e: PatchElement, originalId: string, history: InstalledState, mode: Mode, ref: EntryRef)
    requires RollbackOne(s, e, originalId, history, mode).outcome.Pass?
    ensures Has(RollbackOne(s, e, originalId, history, mode).staged.targets, ref) <==> Has(s.targets, ref)
    ensures Has(s.targets, ref) ==>
      Get(RollbackOne(s, e, originalId, history, mode).staged.targets, ref) ==
      if RefFor(e) == ref then RolledBack(Get(s.targets, ref), e, originalId, StateFor(history, e).value, mode)
      else Get(s.targets, ref)
  {
  }

  /** When every element names an installed target and a recorded state,
   *  each names a distinct original element, the element loop passes. */
  lemma {:induction false} ResolvableRollbackPasses(s: Staged, originals: map<(LayerType, string), PatchElement>,
                                                   es: seq<PatchElement>, history: InstalledState, mode: Mode)
    requires Resolvable(s.targets, es, history) && UniqueKeys(es) && KeySet(es) <= originals.Keys
    ensures RollbackElementsRun(s, originals, es, history, mode).outcome.Pass?
    decreases |es|
  {
    if es != [] {
      var e, rest := es[0], es[1..];
      assert KeyOf(es[0]) in KeySet(es);
      var s1 := RollbackOne(s, e, originals[KeyOf(e)].id, history, mode).staged;
      KeySetCons(es);
      forall i, j | 0 <= i < j < |rest| ensures KeyOf(rest[i]) != KeyOf(rest[j]) {
        assert rest[i] == es[i + 1] && rest[j] == es[j + 1];
      }
      forall j | 0 <= j < |rest| ensures KeyOf(rest[j]) != KeyOf(e) && Has(s1.targets, RefFor(rest[j])) && StateFor(history, rest[j]).Some? {
        assert rest[j] == es[j + 1];
      }
      ResolvableRollbackPasses(s1, originals - {KeyOf(e)}, rest, history, mode);
    }
  }

  /**
   * One round of the loop over the rollback descriptor's elements, stated
   * as the loop's view of the run before and after it.
   */
  method RollbackElement(ctx: PatchContext, e: PatchElement, originalId: string, history: InstalledState)
    returns (r: Outcome)
    requires ctx.Valid()
    modifies ctx`defs, ctx`layerNames, ctx`addOnNames
    modifies ctx.modification`identity, ctx.modification`layers, ctx.modification`addOns
    ensures ctx.Valid()
    ensures SameTargets(ctx.modification, old(ctx.modification.layers.Keys), old(ctx.modification.addOns.Keys))
    ensures ctx.modification.identity == old(ctx.modification.identity)
    ensures r.Failed? ==> r.error.PatchingException?
    ensures !old(HasTarget(ctx.modification, RefFor(e))) ==> r == Failed(PatchingException(NoSuchLayer(e.name)))
    ensures r.Pass? <==> old(HasTarget(ctx.modification, RefFor(e))) && StateFor(history, e).Some?
    ensures r.Pass? ==>
      TargetOf(ctx.modification, RefFor(e)) ==
        RolledBack(old(TargetOf(ctx.modification, RefFor(e))), e, originalId, StateFor(history, e).value, ctx.mode)
    ensures r.Pass? ==>
      RefFor(e) in ctx.defs &&
      ctx.defs[RefFor(e)] == RollbackModifications(e.id, e.modifications, Entry(old(ctx.defs), RefFor(e)), AllButMisc)
    ensures r == RollbackOne(old(ctx.Snapshot()), e, originalId, history, ctx.mode).outcome
    ensures r.Pass? ==> ctx.Snapshot() == RollbackOne(old(ctx.Snapshot()), e, originalId, history, ctx.mode).staged
  {
    var m := ctx.modification;
    ghost var s0 := ctx.Snapshot();
    var resolved := ctx.ResolveForElement(e);
    if resolved.Fail? {
      return Failed(resolved.error);
    }
    var ref := resolved.value;
    ctx.SetDefs(ref, RollbackModifications(e.id, e.modifications, ctx.defs[ref], AllButMisc));
    r := RollbackEntryTarget(m, e, originalId, history, ctx.mode);
  }

  /** The end of a round of the rollback element loop: the entry's target
   *  is rolled back and, in ROLLBACK mode, restored from the recorded state. */
  method RollbackEntryTarget(m: Modification, e: PatchElement, originalId: string, history: InstalledState, mode: Mode)
    returns (r: Outcome)
    requires HasTarget(m, RefFor(e))
    modifies m`identity, m`layers, m`addOns
    ensures r.Pass? <==> StateFor(history, e).Some?
    ensures r.Failed? ==> r == Failed(Rethrow(RuntimeFailure("NullPointerException")))
    ensures m.layers.Keys == old(m.layers.Keys) && m.addOns.Keys == old(m.addOns.Keys)
    ensures m.identity == old(m.identity)
    ensures r.Pass? ==>
      Current(m) == Put(old(Current(m)), RefFor(e), RolledBack(old(TargetOf(m, RefFor(e))), e, originalId, StateFor(history, e).value, mode))
  {
    var ref := RefFor(e);
    ghost var c0, t0 := Current(m), TargetOf(m, ref);
    m.SetTarget(ref, RollbackTarget(TargetOf(m, ref), originalId));
    var info := StateFor(history, e);
    if info.None? {
      return Failed(Rethrow(RuntimeFailure("NullPointerException")));
    }
    if mode == RollbackMode {
      RestoreFromHistory(m, ref, e.id, e.patchType, info.value);
      PutPut(c0, ref, RollbackTarget(t0, originalId), TargetOf(m, ref));
    }
    return Pass;
  }

  /** The facts about the targets that hold while elements are rolled back. */
  ghost predicate SameTargets(m: Modification, layerKeys: set<string>, addOnKeys: set<string>)
    reads m
  {
    m.layers.Keys == layerKeys && m.addOns.Keys == addOnKeys
  }

  /**
   * The loop over the rollback descriptor's elements: each must take the
   * original element of its kind and name out of `originals`; its target's
   * definitions are rolled back, the original element id is rolled back on
   * the target and, in ROLLBACK mode, the target is restored from `history`.
   * `left` are the original elements no rollback element took.
   */
  method RollbackElements(ctx: PatchContext, originals: map<(LayerType, string), PatchElement>,
                          es: seq<PatchElement>, history: InstalledState)
    returns (r: Outcome, left: map<(LayerType, string), PatchElement>)
    requires ctx.Valid()
    modifies ctx`defs, ctx`layerNames, ctx`addOnNames
    modifies ctx.modification`identity, ctx.modification`layers, ctx.modification`addOns
    ensures ctx.Valid()
    ensures SameTargets(ctx.modification, old(ctx.modification.layers.Keys), old(ctx.modification.addOns.Keys))
    ensures ctx.modification.identity == old(ctx.modification.identity)
    ensures r.Failed? ==> r.error.PatchingException?
    ensures r.Pass? ==> UniqueKeys(es) && KeySet(es) <= originals.Keys && left.Keys == originals.Keys - KeySet(es)
    ensures old(Resolvable(Current(ctx.modification), es, history)) && UniqueKeys(es) && KeySet(es) <= originals.Keys ==> r.Pass?
    ensures r == RollbackElementsRun(old(ctx.Snapshot()), originals, es, history, ctx.mode).outcome
    ensures r.Pass? ==> ctx.Snapshot() == RollbackElementsRun(old(ctx.Snapshot()), originals, es, history, ctx.mode).staged
  {
    var m := ctx.modification;
    ghost var run := RollbackElementsRun(ctx.Snapshot(), originals, es, history, ctx.mode);
    RollbackElementsRunMeaning(ctx.Snapshot(), originals, es, history, ctx.mode);
    left := originals;
    assert KeySet(es[..0]) == {} && es[0..] == es;
    for i := 0 to |es|
      invariant ctx.Valid()
      invariant m.identity == old(m.identity)
      invariant left.Keys == originals.Keys - KeySet(es[..i])
      invariant run == RollbackElementsRun(ctx.Snapshot(), left, es[i..], history, ctx.mode)
    {
      KeySetSnoc(es, i);
      var e := es[i];
      assert es[i..][0] == e && es[i..][1..] == es[i + 1..];
      if KeyOf(e) !in left {
        return Failed(PatchingException(NoSuchLayer(e.name))), left;
      }
      var original := left[KeyOf(e)];
      left := left - {KeyOf(e)};
      r := RollbackElement(ctx, e, original.id, history);
      if r.Failed? {
        return r, left;
      }
    }
    assert es[..|es|] == es;
    return Pass, left;
  }

  /** The element loop passes when every element names an installed target,
   *  a recorded state and a distinct original element, and only then does
   *  each name a distinct original element. */
  lemma RollbackElementsRunMeaning(s: Staged, originals: map<(LayerType, string), PatchElement>,
                                   es: seq<PatchElement>, history: InstalledState, mode: Mode)
    ensures RollbackElementsRun(s, originals, es, history, mode).outcome.Pass? ==> UniqueKeys(es) && KeySet(es) <= originals.Keys
    ensures Resolvable(s.targets, es, history) && UniqueKeys(es) && KeySet(es) <= originals.Keys ==>
      RollbackElementsRun(s, originals, es, history, mode).outcome.Pass?
  {
    if RollbackElementsRun(s, originals, es, history, mode).outcome.Pass? {
      RollbackElementsRunPass(s, originals, es, history, mode);
    }
    if Resolvable(s.targets, es, history) && UniqueKeys(es) && KeySet(es) <= originals.Keys {
      ResolvableRollbackPasses(s, originals, es, history, mode);
    }
  }

  /** A passing element loop took a distinct original element for every rollback element. */
  lemma {:induction false} RollbackElementsRunPass(s: Staged, originals: map<(LayerType, string), PatchElement>,
                                                  es: seq<PatchElement>, history: InstalledState, mode: Mode)
    requires RollbackElementsRun(s, originals, es, history, mode).outcome.Pass?
    ensures UniqueKeys(es) && KeySet(es) <= originals.Keys
    ensures forall k :: 0 <= k < |es| ==> StateFor(history, es[k]).Some?
    decreases |es|
  {
    if es != [] {
      var e, rest := es[0], es[1..];
      var s1 := RollbackOne(s, e, originals[KeyOf(e)].id, history, mode).staged;
      RollbackElementsRunPass(s1, originals - {KeyOf(e)}, rest, history, mode);
      forall k | 1 <= k < |es| ensures StateFor(history, es[k]).Some? {
        assert es[k] == rest[k - 1];
      }
      KeySetCons(es);
      forall i, j | 0 <= i < j < |es| ensures KeyOf(es[i]) != KeyOf(es[j]) {
        assert es[j] == rest[j - 1];
        if i > 0 { assert es[i] == rest[i - 1]; } else { assert KeyOf(rest[j - 1]) in KeySet(rest); }
      }
    }
  }

  /**
   * `rollback`: undoes one installed patch inside the context.  The original
   * descriptor's elements are indexed by kind and name, the rollback
   * descriptor's elements are matched against them, every original element
   * must be matched, and finally the identity's definitions and patch id are
   * rolled back and, in ROLLBACK mode, the identity is restored from the
   * recorded state; a cumulative patch sets the resulting version.
   */
  function RollbackRun(env: Environment, patchId: string, s: Staged, mode: Mode): Run
  {
    if patchId !in env.history then Run(Failed(HistoryReadFailure(patchId)), s)
    else
      var original := env.history[patchId].original;
      var rb := env.history[patchId].rollback;
      FirstDuplicateMeaning(original.elements, {});
      match FirstDuplicate(original.elements, {})
      case Some(d) => Run(Failed(PatchingException(DuplicateLayer(d.layerType, d.name))), s)
      case None =>
        var step := RollbackElementsRun(s, Index(original.elements), rb.patch.elements, rb.identityState, mode);
        if step.outcome.Failed? then step
        else if !(KeySet(original.elements) <= KeySet(rb.patch.elements)) then
          Run(Failed(PatchingException(InvalidRollbackInformation)), step.staged)
        else
          var s2 := step.staged;
          var back := RollbackTarget(s2.targets.identity, patchId);
          var restored := if mode == RollbackMode
            then Restored(back, rb.patch.patchId, rb.patch.identity.patchType, rb.identityState.identity) else back;
          Run(Pass, s2.(
            targets := Put(s2.targets, IdentityEntry, restored),
            defs := s2.defs[IdentityEntry := RollbackModifications(patchId, rb.patch.modifications, Entry(s2.defs, IdentityEntry), MiscOnly)],
            resultingVersion := if rb.patch.identity.patchType == Cumulative then Some(rb.patch.identity.resultingVersion) else s2.resultingVersion))
  }

  /** The element loop of a rollback leaves the identity's definitions alone. */
  lemma {:induction false} RollbackElementsIdentityDefs(s: Staged, originals: map<(LayerType, string), PatchElement>,
                                                       es: seq<PatchElement>, history: InstalledState, mode: Mode)
    ensures Entry(RollbackElementsRun(s, originals, es, history, mode).staged.defs, IdentityEntry) == Entry(s.defs, IdentityEntry)
    decreases |es|
  {
    if es != [] && KeyOf(es[0]) in originals {
      var step := RollbackOne(s, es[0], originals[KeyOf(es[0])].id, history, mode);
      RollbackElementsIdentityDefs(step.staged, originals - {KeyOf(es[0])}, es[1..], history, mode);
    }
  }

  /** A passing rollback removes the rolled-back patch's misc modifications
   *  from the identity's definitions, whatever the element loop did. */
  lemma RollbackRunIdentityDefs(env: Environment, patchId: string, s: Staged, mode: Mode)
    requires RollbackRun(env, patchId, s, mode).outcome.Pass?
    ensures patchId in env.history
    ensures Entry(RollbackRun(env, patchId, s, mode).staged.defs, IdentityEntry) ==
      RollbackModifications(patchId, env.history[patchId].rollback.patch.modifications, Entry(s.defs, IdentityEntry), MiscOnly)
  {
    var original := env.history[patchId].original;
    var rb := env.history[patchId].rollback;
    FirstDuplicateMeaning(original.elements, {});
    RollbackElementsIdentityDefs(s, Index(original.elements), rb.patch.elements, rb.identityState, mode);
  }

  /** The id of the patch's element for the layer or add-on `ref`, if it has one. */
  function ElementIdFor(es: seq<PatchElement>, ref: EntryRef): Option<string>
    decreases |es|
  {
    if es == [] then None
    else if RefFor(es[0]) == ref then Some(es[0].id)
    else ElementIdFor(es[1..], ref)
  }

  /** With one element per kind and name, the element for an entry is the one that names it. */
  lemma {:induction false} ElementIdForAt(es: seq<PatchElement>, k: nat)
    requires UniqueKeys(es) && k < |es|
    ensures ElementIdFor(es, RefFor(es[k])) == Some(es[k].id)
    decreases k
  {
    if k > 0 {
      RefForKey(es[0], es[k]);
      assert es[1..][k - 1] == es[k];
      ElementIdForAt(es[1..], k - 1);
    }
  }

  /** A patch with no element for an entry has no id for it. */
  lemma {:induction false} ElementIdForNone(es: seq<PatchElement>, ref: EntryRef)
    requires forall k :: 0 <= k < |es| ==> RefFor(es[k]) != ref
    ensures ElementIdFor(es, ref) == None
    decreases |es|
  {
    if es != [] {
      ElementIdForNone(es[1..], ref);
    }
  }

  /** The layer or add-on `ref` after rolling back, in APPLY mode, the patch recorded under `rec`. */
  function RolledBackLayer(rec: HistoryRecord, ref: EntryRef, t: TargetInfo): TargetInfo
  {
    match ElementIdFor(rec.original.elements, ref)
    case Some(id) => RollbackTarget(t, id)
    case None => t
  }

  /** What a passing `rollback` is made of: the element loop over the
   *  indexed original elements passes, every original element is matched,
   *  and the identity alone changes afterwards. */
  lemma RollbackRunPass(env: Environment, patchId: string, s: Staged, mode: Mode)
    requires RollbackRun(env, patchId, s, mode).outcome.Pass?
    ensures patchId in env.history && UniqueKeys(env.history[patchId].original.elements)
    ensures var rec := env.history[patchId];
      var step := RollbackElementsRun(s, Index(rec.original.elements), rec.rollback.patch.elements, rec.rollback.identityState, mode);
      && step.outcome.Pass?
      && KeySet(rec.original.elements) <= KeySet(rec.rollback.patch.elements)
      && Has(step.staged.targets, IdentityEntry)
      && SameKeys(RollbackRun(env, patchId, s, mode).staged.targets, step.staged.targets)
      && forall ref :: ref != IdentityEntry && Has(step.staged.targets, ref) ==>
           Get(RollbackRun(env, patchId, s, mode).staged.targets, ref) == Get(step.staged.targets, ref)
  {
    FirstDuplicateMeaning(env.history[patchId].original.elements, {});
  }

  /** The element for an entry named by a rollback element is the original element of its kind and name. */
  lemma MatchedElementId(original: seq<PatchElement>, es: seq<PatchElement>, k: nat)
    requires UniqueKeys(original) && k < |es| && KeyOf(es[k]) in KeySet(original)
    ensures ElementIdFor(original, RefFor(es[k])) == Some(Index(original)[KeyOf(es[k])].id)
  {
    var j :| 0 <= j < |original| && KeyOf(original[j]) == KeyOf(es[k]);
    RefForKey(original[j], es[k]);
    ElementIdForAt(original, j);
  }

  /** An entry no rollback element names has no original element, when every original element is matched. */
  lemma UnmatchedElementId(original: seq<PatchElement>, es: seq<PatchElement>, ref: EntryRef)
    requires KeySet(original) <= KeySet(es)
    requires forall k :: 0 <= k < |es| ==> RefFor(es[k]) != ref
    ensures ElementIdFor(original, ref) == None
  {
    forall j | 0 <= j < |original| ensures RefFor(original[j]) != ref {
      assert KeyOf(original[j]) in KeySet(es);
      var k :| 0 <= k < |es| && KeyOf(es[k]) == KeyOf(original[j]);
      RefForKey(original[j], es[k]);
    }
    ElementIdForNone(original, ref);
  }

  /**
   * In APPLY mode a passing `rollback` rolls the id of the patch's own
   * element back on every layer and add-on the patch has an element for,
   * and leaves every other one as it was.
   */
  lemma RollbackRunLayers(env: Environment, patchId: string, s: Staged, ref: EntryRef)
    requires RollbackRun(env, patchId, s, ApplyMode).outcome.Pass?
    requires ref != IdentityEntry && Has(s.targets, ref)
    ensures SameKeys(RollbackRun(env, patchId, s, ApplyMode).staged.targets, s.targets)
    ensures Has(RollbackRun(env, patchId, s, ApplyMode).staged.targets, ref)
    ensures Get(RollbackRun(env, patchId, s, ApplyMode).staged.targets, ref) ==
      RolledBackLayer(env.history[patchId], ref, Get(s.targets, ref))
  {
    RollbackRunPass(env, patchId, s, ApplyMode);
    var original := env.history[patchId].original.elements;
    var rb := env.history[patchId].rollback;
    var es := rb.patch.elements;
    RollbackElementsKeys(s, Index(original), es, rb.identityState, ApplyMode);
    RollbackElementsTarget(s, Index(original), es, rb.identityState, ApplyMode, ref);
    RollbackElementsRunPass(s, Index(original), es, rb.identityState, ApplyMode);
    match ElementNaming(es, ref)
    case Some(e) =>
      var k :| 0 <= k < |es| && es[k] == e;
      assert KeyOf(es[k]) in KeySet(es);
      MatchedElementId(original, es, k);
    case None =>
      UnmatchedElementId(original, es, ref);
  }

  /**
   * `rollback`, proved against `RollbackRun`; the failures it cannot get
   * past, and what a successful rollback does to the identity, are stated
   * again directly.
   */
  method Rollback(env: Environment, patchId: string, ctx: PatchContext) returns (r: Outcome)
    requires ctx.Valid()
    modifies ctx`defs, ctx`layerNames, ctx`addOnNames, ctx`resultingVersion
    modifies ctx.modification`identity, ctx.modification`layers, ctx.modification`addOns
    ensures ctx.Valid()
    ensures SameTargets(ctx.modification, old(ctx.modification.layers.Keys), old(ctx.modification.addOns.Keys))
    ensures r.Failed? ==> r.error.PatchingException?
    ensures patchId !in env.history ==> r == Failed(HistoryReadFailure(patchId))
    ensures patchId in env.history && !UniqueKeys(env.history[patchId].original.elements) ==>
      r.Failed? && r.error.reason.DuplicateLayer?
    ensures r.Pass? ==>
      patchId in env.history &&
      RollbackMatches(env.history[patchId].original.elements, env.history[patchId].rollback.patch.elements)
    ensures patchId in env.history ==>
      var rec := env.history[patchId];
      UniqueKeys(rec.original.elements) && UniqueKeys(rec.rollback.patch.elements) &&
      KeySet(rec.rollback.patch.elements) < KeySet(rec.original.elements) &&
      old(Resolvable(Current(ctx.modification), rec.rollback.patch.elements, rec.rollback.identityState)) ==>
      r == Failed(PatchingException(InvalidRollbackInformation))
    ensures r.Pass? ==>
      var rb := env.history[patchId].rollback;
      ctx.modification.identity ==
        if ctx.mode == RollbackMode
        then Restored(RollbackTarget(old(ctx.modification.identity), patchId), rb.patch.patchId, rb.patch.identity.patchType, rb.identityState.identity)
        else RollbackTarget(old(ctx.modification.identity), patchId)
    ensures r.Pass? && env.history[patchId].rollback.patch.identity.patchType == Cumulative ==>
      ctx.resultingVersion == Some(env.history[patchId].rollback.patch.identity.resultingVersion)
    ensures r == RollbackRun(env, patchId, old(ctx.Snapshot()), ctx.mode).outcome
    ensures r.Pass? ==> ctx.Snapshot() == RollbackRun(env, patchId, old(ctx.Snapshot()), ctx.mode).staged
  {
    if patchId !in env.history {
      return Failed(HistoryReadFailure(patchId));
    }
    var original := env.history[patchId].original;
    var rollbackPatch := env.history[patchId].rollback;
    var patchType := rollbackPatch.patch.identity.patchType;
    var history := rollbackPatch.identityState;
    var m := ctx.modification;
    FirstDuplicateMeaning(original.elements, {});

    var indexed := IndexOriginals(original.elements);
    if indexed.Fail? {
      return Failed(indexed.error);
    }
    var left;
    r, left := RollbackElements(ctx, indexed.value, rollbackPatch.patch.elements, history);
    if r.Failed? {
      return r;
    }
    if left != map[] {
      assert exists x :: x in left;
      return Failed(PatchingException(InvalidRollbackInformation));
    }
    assert left.Keys == {};
    forall x | x in indexed.value.Keys ensures x in KeySet(rollbackPatch.patch.elements) {
      assert x !in left.Keys;
    }
    assert KeySet(rollbackPatch.patch.elements) == indexed.value.Keys == KeySet(original.elements);
    RollbackIdentity(ctx, patchId, rollbackPatch);
  }

  /** The end of `rollback`: the identity's part, once the elements are rolled back. */
  method RollbackIdentity(ctx: PatchContext, patchId: string, rb: RollbackPatch)
    requires ctx.Valid()
    modifies ctx`defs, ctx`resultingVersion, ctx.modification`identity, ctx.modification`layers, ctx.modification`addOns
    ensures ctx.Valid()
    ensures ctx.modification.layers == old(ctx.modification.layers) && ctx.modification.addOns == old(ctx.modification.addOns)
    ensures var back := RollbackTarget(old(ctx.modification.identity), patchId);
      ctx.modification.identity ==
        if ctx.mode == RollbackMode then Restored(back, rb.patch.patchId, rb.patch.identity.patchType, rb.identityState.identity) else back
    ensures rb.patch.identity.patchType == Cumulative ==> ctx.resultingVersion == Some(rb.patch.identity.resultingVersion)
    ensures rb.patch.identity.patchType != Cumulative ==> ctx.resultingVersion == old(ctx.resultingVersion)
    ensures ctx.defs == old(ctx.defs)[IdentityEntry := RollbackModifications(patchId, rb.patch.modifications, old(ctx.defs)[IdentityEntry], MiscOnly)]
  {
    var m := ctx.modification;
    ctx.SetDefs(IdentityEntry, RollbackModifications(patchId, rb.patch.modifications, ctx.defs[IdentityEntry], MiscOnly));
    m.SetTarget(IdentityEntry, RollbackTarget(m.identity, patchId));
    if ctx.mode == RollbackMode {
      RestoreFromHistory(m, IdentityEntry, rb.patch.patchId, rb.patch.identity.patchType, rb.identityState.identity);
    }
    if rb.patch.identity.patchType == Cumulative {
      ctx.resultingVersion := Some(rb.patch.identity.resultingVersion);
    }
  }

  // ---------------------------------------------------------------------
  // Invalidation
  // ---------------------------------------------------------------------

  /** The identity after rolling back `ids` one after another, in order. */
  function RollbackAll(t: TargetInfo, ids: seq<string>): (r: TargetInfo)
    ensures forall y :: y in r.oneOffs <==> y in t.oneOffs && y !in ids
    ensures r.cumulative == t.cumulative || r.cumulative == BASE
    decreases |ids|
  {
    if ids == [] then t
    else
      var n := |ids| - 1;
      assert ids == ids[..n] + [ids[n]];
      RollbackTarget(RollbackAll(t, ids[..n]), ids[n])
  }

  lemma NoMemberMeansEmpty(s: seq<string>)
    ensures (forall y :: y !in s) ==> s == []
  {
    if s != [] {
      assert s[0] in s;
    }
  }

  /** Rolling back every one-off leaves no one-off behind. */
  lemma InvalidationClearsOneOffs(t: TargetInfo)
    ensures RollbackAll(t, t.oneOffs).oneOffs == []
  {
    NoMemberMeansEmpty(RollbackAll(t, t.oneOffs).oneOffs);
  }

  /** The invalidation loop: `rollback` for each id, in order, stopping at the first failure. */
  function InvalidateRun(env: Environment, ids: seq<string>, s: Staged, mode: Mode): Run
    decreases |ids|
  {
    if ids == [] then Run(Pass, s)
    else
      var step := RollbackRun(env, ids[0], s, mode);
      if step.outcome.Failed? then step else InvalidateRun(env, ids[1..], step.staged, mode)
  }

  /** A layer or add-on after the patches `ids` are rolled back in APPLY mode, in order. */
  function InvalidatedLayer(env: Environment, ids: seq<string>, ref: EntryRef, t: TargetInfo): TargetInfo
    decreases |ids|
  {
    if ids == [] then t
    else if ids[0] !in env.history then t
    else InvalidatedLayer(env, ids[1..], ref, RolledBackLayer(env.history[ids[0]], ref, t))
  }

  /**
   * A passing invalidation leaves every layer and add-on with the ids of the
   * invalidated patches' elements rolled back, in the order the patches
   * are invalidated.
   */
  lemma {:induction false} InvalidateRunLayers(env: Environment, ids: seq<string>, s: Staged, ref: EntryRef)
    requires InvalidateRun(env, ids, s, ApplyMode).outcome.Pass?
    requires ref != IdentityEntry && Has(s.targets, ref)
    ensures SameKeys(InvalidateRun(env, ids, s, ApplyMode).staged.targets, s.targets)
    ensures Get(InvalidateRun(env, ids, s, ApplyMode).staged.targets, ref) == InvalidatedLayer(env, ids, ref, Get(s.targets, ref))
    decreases |ids|
  {
    if ids != [] {
      var step := RollbackRun(env, ids[0], s, ApplyMode);
      RollbackRunLayers(env, ids[0], s, ref);
      InvalidateRunLayers(env, ids[1..], step.staged, ref);
    }
  }

  /** The invalidation loop of the prepare phase, proved against `InvalidateRun`. */
  method Invalidate(env: Environment, ids: seq<string>, ctx: PatchContext) returns (r: Outcome)
    requires ctx.Valid()
    modifies ctx`defs, ctx`layerNames, ctx`addOnNames, ctx`resultingVersion
    modifies ctx.modification`identity, ctx.modification`layers, ctx.modification`addOns
    ensures ctx.Valid()
    ensures SameTargets(ctx.modification, old(ctx.modification.layers.Keys), old(ctx.modification.addOns.Keys))
    ensures r.Failed? ==> r.error.PatchingException?
    ensures r.Pass? ==> forall k :: 0 <= k < |ids| ==>
      ids[k] in env.history &&
      RollbackMatches(env.history[ids[k]].original.elements, env.history[ids[k]].rollback.patch.elements)
    ensures r.Pass? && ctx.mode == ApplyMode ==> ctx.modification.identity == RollbackAll(old(ctx.modification.identity), ids)
    ensures r == InvalidateRun(env, ids, old(ctx.Snapshot()), ctx.mode).outcome
    ensures r.Pass? ==> ctx.Snapshot() == InvalidateRun(env, ids, old(ctx.Snapshot()), ctx.mode).staged
  {
    ghost var t0 := ctx.modification.identity;
    ghost var run := InvalidateRun(env, ids, ctx.Snapshot(), ctx.mode);
    for i := 0 to |ids|
      invariant ctx.Valid()
      invariant SameTargets(ctx.modification, old(ctx.modification.layers.Keys), old(ctx.modification.addOns.Keys))
      invariant forall k :: 0 <= k < i ==>
        ids[k] in env.history && RollbackMatches(env.history[ids[k]].original.elements, env.history[ids[k]].rollback.patch.elements)
      invariant ctx.mode == ApplyMode ==> ctx.modification.identity == RollbackAll(t0, ids[..i])
      invariant run == InvalidateRun(env, ids[i..], ctx.Snapshot(), ctx.mode)
    {
      assert ids[i..][0] == ids[i] && ids[i..][1..] == ids[i + 1..];
      r := Rollback(env, ids[i], ctx);
      if r.Failed? {
        return r;
      }
      assert ids[..i + 1][..i] == ids[..i];
    }
    assert ids[..|ids|] == ids;
    return Pass;
  }

  // ---------------------------------------------------------------------
  // Applying the patch's elements
  // ---------------------------------------------------------------------

  /**
   * One round of the element loop of the prepare phase: the element's
   * target must be installed, must not have the element's id applied and
   * must meet the element's upgrade conditions; then the element's
   * modifications are merged into the entry's definitions and its id is
   * applied to the target.
   */
  function ApplyOne(s: Staged, e: PatchElement): Run
  {
    var ref := RefFor(e);
    if !Has(s.targets, ref) then Run(Failed(PatchingException(NoSuchLayer(e.name))), s)
    else
      var t := Get(s.targets, ref);
      if IsApplied(t, e.id) then Run(Failed(PatchingException(AlreadyApplied(e.id))), s)
      else if UpgradeCheck(e.condition, t).Failed? then Run(UpgradeCheck(e.condition, t), s)
      else
        var r := Resolve(s, e);
        Run(Pass, r.(
          targets := Put(s.targets, ref, ApplyPatch(t, e.id, e.patchType)),
          defs := r.defs[ref := ApplyModifications(e.id, e.modifications, Entry(s.defs, ref))]))
  }

  /** The element loop: `ApplyOne` for each element, in order, stopping at the first failure. */
  function ApplyAll(s: Staged, es: seq<PatchElement>): Run
    decreases |es|
  {
    if es == [] then Run(Pass, s)
    else
      var step := ApplyOne(s, es[0]);
      if step.outcome.Failed? then step else ApplyAll(step.staged, es[1..])
  }

  /** The target `ref` after the elements `es` that name it are applied to it, in order. */
  function ApplyNaming(t: TargetInfo, ref: EntryRef, es: seq<PatchElement>): TargetInfo
    decreases |es|
  {
    if es == [] then t
    else ApplyNaming(if RefFor(es[0]) == ref then ApplyPatch(t, es[0].id, es[0].patchType) else t, ref, es[1..])
  }

  /** The element loop leaves the same layers and add-ons installed. */
  lemma {:induction false} ApplyAllKeys(s: Staged, es: seq<PatchElement>)
    ensures forall ref :: Has(ApplyAll(s, es).staged.targets, ref) <==> Has(s.targets, ref)
    ensures SameKeys(ApplyAll(s, es).staged.targets, s.targets)
    decreases |es|
  {
    if es != [] {
      ApplyAllKeys(ApplyOne(s, es[0]).staged, es[1..]);
    }
  }

  /** After a passing element loop every target carries the ids of the elements that name it,
   *  applied in order, and the identity is as it was. */
  lemma {:induction false} ApplyAllTarget(s: Staged, es: seq<PatchElement>, ref: EntryRef)
    requires ApplyAll(s, es).outcome.Pass? && Has(s.targets, ref)
    ensures Has(ApplyAll(s, es).staged.targets, ref)
    ensures Get(ApplyAll(s, es).staged.targets, ref) == ApplyNaming(Get(s.targets, ref), ref, es)
    decreases |es|
  {
    ApplyAllKeys(s, es);
    if es != [] {
      ApplyAllTarget(ApplyOne(s, es[0]).staged, es[1..], ref);
    }
  }

  /** No element names the identity, so the element loop leaves it alone. */
  lemma {:induction false} ApplyNamingIdentity(t: TargetInfo, es: seq<PatchElement>)
    ensures ApplyNaming(t, IdentityEntry, es) == t
    decreases |es|
  {
    if es != [] {
      ApplyNamingIdentity(t, es[1..]);
    }
  }

  /** A passing prefix of the element loop leaves the rest of the loop to run from its state. */
  lemma {:induction false} ApplyAllSplit(s: Staged, es: seq<PatchElement>, k: nat)
    requires k <= |es| && ApplyAll(s, es[..k]).outcome.Pass?
    ensures ApplyAll(s, es) == ApplyAll(ApplyAll(s, es[..k]).staged, es[k..])
    decreases k
  {
    if k == 0 {
      assert es[..0] == [] && es[0..] == es;
    } else {
      assert es[..k][0] == es[0] && es[..k][1..] == es[1..][..k - 1];
      assert es[1..][k - 1..] == es[k..];
      ApplyAllSplit(ApplyOne(s, es[0]).staged, es[1..], k - 1);
    }
  }

  /**
   * An element whose id is already applied to its target, once the elements
   * before it are applied, fails the whole loop with `alreadyApplied`.
   */
  lemma AppliedElementFails(s: Staged, es: seq<PatchElement>, k: nat)
    requires k < |es| && ApplyAll(s, es[..k]).outcome.Pass? && Has(s.targets, RefFor(es[k]))
    requires IsApplied(ApplyNaming(Get(s.targets, RefFor(es[k])), RefFor(es[k]), es[..k]), es[k].id)
    ensures ApplyAll(s, es).outcome == Failed(PatchingException(AlreadyApplied(es[k].id)))
  {
    ApplyAllSplit(s, es, k);
    ApplyAllTarget(s, es[..k], RefFor(es[k]));
    assert es[k..][0] == es[k];
  }

  /** One round of the element loop, proved against `ApplyOne`. */
  method ApplyElement(e: PatchElement, ctx: PatchContext) returns (r: Outcome)
    requires ctx.Valid()
    modifies ctx`defs, ctx`layerNames, ctx`addOnNames
    modifies ctx.modification`identity, ctx.modification`layers, ctx.modification`addOns
    ensures ctx.Valid()
    ensures SameTargets(ctx.modification, old(ctx.modification.layers.Keys), old(ctx.modification.addOns.Keys))
    ensures ctx.modification.identity == old(ctx.modification.identity)
    ensures r.Failed? ==> r.error.PatchingException?
    ensures !old(HasTarget(ctx.modification, RefFor(e))) ==> r == Failed(PatchingException(NoSuchLayer(e.name)))
    ensures old(HasTarget(ctx.modification, RefFor(e))) && IsApplied(old(TargetOf(ctx.modification, RefFor(e))), e.id) ==>
      r == Failed(PatchingException(AlreadyApplied(e.id)))
    ensures old(HasTarget(ctx.modification, RefFor(e))) && !IsApplied(old(TargetOf(ctx.modification, RefFor(e))), e.id) ==>
      r == UpgradeCheck(e.condition, old(TargetOf(ctx.modification, RefFor(e))))
    ensures r.Pass? ==>
      HasTarget(ctx.modification, RefFor(e)) &&
      TargetOf(ctx.modification, RefFor(e)) == ApplyPatch(old(TargetOf(ctx.modification, RefFor(e))), e.id, e.patchType)
    ensures r.Pass? ==>
      RefFor(e) in ctx.defs && ctx.defs[RefFor(e)] == ApplyModifications(e.id, e.modifications, Entry(old(ctx.defs), RefFor(e)))
    ensures r == ApplyOne(old(ctx.Snapshot()), e).outcome
    ensures r.Pass? ==> ctx.Snapshot() == ApplyOne(old(ctx.Snapshot()), e).staged
  {
    var m := ctx.modification;
    var resolved := ctx.ResolveForElement(e);
    if resolved.Fail? {
      return Failed(resolved.error);
    }
    var ref := resolved.value;
    var target := TargetOf(m, ref);
    if IsApplied(target, e.id) {
      return Failed(PatchingException(AlreadyApplied(e.id)));
    }
    r := CheckUpgradeConditions(e.condition, target);
    if r.Failed? {
      return r;
    }
    ctx.SetDefs(ref, ApplyModifications(e.id, e.modifications, ctx.defs[ref]));
    m.SetTarget(ref, ApplyPatch(target, e.id, e.patchType));
  }

  /** The first element's id is already applied to its (installed) target. */
  predicate FirstAlreadyApplied(layers: map<string, TargetInfo>, addOns: map<string, TargetInfo>, es: seq<PatchElement>)
  {
    es != [] &&
    var targets := if es[0].layerType == Layer then layers else addOns;
    es[0].name in targets && IsApplied(targets[es[0].name], es[0].id)
  }

  /** The element loop of the prepare phase, proved against `ApplyAll`. */
  method ApplyElements(es: seq<PatchElement>, ctx: PatchContext) returns (r: Outcome)
    requires ctx.Valid()
    modifies ctx`defs, ctx`layerNames, ctx`addOnNames
    modifies ctx.modification`identity, ctx.modification`layers, ctx.modification`addOns
    ensures ctx.Valid()
    ensures SameTargets(ctx.modification, old(ctx.modification.layers.Keys), old(ctx.modification.addOns.Keys))
    ensures ctx.modification.identity == old(ctx.modification.identity)
    ensures r.Failed? ==> r.error.PatchingException?
    ensures r.Pass? ==> forall k :: 0 <= k < |es| ==> HasTarget(ctx.modification, RefFor(es[k]))
    ensures FirstAlreadyApplied(old(ctx.modification.layers), old(ctx.modification.addOns), es) ==>
      r == Failed(PatchingException(AlreadyApplied(es[0].id)))
    ensures r == ApplyAll(old(ctx.Snapshot()), es).outcome
    ensures r.Pass? ==> ctx.Snapshot() == ApplyAll(old(ctx.Snapshot()), es).staged
  {
    ghost var run := ApplyAll(ctx.Snapshot(), es);
    ghost var firstApplied := FirstAlreadyApplied(ctx.modification.layers, ctx.modification.addOns, es);
    assert es[0..] == es;
    for i := 0 to |es|
      invariant ctx.Valid()
      invariant ctx.modification.identity == old(ctx.modification.identity)
      invariant forall k :: 0 <= k < i ==> HasTarget(ctx.modification, RefFor(es[k]))
      invariant i == 0 ==> firstApplied == FirstAlreadyApplied(ctx.modification.layers, ctx.modification.addOns, es)
      invariant i > 0 ==> !firstApplied
      invariant run == ApplyAll(ctx.Snapshot(), es[i..])
    {
      assert es[i..][0] == es[i] && es[i..][1..] == es[i + 1..];
      r := ApplyElement(es[i], ctx);
      if r.Failed? {
        return r;
      }
    }
    return Pass;
  }

  // ---------------------------------------------------------------------
  // Port-forwarding
  // ---------------------------------------------------------------------

  /** The patch id a cumulative history entry recorded for the element's layer or add-on. */
  function RecordedId(entry: CpEntry, e: PatchElement): Option<string>
  {
    var ids := if e.layerType == AddOn then entry.addOnPatches else entry.layerPatches;
    if e.name in ids then Some(ids[e.name]) else None
  }

  /** The position of the first history entry that recorded `id` for the element's target. */
  function FirstRecording(h: seq<CpEntry>, e: PatchElement, id: string): (k: nat)
    ensures k <= |h|
    ensures forall j :: 0 <= j < k ==> RecordedId(h[j], e) != Some(id)
    ensures k < |h| ==> RecordedId(h[k], e) == Some(id)
  {
    if h == [] || RecordedId(h[0], e) == Some(id) then 0 else 1 + FirstRecording(h[1..], e, id)
  }

  /** The failure `loadPatchInformation` raises for a patch id without history. */
  function PatchXmlMissing(patchId: string): Failure
  {
    IOException("cannot read patch.xml of " + patchId)
  }

  /**
   * The cumulative id port-forwarding reads for an element's target: the one
   * of the state the modification started from.  (The modification keeps the
   * layers and add-ons of that state, so a target installed in the staged
   * state is always found there.)
   */
  function UnmodifiedCumulative(u: InstalledState, e: PatchElement): string
  {
    if Has(u, RefFor(e)) then Get(u, RefFor(e)).cumulative else BASE
  }

  /** An element of an earlier patch is for the same layer or add-on as `e`. */
  predicate SameProvider(oe: PatchElement, e: PatchElement)
  {
    oe.name == e.name && (oe.layerType == AddOn) == (e.layerType == AddOn)
  }

  /** The definitions after the missing modifications of every element of an
   *  earlier patch for the same target are added, in the patch's order. */
  function ForwardDefs(id: string, oes: seq<PatchElement>, e: PatchElement, d: Defs): (r: Defs)
    ensures |d| <= |r| && r[..|d|] == d
    ensures DistinctItems(d) ==> DistinctItems(r)
    decreases |oes|
  {
    if oes == [] then d
    else
      var next := if SameProvider(oes[0], e) then AddMissingModifications(id, oes[0].modifications, d, AllButMisc) else d;
      var r := ForwardDefs(id, oes[1..], e, next);
      assert r[..|d|] == r[..|next|][..|d|];
      r
  }

  /**
   * One round of `portForward`: a target still at BASE is skipped; otherwise
   * the first cumulative entry that recorded the target's cumulative id is
   * looked up, the missing modifications of that patch's elements for the
   * target are added to the entry's definitions, and a content loader is
   * recorded for the id.  No recording entry fails with
   * `patchNotFoundInHistory`; an unreadable patch.xml with an `IOException`.
   */
  function ForwardOne(env: Environment, u: InstalledState, s: Staged, e: PatchElement): Run
  {
    var ref := RefFor(e);
    if !Has(s.targets, ref) then Run(Failed(PatchingException(NoSuchLayer(e.name))), s)
    else
      var r := Resolve(s, e);
      var c := UnmodifiedCumulative(u, e);
      var h := env.cumulativeHistory;
      var k := FirstRecording(h, e, c);
      if c == BASE then Run(Pass, r)
      else if k == |h| then Run(Failed(PatchingException(PatchNotFoundInHistory(c))), r)
      else if h[k].patchId !in env.history then Run(Failed(PatchXmlMissing(h[k].patchId)), r)
      else
        var oes := env.history[h[k].patchId].original.elements;
        Run(Pass, r.(defs := r.defs[ref := ForwardDefs(c, oes, e, Entry(s.defs, ref))], loaders := r.loaders + [c]))
  }

  /** `portForward`: `ForwardOne` for each element, in order, stopping at the first failure. */
  function PortForwardAll(env: Environment, u: InstalledState, s: Staged, es: seq<PatchElement>): Run
    decreases |es|
  {
    if es == [] then Run(Pass, s)
    else
      var step := ForwardOne(env, u, s, es[0]);
      if step.outcome.Failed? then step else PortForwardAll(env, u, step.staged, es[1..])
  }

  /** What port-forwarding demands of one element: its target is at BASE, or
   *  the first history entry that recorded the target's cumulative id is
   *  found and its patch.xml can be read. */
  predicate Forwardable(env: Environment, u: InstalledState, e: PatchElement)
  {
    Has(u, RefFor(e)) &&
    var c := Get(u, RefFor(e)).cumulative;
    c == BASE ||
    (FirstRecording(env.cumulativeHistory, e, c) < |env.cumulativeHistory| &&
     env.cumulativeHistory[FirstRecording(env.cumulativeHistory, e, c)].patchId in env.history)
  }

  /** The content loaders port-forwarding records: one per element whose target is not at BASE. */
  function ForwardedIds(u: InstalledState, es: seq<PatchElement>): seq<string>
    requires forall e :: e in es ==> Has(u, RefFor(e))
  {
    if es == [] then []
    else
      var n := |es| - 1;
      var c := Get(u, RefFor(es[n])).cumulative;
      ForwardedIds(u, es[..n]) + (if c == BASE then [] else [c])
  }

  /** Port-forwarding never changes the targets. */
  lemma {:induction false} PortForwardAllTargets(env: Environment, u: InstalledState, s: Staged, es: seq<PatchElement>)
    ensures PortForwardAll(env, u, s, es).staged.targets == s.targets
    ensures PortForwardAll(env, u, s, es).staged.installed == s.installed
    decreases |es|
  {
    if es != [] {
      PortForwardAllTargets(env, u, ForwardOne(env, u, s, es[0]).staged, es[1..]);
    }
  }

  /** Port-forwarding leaves the identity's definitions alone. */
  lemma {:induction false} PortForwardAllIdentityDefs(env: Environment, u: InstalledState, s: Staged, es: seq<PatchElement>)
    ensures Entry(PortForwardAll(env, u, s, es).staged.defs, IdentityEntry) == Entry(s.defs, IdentityEntry)
    decreases |es|
  {
    if es != [] {
      PortForwardAllIdentityDefs(env, u, ForwardOne(env, u, s, es[0]).staged, es[1..]);
    }
  }

  /**
   * Elements whose targets are installed and were at BASE before the
   * modification port-forward nothing: the loop passes and records no
   * content loader, whatever the history holds.  This is the case of the
   * first cumulative patch on a bare installation.
   */
  lemma {:induction false} BaseForwards(env: Environment, u: InstalledState, s: Staged, es: seq<PatchElement>)
    requires forall k :: 0 <= k < |es| ==> Has(s.targets, RefFor(es[k])) && UnmodifiedCumulative(u, es[k]) == BASE
    ensures PortForwardAll(env, u, s, es).outcome.Pass?
    ensures PortForwardAll(env, u, s, es).staged.loaders == s.loaders
    decreases |es|
  {
    if es != [] {
      var s1 := ForwardOne(env, u, s, es[0]).staged;
      forall k | 0 <= k < |es[1..]| ensures Has(s1.targets, RefFor(es[1..][k])) && UnmodifiedCumulative(u, es[1..][k]) == BASE {
        assert es[1..][k] == es[k + 1];
      }
      BaseForwards(env, u, s1, es[1..]);
    }
  }

  /** One round of `portForward`, proved against `ForwardOne`. */
  method PortForwardElement(env: Environment, e: PatchElement, ctx: PatchContext) returns (r: Outcome)
    requires ctx.Valid()
    modifies ctx`defs, ctx`layerNames, ctx`addOnNames, ctx`loaders
    ensures ctx.Valid()
    ensures r.Failed? ==> r.error.PatchingException? || r.error.IOException?
    ensures r.Pass? <==> Forwardable(env, ctx.modification.unmodified, e)
    ensures r.Pass? ==>
      var c := Get(ctx.modification.unmodified, RefFor(e)).cumulative;
      ctx.loaders == old(ctx.loaders) + if c == BASE then [] else [c]
    ensures Has(ctx.modification.unmodified, RefFor(e)) ==>
      var c := Get(ctx.modification.unmodified, RefFor(e)).cumulative;
      c != BASE && FirstRecording(env.cumulativeHistory, e, c) == |env.cumulativeHistory| ==>
      r == Failed(PatchingException(PatchNotFoundInHistory(c)))
    ensures r.Pass? ==>
      var c := Get(ctx.modification.unmodified, RefFor(e)).cumulative;
      var h := env.cumulativeHistory;
      RefFor(e) in ctx.defs &&
      ctx.defs[RefFor(e)] ==
        if c == BASE then Entry(old(ctx.defs), RefFor(e))
        else ForwardDefs(c, env.history[h[FirstRecording(h, e, c)].patchId].original.elements, e, Entry(old(ctx.defs), RefFor(e)))
    ensures r == ForwardOne(env, ctx.modification.unmodified, old(ctx.Snapshot()), e).outcome
    ensures r.Pass? ==> ctx.Snapshot() == ForwardOne(env, ctx.modification.unmodified, old(ctx.Snapshot()), e).staged
  {
    ghost var s0 := ctx.Snapshot();
    SameKeysHas(Current(ctx.modification), ctx.modification.unmodified, RefFor(e));
    var resolved := ctx.ResolveForElement(e);
    if resolved.Fail? {
      return Failed(resolved.error);
    }
    var ref := resolved.value;
    ghost var s1 := ctx.Snapshot();
    var cumulativeId := Get(ctx.modification.unmodified, ref).cumulative;
    if cumulativeId == BASE {
      return Pass;
    }
    var h := env.cumulativeHistory;
    var k := 0;
    while k < |h|
      invariant 0 <= k <= |h|
      invariant forall j :: 0 <= j < k ==> RecordedId(h[j], e) != Some(cumulativeId)
    {
      var entry := h[k];
      if RecordedId(entry, e) == Some(cumulativeId) {
        FirstRecordingLeast(h, e, cumulativeId, k);
        if entry.patchId !in env.history {
          return Failed(PatchXmlMissing(entry.patchId));
        }
        ForwardFromEntry(ctx, e, cumulativeId, env.history[entry.patchId].original.elements);
        return Pass;
      }
      k := k + 1;
    }
    FirstRecordingLeast(h, e, cumulativeId, k);
    return Failed(PatchingException(PatchNotFoundInHistory(cumulativeId)));
  }

  /** The found branch of a round of `portForward`: the missing modifications
   *  of the recorded patch's elements for the target are added, and a
   *  content loader is recorded for the cumulative id. */
  method ForwardFromEntry(ctx: PatchContext, e: PatchElement, id: string, oes: seq<PatchElement>)
    requires ctx.Valid() && RefFor(e) in ctx.defs
    modifies ctx`defs, ctx`loaders
    ensures ctx.Valid()
    ensures ctx.Snapshot() == old(ctx.Snapshot()).(
      defs := old(ctx.defs)[RefFor(e) := ForwardDefs(id, oes, e, old(ctx.defs)[RefFor(e)])],
      loaders := old(ctx.loaders) + [id])
  {
    var ref := RefFor(e);
    var d := ctx.defs[ref];
    ghost var d0 := d;
    assert oes[0..] == oes;
    for i := 0 to |oes|
      invariant ForwardDefs(id, oes, e, d0) == ForwardDefs(id, oes[i..], e, d)
    {
      assert oes[i..][0] == oes[i] && oes[i..][1..] == oes[i + 1..];
      var oe := oes[i];
      if oe.name == e.name && (oe.layerType == AddOn) == (e.layerType == AddOn) {
        d := AddMissingModifications(id, oe.modifications, d, AllButMisc);
      }
    }
    assert oes[|oes|..] == [];
    ctx.SetDefs(ref, d);
    ctx.loaders := ctx.loaders + [id];
  }

  /** `FirstRecording` is the least position of a recording entry. */
  lemma {:induction false} FirstRecordingLeast(h: seq<CpEntry>, e: PatchElement, id: string, k: nat)
    requires k <= |h|
    requires forall j :: 0 <= j < k ==> RecordedId(h[j], e) != Some(id)
    requires k < |h| ==> RecordedId(h[k], e) == Some(id)
    ensures FirstRecording(h, e, id) == k
    decreases k
  {
    if k > 0 {
      FirstRecordingLeast(h[1..], e, id, k - 1);
    }
  }

  /** Round `i` of `portForward`, stated as the loop's invariants before and after. */
  method PortForwardStep(env: Environment, es: seq<PatchElement>, i: nat, ctx: PatchContext, ghost base: seq<string>, ghost run: Run)
    returns (r: Outcome)
    requires ctx.Valid() && i < |es|
    requires forall k :: 0 <= k < i ==> Forwardable(env, ctx.modification.unmodified, es[k])
    requires forall e :: e in es[..i] ==> Has(ctx.modification.unmodified, RefFor(e))
    requires ctx.loaders == base + ForwardedIds(ctx.modification.unmodified, es[..i])
    requires run == PortForwardAll(env, ctx.modification.unmodified, ctx.Snapshot(), es[i..])
    modifies ctx`defs, ctx`layerNames, ctx`addOnNames, ctx`loaders
    ensures ctx.Valid()
    ensures r.Failed? ==> (r.error.PatchingException? || r.error.IOException?) && !Forwardable(env, ctx.modification.unmodified, es[i])
    ensures r.Failed? ==> r == run.outcome
    ensures r.Pass? ==> forall k :: 0 <= k < i + 1 ==> Forwardable(env, ctx.modification.unmodified, es[k])
    ensures r.Pass? ==> forall e :: e in es[..i + 1] ==> Has(ctx.modification.unmodified, RefFor(e))
    ensures r.Pass? ==> ctx.loaders == base + ForwardedIds(ctx.modification.unmodified, es[..i + 1])
    ensures r.Pass? ==> run == PortForwardAll(env, ctx.modification.unmodified, ctx.Snapshot(), es[i + 1..])
  {
    assert es[i..][0] == es[i] && es[i..][1..] == es[i + 1..];
    r := PortForwardElement(env, es[i], ctx);
    assert es[..i + 1][..i] == es[..i];
  }

  /** `portForward`: every element of the cumulative patch, in order, proved against `PortForwardAll`. */
  method PortForward(env: Environment, p: Patch, ctx: PatchContext) returns (r: Outcome)
    requires ctx.Valid()
    modifies ctx`defs, ctx`layerNames, ctx`addOnNames, ctx`loaders
    ensures ctx.Valid()
    ensures r.Failed? ==> r.error.PatchingException? || r.error.IOException?
    ensures r.Pass? <==> forall k :: 0 <= k < |p.elements| ==> Forwardable(env, ctx.modification.unmodified, p.elements[k])
    ensures r.Pass? ==> ctx.loaders == old(ctx.loaders) + ForwardedIds(ctx.modification.unmodified, p.elements)
    ensures r == PortForwardAll(env, ctx.modification.unmodified, old(ctx.Snapshot()), p.elements).outcome
    ensures r.Pass? ==> ctx.Snapshot() == PortForwardAll(env, ctx.modification.unmodified, old(ctx.Snapshot()), p.elements).staged
  {
    var es, u := p.elements, ctx.modification.unmodified;
    ghost var run := PortForwardAll(env, u, ctx.Snapshot(), es);
    assert es[0..] == es;
    for i := 0 to |es|
      invariant ctx.Valid()
      invariant forall k :: 0 <= k < i ==> Forwardable(env, u, es[k])
      invariant ctx.loaders == old(ctx.loaders) + ForwardedIds(u, es[..i])
      invariant run == PortForwardAll(env, u, ctx.Snapshot(), es[i..])
    {
      r := PortForwardStep(env, es, i, ctx, old(ctx.loaders), run);
      if r.Failed? {
        return r;
      }
    }
    assert es[..|es|] == es;
    return Pass;
  }

  // ---------------------------------------------------------------------
  // Task preparation
  // ---------------------------------------------------------------------

  /** `!task.prepare(entry) || definition.hasConflicts()`, unless the item is ignored. */
  predicate IsConflict(d: Definition, prepare: ContentItem -> PrepareOutcome, ignored: set<ContentItem>)
  {
    (prepare(d.item) == NotClean || d.conflicts) && d.item !in ignored
  }

  /** The tasks one entry contributes: one per definition, in order. */
  function EntryTasks(ref: EntryRef, d: Defs): (r: seq<PreparedTask>)
    ensures |r| == |d|
    ensures forall k :: 0 <= k < |d| ==> r[k] == PreparedTask(d[k].item, ref)
  {
    seq(|d|, k requires 0 <= k < |d| => PreparedTask(d[k].item, ref))
  }

  /** The conflicts one entry contributes, in definition order. */
  function EntryConflicts(d: Defs, prepare: ContentItem -> PrepareOutcome, ignored: set<ContentItem>): seq<ContentItem>
    decreases |d|
  {
    if d == [] then []
    else
      var n := |d| - 1;
      EntryConflicts(d[..n], prepare, ignored) + if IsConflict(d[n], prepare, ignored) then [d[n].item] else []
  }

  /** An entry reports a conflict exactly when one of its definitions is a
   *  conflict, and it never reports an ignored item. */
  lemma {:induction false} EntryConflictsMeaning(d: Defs, prepare: ContentItem -> PrepareOutcome, ignored: set<ContentItem>)
    ensures EntryConflicts(d, prepare, ignored) == [] <==> forall k :: 0 <= k < |d| ==> !IsConflict(d[k], prepare, ignored)
    ensures forall x :: x in EntryConflicts(d, prepare, ignored) ==> x !in ignored
    decreases |d|
  {
    if d != [] {
      var n := |d| - 1;
      EntryConflictsMeaning(d[..n], prepare, ignored);
      assert forall k :: 0 <= k < n ==> d[..n][k] == d[k];
    }
  }

  predicate PrepareFails(d: Defs, prepare: ContentItem -> PrepareOutcome)
  {
    exists k :: 0 <= k < |d| && prepare(d[k].item) == PrepareIOError
  }

  /** `prepareTasks` for one entry: the task and conflict lists it appends to are passed in and returned. */
  method PrepareTasks(env: Environment, ref: EntryRef, ctx: PatchContext, tasks: seq<PreparedTask>, conflicts: seq<ContentItem>)
    returns (r: Outcome, tasks': seq<PreparedTask>, conflicts': seq<ContentItem>)
    requires ref in ctx.defs
    ensures r.Pass? <==> !PrepareFails(ctx.defs[ref], env.prepare)
    ensures r.Failed? ==> r.error == PatchingException(Cause(IOException("prepare")))
    ensures r.Pass? ==> tasks' == tasks + EntryTasks(ref, ctx.defs[ref])
    ensures r.Pass? ==> conflicts' == conflicts + EntryConflicts(ctx.defs[ref], env.prepare, ctx.policy.ignored)
  {
    var d := ctx.defs[ref];
    tasks', conflicts' := tasks, conflicts;
    for i := 0 to |d|
      invariant tasks' == tasks + EntryTasks(ref, d[..i])
      invariant conflicts' == conflicts + EntryConflicts(d[..i], env.prepare, ctx.policy.ignored)
      invariant forall k :: 0 <= k < i ==> env.prepare(d[k].item) != PrepareIOError
    {
      var outcome := env.prepare(d[i].item);
      if outcome == PrepareIOError {
        return Failed(PatchingException(Cause(IOException("prepare")))), tasks', conflicts';
      }
      if outcome == NotClean || d[i].conflicts {
        if d[i].item !in ctx.policy.ignored {
          conflicts' := conflicts' + [d[i].item];
        }
      }
      tasks' := tasks' + [PreparedTask(d[i].item, ref)];
      assert d[..i + 1][..i] == d[..i];
    }
    assert d[..|d|] == d;
    return Pass, tasks', conflicts';
  }

  /** The tasks of all entries, in the order of `refs`. */
  function AllTasks(refs: seq<EntryRef>, defs: map<EntryRef, Defs>): (r: seq<PreparedTask>)
    requires forall k :: 0 <= k < |refs| ==> refs[k] in defs
    decreases |refs|
  {
    if refs == [] then []
    else
      var n := |refs| - 1;
      AllTasks(refs[..n], defs) + EntryTasks(refs[n], defs[refs[n]])
  }

  /** The conflicts of all entries, in the order of `refs`. */
  function AllConflicts(refs: seq<EntryRef>, defs: map<EntryRef, Defs>, prepare: ContentItem -> PrepareOutcome, ignored: set<ContentItem>): seq<ContentItem>
    requires forall k :: 0 <= k < |refs| ==> refs[k] in defs
    decreases |refs|
  {
    if refs == [] then []
    else
      var n := |refs| - 1;
      assert forall j :: 0 <= j < n ==> refs[..n][j] == refs[j];
      AllConflicts(refs[..n], defs, prepare, ignored) + EntryConflicts(defs[refs[n]], prepare, ignored)
  }

  /** The prepare phase finds no conflict exactly when no definition of any
   *  entry is a conflict. */
  lemma {:induction false} AllConflictsMeaning(refs: seq<EntryRef>, defs: map<EntryRef, Defs>, prepare: ContentItem -> PrepareOutcome, ignored: set<ContentItem>)
    requires forall k :: 0 <= k < |refs| ==> refs[k] in defs
    ensures AllConflicts(refs, defs, prepare, ignored) == [] <==>
      forall j, k :: 0 <= j < |refs| && 0 <= k < |defs[refs[j]]| ==> !IsConflict(defs[refs[j]][k], prepare, ignored)
    decreases |refs|
  {
    if refs != [] {
      var n := |refs| - 1;
      var init := refs[..n];
      var last := defs[refs[n]];
      assert forall j :: 0 <= j < n ==> init[j] == refs[j];
      AllConflictsMeaning(init, defs, prepare, ignored);
      EntryConflictsMeaning(last, prepare, ignored);
      assert AllConflicts(refs, defs, prepare, ignored) ==
        AllConflicts(init, defs, prepare, ignored) + EntryConflicts(last, prepare, ignored);
      if AllConflicts(refs, defs, prepare, ignored) == [] {
        forall j, k | 0 <= j < |refs| && 0 <= k < |defs[refs[j]]|
          ensures !IsConflict(defs[refs[j]][k], prepare, ignored)
        {
          if j < n {
            assert refs[j] == init[j];
          }
        }
      } else if AllConflicts(init, defs, prepare, ignored) != [] {
        var j, k :| 0 <= j < |init| && 0 <= k < |defs[init[j]]| && IsConflict(defs[init[j]][k], prepare, ignored);
        assert refs[j] == init[j];
      } else {
        var k :| 0 <= k < |last| && IsConflict(last[k], prepare, ignored);
        assert defs[refs[n]][k] == last[k];
      }
    }
  }

  /** The number of definitions of all entries. */
  function TotalDefs(refs: seq<EntryRef>, defs: map<EntryRef, Defs>): nat
    requires forall k :: 0 <= k < |refs| ==> refs[k] in defs
    decreases |refs|
  {
    if refs == [] then 0 else TotalDefs(refs[..|refs| - 1], defs) + |defs[refs[|refs| - 1]]|
  }

  /** Every definition yields exactly one prepared task. */
  lemma {:induction false} AllTasksCount(refs: seq<EntryRef>, defs: map<EntryRef, Defs>)
    requires forall k :: 0 <= k < |refs| ==> refs[k] in defs
    ensures |AllTasks(refs, defs)| == TotalDefs(refs, defs)
    decreases |refs|
  {
    if refs != [] {
      AllTasksCount(refs[..|refs| - 1], defs);
    }
  }

  /** The tasks of `a + b` are those of `a` followed by those of `b`: entries keep their order. */
  lemma {:induction false} AllTasksAppend(a: seq<EntryRef>, b: seq<EntryRef>, defs: map<EntryRef, Defs>)
    requires forall k :: 0 <= k < |a| ==> a[k] in defs
    requires forall k :: 0 <= k < |b| ==> b[k] in defs
    ensures forall k :: 0 <= k < |a + b| ==> (a + b)[k] in defs
    ensures AllTasks(a + b, defs) == AllTasks(a, defs) + AllTasks(b, defs)
    decreases |b|
  {
    assert forall k :: 0 <= k < |a + b| ==> (a + b)[k] in defs by {
      forall k | 0 <= k < |a + b| ensures (a + b)[k] in defs {
        if k < |a| { assert (a + b)[k] == a[k]; } else { assert (a + b)[k] == b[k - |a|]; }
      }
    }
    if b == [] {
      assert a + b == a;
    } else {
      var n := |b| - 1;
      assert (a + b)[..|a + b| - 1] == a + b[..n];
      AllTasksAppend(a, b[..n], defs);
    }
  }

  /** Task preparation over the entries in context order: identity, layers, add-ons. */
  method PrepareAll(env: Environment, refs: seq<EntryRef>, ctx: PatchContext)
    returns (r: Outcome, tasks: seq<PreparedTask>, conflicts: seq<ContentItem>)
    requires forall k :: 0 <= k < |refs| ==> refs[k] in ctx.defs
    ensures r.Failed? ==> r.error.PatchingException?
    ensures r.Pass? ==> tasks == AllTasks(refs, ctx.defs)
    ensures r.Pass? ==> conflicts == AllConflicts(refs, ctx.defs, env.prepare, ctx.policy.ignored)
  {
    var defs, ignored := ctx.defs, ctx.policy.ignored;
    tasks, conflicts := [], [];
    for i := 0 to |refs|
      invariant forall k :: 0 <= k < i ==> refs[..i][k] in defs
      invariant tasks == AllTasks(refs[..i], defs)
      invariant conflicts == AllConflicts(refs[..i], defs, env.prepare, ignored)
    {
      assert refs[..i + 1][..i] == refs[..i];
      r, tasks, conflicts := PrepareTasks(env, refs[i], ctx, tasks, conflicts);
      if r.Failed? {
        return r, tasks, conflicts;
      }
    }
    assert refs[..|refs|] == refs;
    return Pass, tasks, conflicts;
  }

  /** The entries of the context order all have definitions. */
  lemma OrderInDefs(ctx: PatchContext)
    requires ctx.Valid()
    ensures forall k :: 0 <= k < |ctx.Order()| ==> ctx.Order()[k] in ctx.defs
  {
    var o := ctx.Order();
    forall k | 0 <= k < |o| ensures o[k] in ctx.defs {
      var l := |ctx.layerNames|;
      if k == 0 {
      } else if k <= l {
        assert o[k] == LayerEntry(ctx.layerNames[k - 1]);
      } else {
        assert o[k] == AddOnEntry(ctx.addOnNames[k - 1 - l]);
      }
    }
  }

  /**
   * The start of the prepare phase: a one-off patch invalidates nothing; a
   * cumulative one invalidates every installed one-off, most recent first,
   * after validating the rollback state of the oldest.
   */
  function ReplacedRun(env: Environment, patchType: PatchType, s: Staged): Run
  {
    var invalidation := if patchType == OneOff then [] else s.targets.identity.oneOffs;
    if invalidation != [] && Last(invalidation) !in env.validRollbackStates then
      Run(Failed(PatchingException(RollbackStateInvalid(Last(invalidation)))), s)
    else InvalidateRun(env, invalidation, s, ApplyMode)
  }

  /**
   * The identity's part of the prepare phase: the patch's own modifications
   * are merged into the identity's definitions and its id is applied to the
   * identity; a cumulative patch then port-forwards earlier cumulative
   * content, any failure of which is rethrown, and sets the resulting
   * version.
   */
  function IdentityRun(env: Environment, u: InstalledState, p: Patch, s: Staged): Run
  {
    var s1 := s.(
      targets := Put(s.targets, IdentityEntry, ApplyPatch(s.targets.identity, p.patchId, p.identity.patchType)),
      defs := s.defs[IdentityEntry := ApplyModifications(p.patchId, p.modifications, Entry(s.defs, IdentityEntry))]);
    if p.identity.patchType == OneOff then Run(Pass, s1)
    else
      var f := PortForwardAll(env, u, s1, p.elements);
      if f.outcome.Failed? then Run(Failed(Rethrow(f.outcome.error)), f.staged)
      else Run(Pass, f.staged.(resultingVersion := Some(p.identity.resultingVersion)))
  }

  /**
   * The part of the prepare phase that changes the installation, from a
   * context over the modification that started from `u`: invalidation, the
   * patch id recorded as installed, the element loop, then the identity.
   */
  function ApplyPatchRun(env: Environment, u: InstalledState, p: Patch, s: Staged): Run
  {
    var inv := ReplacedRun(env, p.identity.patchType, s);
    if inv.outcome.Failed? then inv
    else
      var a := ApplyAll(inv.staged.(installed := inv.staged.installed + [p.patchId]), p.elements);
      if a.outcome.Failed? then a else IdentityRun(env, u, p, a.staged)
  }

  /**
   * After a passing prepare phase every layer and add-on has the ids of the
   * replaced patches' elements rolled back, in invalidation order, and then
   * the ids of the new patch's elements for it applied, in element order.
   */
  lemma ApplyPatchRunLayers(env: Environment, u: InstalledState, p: Patch, s: Staged, ref: EntryRef)
    requires ApplyPatchRun(env, u, p, s).outcome.Pass?
    requires ref != IdentityEntry && Has(s.targets, ref)
    ensures SameKeys(ApplyPatchRun(env, u, p, s).staged.targets, s.targets)
    ensures Has(ApplyPatchRun(env, u, p, s).staged.targets, ref)
    ensures Get(ApplyPatchRun(env, u, p, s).staged.targets, ref) ==
      var invalidation := if p.identity.patchType == OneOff then [] else s.targets.identity.oneOffs;
      ApplyNaming(InvalidatedLayer(env, invalidation, ref, Get(s.targets, ref)), ref, p.elements)
  {
    var invalidation := if p.identity.patchType == OneOff then [] else s.targets.identity.oneOffs;
    var inv := ReplacedRun(env, p.identity.patchType, s);
    InvalidateRunLayers(env, invalidation, s, ref);
    var s1 := inv.staged.(installed := inv.staged.installed + [p.patchId]);
    SameKeysHas(s1.targets, s.targets, ref);
    var a := ApplyAll(s1, p.elements);
    ApplyAllKeys(s1, p.elements);
    ApplyAllTarget(s1, p.elements, ref);
    var s2 := a.staged.(
      targets := Put(a.staged.targets, IdentityEntry, ApplyPatch(a.staged.targets.identity, p.patchId, p.identity.patchType)),
      defs := a.staged.defs[IdentityEntry := ApplyModifications(p.patchId, p.modifications, Entry(a.staged.defs, IdentityEntry))]);
    PortForwardAllTargets(env, u, s2, p.elements);
  }

  /**
   * The first cumulative patch on an installation whose patched layers and
   * add-ons are all at BASE passes port-forwarding, whatever the history
   * holds, once its elements are applied: the cumulative id port-forwarding
   * reads is the one before the modification, not the element's own.
   */
  lemma FirstCumulativeForwards(env: Environment, u: InstalledState, p: Patch, s: Staged)
    requires p.identity.patchType == Cumulative
    requires ApplyAll(s, p.elements).outcome.Pass?
    requires forall k :: 0 <= k < |p.elements| ==>
      Has(s.targets, RefFor(p.elements[k])) && UnmodifiedCumulative(u, p.elements[k]) == BASE
    ensures IdentityRun(env, u, p, ApplyAll(s, p.elements).staged).outcome.Pass?
    ensures IdentityRun(env, u, p, ApplyAll(s, p.elements).staged).staged.resultingVersion == Some(p.identity.resultingVersion)
  {
    var a := ApplyAll(s, p.elements).staged;
    ApplyAllKeys(s, p.elements);
    var s1 := a.(
      targets := Put(a.targets, IdentityEntry, ApplyPatch(a.targets.identity, p.patchId, p.identity.patchType)),
      defs := a.defs[IdentityEntry := ApplyModifications(p.patchId, p.modifications, Entry(a.defs, IdentityEntry))]);
    BaseForwards(env, u, s1, p.elements);
  }

  /** The start of the prepare phase, proved against `ReplacedRun`. */
  method InvalidateReplaced(env: Environment, patchType: PatchType, ctx: PatchContext) returns (r: Outcome)
    requires ctx.Valid() && ctx.mode == ApplyMode
    modifies ctx`defs, ctx`layerNames, ctx`addOnNames, ctx`resultingVersion
    modifies ctx.modification`identity, ctx.modification`layers, ctx.modification`addOns
    ensures ctx.Valid()
    ensures r.Failed? ==> r.error.PatchingException?
    ensures (patchType == Cumulative && old(ctx.modification.identity.oneOffs) != [] &&
             Last(old(ctx.modification.identity.oneOffs)) !in env.validRollbackStates) ==>
      r == Failed(PatchingException(RollbackStateInvalid(Last(old(ctx.modification.identity.oneOffs))))) &&
      unchanged(ctx.modification)
    ensures r.Pass? && patchType == OneOff ==> ctx.modification.identity == old(ctx.modification.identity)
    ensures r.Pass? && patchType == Cumulative ==>
      ctx.modification.identity.oneOffs == [] &&
      forall k :: 0 <= k < |old(ctx.modification.identity.oneOffs)| ==>
        var id := old(ctx.modification.identity.oneOffs)[k];
        id in env.history && RollbackMatches(env.history[id].original.elements, env.history[id].rollback.patch.elements)
    ensures r == ReplacedRun(env, patchType, old(ctx.Snapshot())).outcome
    ensures r.Pass? ==> ctx.Snapshot() == ReplacedRun(env, patchType, old(ctx.Snapshot())).staged
  {
    var m := ctx.modification;
    var invalidation := if patchType == OneOff then [] else m.identity.oneOffs;
    if invalidation != [] && Last(invalidation) !in env.validRollbackStates {
      return Failed(PatchingException(RollbackStateInvalid(Last(invalidation))));
    }
    ghost var identity0 := m.identity;
    r := Pass;
    if invalidation != [] {
      r := Invalidate(env, invalidation, ctx);
    }
    InvalidationClearsOneOffs(identity0);
  }

  /**
   * The part of the prepare phase that changes the installation, proved
   * against `ApplyPatchRun`; the identity it leaves and the failures it
   * cannot get past are stated again directly.
   */
  method ApplyPatchInContext(env: Environment, p: Patch, ctx: PatchContext) returns (r: Outcome)
    requires ctx.Valid() && ctx.mode == ApplyMode
    modifies ctx`defs, ctx`layerNames, ctx`addOnNames, ctx`resultingVersion, ctx`loaders
    modifies ctx.modification`identity, ctx.modification`layers, ctx.modification`addOns, ctx.modification`installed
    ensures ctx.Valid()
    ensures r.Failed? ==> r.error.PatchingException?
    ensures (p.identity.patchType == Cumulative && old(ctx.modification.identity.oneOffs) != [] &&
             Last(old(ctx.modification.identity.oneOffs)) !in env.validRollbackStates) ==>
      r == Failed(PatchingException(RollbackStateInvalid(Last(old(ctx.modification.identity.oneOffs))))) &&
      unchanged(ctx.modification)
    ensures r.Pass? ==> ctx.modification.installed == old(ctx.modification.installed) + [p.patchId]
    ensures r.Pass? && p.identity.patchType == OneOff ==>
      ctx.modification.identity == ApplyPatch(old(ctx.modification.identity), p.patchId, OneOff)
    ensures r.Pass? && p.identity.patchType == Cumulative ==>
      ctx.modification.identity == TargetInfo(p.patchId, []) &&
      ctx.resultingVersion == Some(p.identity.resultingVersion) &&
      forall k :: 0 <= k < |old(ctx.modification.identity.oneOffs)| ==>
        var id := old(ctx.modification.identity.oneOffs)[k];
        id in env.history && RollbackMatches(env.history[id].original.elements, env.history[id].rollback.patch.elements)
    ensures r.Pass? ==> forall k :: 0 <= k < |p.elements| ==> HasTarget(ctx.modification, RefFor(p.elements[k]))
    ensures r.Pass? && p.identity.patchType == Cumulative ==>
      forall k :: 0 <= k < |p.elements| ==> Forwardable(env, ctx.modification.unmodified, p.elements[k])
    ensures r == ApplyPatchRun(env, ctx.modification.unmodified, p, old(ctx.Snapshot())).outcome
    ensures r.Pass? ==> ctx.Snapshot() == ApplyPatchRun(env, ctx.modification.unmodified, p, old(ctx.Snapshot())).staged
  {
    var m := ctx.modification;
    var patchType := p.identity.patchType;
    r := InvalidateReplaced(env, patchType, ctx);
    if r.Failed? {
      return r;
    }
    m.AddInstalledPatch(p.patchId);
    r := ApplyElements(p.elements, ctx);
    if r.Failed? {
      return r;
    }
    r := ApplyIdentity(env, p, ctx);
  }

  /** The identity's part of the prepare phase, proved against `IdentityRun`. */
  method ApplyIdentity(env: Environment, p: Patch, ctx: PatchContext) returns (r: Outcome)
    requires ctx.Valid()
    modifies ctx`defs, ctx`layerNames, ctx`addOnNames, ctx`resultingVersion, ctx`loaders
    modifies ctx.modification`identity, ctx.modification`layers, ctx.modification`addOns
    ensures ctx.Valid()
    ensures r.Failed? ==> r.error.PatchingException?
    ensures ctx.modification.layers == old(ctx.modification.layers) && ctx.modification.addOns == old(ctx.modification.addOns)
    ensures ctx.modification.identity == ApplyPatch(old(ctx.modification.identity), p.patchId, p.identity.patchType)
    ensures p.identity.patchType == OneOff ==> r == Pass
    ensures r.Pass? && p.identity.patchType == Cumulative ==>
      ctx.resultingVersion == Some(p.identity.resultingVersion) &&
      forall k :: 0 <= k < |p.elements| ==> Forwardable(env, ctx.modification.unmodified, p.elements[k])
    ensures r.Pass? ==> ctx.defs[IdentityEntry] == ApplyModifications(p.patchId, p.modifications, old(ctx.defs[IdentityEntry]))
    ensures r == IdentityRun(env, ctx.modification.unmodified, p, old(ctx.Snapshot())).outcome
    ensures r.Pass? ==> ctx.Snapshot() == IdentityRun(env, ctx.modification.unmodified, p, old(ctx.Snapshot())).staged
  {
    var m := ctx.modification;
    ctx.SetDefs(IdentityEntry, ApplyModifications(p.patchId, p.modifications, ctx.defs[IdentityEntry]));
    m.SetTarget(IdentityEntry, ApplyPatch(m.identity, p.patchId, p.identity.patchType));
    if p.identity.patchType == Cumulative {
      ghost var s1 := ctx.Snapshot();
      r := PortForward(env, p, ctx);
      PortForwardAllIdentityDefs(env, ctx.modification.unmodified, s1, p.elements);
      if r.Failed? {
        return Failed(Rethrow(r.error));
      }
      ctx.resultingVersion := Some(p.identity.resultingVersion);
    }
    return Pass;
  }

  // ---------------------------------------------------------------------
  // Execution
  // ---------------------------------------------------------------------

  /** The position of the first task that is not excluded and whose `execute` throws. */
  function FirstFailure(tasks: seq<PreparedTask>, excluded: set<ContentItem>, fails: set<ContentItem>): (k: nat)
    ensures k <= |tasks|
    ensures forall j :: 0 <= j < k ==> tasks[j].item in excluded || tasks[j].item !in fails
    ensures k < |tasks| ==> tasks[k].item !in excluded && tasks[k].item in fails
  {
    if tasks == [] || (tasks[0].item !in excluded && tasks[0].item in fails) then 0
    else 1 + FirstFailure(tasks[1..], excluded, fails)
  }

  /** The items of the tasks that run, in prepared order: every task that is not excluded. */
  function RunItems(tasks: seq<PreparedTask>, excluded: set<ContentItem>): seq<ContentItem>
    decreases |tasks|
  {
    if tasks == [] then []
    else
      var n := |tasks| - 1;
      RunItems(tasks[..n], excluded) + if tasks[n].item in excluded then [] else [tasks[n].item]
  }

  /** Exactly the items of the tasks that are not excluded run, and no more of
   *  them than there are tasks. */
  lemma {:induction false} RunItemsMembers(tasks: seq<PreparedTask>, excluded: set<ContentItem>)
    ensures |RunItems(tasks, excluded)| <= |tasks|
    ensures forall x :: x in RunItems(tasks, excluded) <==>
      x !in excluded && exists j :: 0 <= j < |tasks| && tasks[j].item == x
    decreases |tasks|
  {
    if tasks != [] {
      var n := |tasks| - 1;
      RunItemsMembers(tasks[..n], excluded);
      assert forall j :: 0 <= j < n ==> tasks[..n][j] == tasks[j];
    }
  }

  /** `PatchContentProvider`, as far as the runner uses it: it can be cleaned up. */
  class ContentProvider {
    var cleanedUp: bool

    constructor ()
      ensures !cleanedUp
    {
      cleanedUp := false;
    }

    method Cleanup()
      modifies this
      ensures cleanedUp
    {
      cleanedUp := true;
    }
  }

  /** `IdentityPhasedPatchRunner.State`: what the prepare phase leaves for the execute phase. */
  class State {
    const env: Environment
    const patch: Option<Patch>
    const provider: ContentProvider
    const policy: Policy
    const modification: Modification
    var context: PatchContext?
    /** The `IdentityApplyCallback`, identified by the id of the patch it finalises. */
    var callback: Option<string>
    var tasks: seq<PreparedTask>
    var conflicts: seq<ContentItem>

    constructor (env: Environment, patch: Option<Patch>, provider: ContentProvider, policy: Policy, modification: Modification)
      ensures this.env == env && this.patch == patch && this.provider == provider
      ensures this.policy == policy && this.modification == modification
      ensures context == null && callback == None && tasks == [] && conflicts == []
    {
      this.env := env;
      this.patch := patch;
      this.provider := provider;
      this.policy := policy;
      this.modification := modification;
      context := null;
      callback := None;
      tasks := [];
      conflicts := [];
    }

    /** What a successful prepare phase establishes. */
    ghost predicate Prepared()
      reads this, context, modification
    {
      && context != null && patch.Some?
      && context.modification == modification && context.policy == policy && context.mode == ApplyMode
      && context.Valid()
      && callback == Some(patch.value.patchId)
    }

    /** The checks before anything is touched, in the order the prepare phase makes them. */
    ghost predicate Applicable(t: TargetInfo)
      reads this, modification
    {
      patch.Some? && patch.value.identity.version == modification.version &&
      !IsApplied(t, patch.value.patchId) && UpgradeCheck(patch.value.identity.condition, t) == Pass
    }

    /** The checks at the start of `prepareTasksStep`, which change nothing. */
    method CheckApplicable() returns (r: Outcome)
      ensures r.Pass? <==> Applicable(modification.identity)
      ensures r.Failed? ==> r.error.PatchingException?
      ensures patch.None? ==>
        r == Failed(PatchingException(FailedToResolvePatch(modification.name, modification.version)))
      ensures patch.Some? && patch.value.identity.version != modification.version ==>
        r == Failed(PatchingException(DoesNotApply(patch.value.identity.version, modification.version)))
      ensures (patch.Some? && patch.value.identity.version == modification.version &&
               IsApplied(modification.identity, patch.value.patchId)) ==>
        r == Failed(PatchingException(AlreadyApplied(patch.value.patchId)))
      ensures (patch.Some? && patch.value.identity.version == modification.version &&
               !IsApplied(modification.identity, patch.value.patchId)) ==>
        r == UpgradeCheck(patch.value.identity.condition, modification.identity)
    {
      if patch.None? {
        return Failed(PatchingException(FailedToResolvePatch(modification.name, modification.version)));
      }
      var p := patch.value;
      var appliesTo := p.identity.version;
      if appliesTo != modification.version {
        return Failed(PatchingException(DoesNotApply(appliesTo, modification.version)));
      }
      if IsApplied(modification.identity, p.patchId) {
        return Failed(PatchingException(AlreadyApplied(p.patchId)));
      }
      r := CheckUpgradeConditions(p.identity.condition, modification.identity);
    }

    /** The part of `prepareTasksStep` after the checks: the context is
     *  created, the patch is applied to the targets in it, and the tasks are
     *  prepared. */
    method PrepareInContext() returns (r: Outcome)
      requires context == null && conflicts == [] && Applicable(modification.identity) && modification.Valid()
      modifies this`context, this`callback, this`tasks, this`conflicts
      modifies modification`identity, modification`layers, modification`addOns, modification`installed
      ensures r.Failed? ==> r.error.PatchingException?
      ensures (Applicable(old(modification.identity)) && patch.value.identity.patchType == Cumulative &&
               old(modification.identity.oneOffs) != [] &&
               Last(old(modification.identity.oneOffs)) !in env.validRollbackStates) ==>
        r == Failed(PatchingException(RollbackStateInvalid(Last(old(modification.identity.oneOffs))))) && unchanged(modification)
      ensures r.Pass? ==> Applicable(old(modification.identity)) && Prepared()
      ensures r.Pass? ==> fresh(context)
      ensures r.Pass? ==> modification.installed == old(modification.installed) + [patch.value.patchId]
      ensures r.Pass? && patch.value.identity.patchType == OneOff ==>
        modification.identity == ApplyPatch(old(modification.identity), patch.value.patchId, OneOff)
      ensures r.Pass? && patch.value.identity.patchType == Cumulative ==>
        modification.identity == TargetInfo(patch.value.patchId, []) &&
        context.resultingVersion == Some(patch.value.identity.resultingVersion) &&
        forall k :: 0 <= k < |old(modification.identity.oneOffs)| ==>
          var id := old(modification.identity.oneOffs)[k];
          id in env.history && RollbackMatches(env.history[id].original.elements, env.history[id].rollback.patch.elements)
      ensures r.Pass? ==> forall k :: 0 <= k < |patch.value.elements| ==> HasTarget(modification, RefFor(patch.value.elements[k]))
      ensures r.Pass? && patch.value.identity.patchType == Cumulative ==>
        forall k :: 0 <= k < |patch.value.elements| ==> Forwardable(env, modification.unmodified, patch.value.elements[k])
      ensures r.Pass? ==>
        forall k :: 0 <= k < |context.Order()| ==> context.Order()[k] in context.defs
      ensures r.Pass? ==>
        tasks == AllTasks(context.Order(), context.defs) && conflicts == [] &&
        AllConflicts(context.Order(), context.defs, env.prepare, policy.ignored) == []
      ensures conflicts != [] ==>
        r == Failed(PatchingException(ConflictsDetected(conflicts))) && context != null &&
        (forall k :: 0 <= k < |context.Order()| ==> context.Order()[k] in context.defs) &&
        conflicts == AllConflicts(context.Order(), context.defs, env.prepare, policy.ignored)
    {
      r := ApplyInNewContext();
      if r.Failed? {
        return r;
      }
      callback := Some(patch.value.patchId);
      r := CollectTasks();
    }

    /** The context `prepareTasksStep` creates, with the patch applied to the
     *  targets in it, stated as far as the rest of the step depends on it. */
    method ApplyInNewContext() returns (r: Outcome)
      requires context == null && Applicable(modification.identity) && modification.Valid()
      modifies this`context, modification`identity, modification`layers, modification`addOns, modification`installed
      ensures context != null && fresh(context) && context.Valid()
      ensures context.modification == modification && context.policy == policy && context.mode == ApplyMode
      ensures r.Failed? ==> r.error.PatchingException?
      ensures (patch.value.identity.patchType == Cumulative &&
               old(modification.identity.oneOffs) != [] &&
               Last(old(modification.identity.oneOffs)) !in env.validRollbackStates) ==>
        r == Failed(PatchingException(RollbackStateInvalid(Last(old(modification.identity.oneOffs))))) && unchanged(modification)
      ensures r.Pass? ==> modification.installed == old(modification.installed) + [patch.value.patchId]
      ensures r.Pass? && patch.value.identity.patchType == OneOff ==>
        modification.identity == ApplyPatch(old(modification.identity), patch.value.patchId, OneOff)
      ensures r.Pass? && patch.value.identity.patchType == Cumulative ==>
        modification.identity == TargetInfo(patch.value.patchId, []) &&
        context.resultingVersion == Some(patch.value.identity.resultingVersion) &&
        forall k :: 0 <= k < |old(modification.identity.oneOffs)| ==>
          var id := old(modification.identity.oneOffs)[k];
          id in env.history && RollbackMatches(env.history[id].original.elements, env.history[id].rollback.patch.elements)
      ensures r.Pass? ==> forall k :: 0 <= k < |patch.value.elements| ==> HasTarget(modification, RefFor(patch.value.elements[k]))
      ensures r.Pass? && patch.value.identity.patchType == Cumulative ==>
        forall k :: 0 <= k < |patch.value.elements| ==> Forwardable(env, modification.unmodified, patch.value.elements[k])
    {
      var ctx := new PatchContext(ApplyMode, modification, policy);
      context := ctx;
      r := ApplyPatchInContext(env, patch.value, ctx);
    }

    /** The tail of `prepareTasksStep`: tasks are prepared for every entry of
     *  the context, and any conflict found fails the step. */
    method CollectTasks() returns (r: Outcome)
      requires context != null && context.Valid() && conflicts == []
      modifies this`tasks, this`conflicts
      ensures r.Failed? ==> r.error.PatchingException?
      ensures forall k :: 0 <= k < |context.Order()| ==> context.Order()[k] in context.defs
      ensures r.Pass? ==>
        tasks == AllTasks(context.Order(), context.defs) && conflicts == [] &&
        AllConflicts(context.Order(), context.defs, env.prepare, context.policy.ignored) == []
      ensures conflicts != [] ==>
        r == Failed(PatchingException(ConflictsDetected(conflicts))) &&
        conflicts == AllConflicts(context.Order(), context.defs, env.prepare, context.policy.ignored)
    {
      var prepared, conflicting;
      OrderInDefs(context);
      r, prepared, conflicting := PrepareAll(env, context.Order(), context);
      if r.Failed? {
        return r;
      }
      tasks, conflicts := prepared, conflicting;
      if conflicts != [] {
        return Failed(PatchingException(ConflictsDetected(conflicts)));
      }
    }

    /** `prepareTasksStep`. */
    method PrepareTasksStep() returns (r: Outcome)
      requires context == null && conflicts == [] && modification.Valid()
      modifies this`context, this`callback, this`tasks, this`conflicts
      modifies modification`identity, modification`layers, modification`addOns, modification`installed
      ensures r.Failed? ==> r.error.PatchingException?
      ensures patch.None? ==>
        r == Failed(PatchingException(FailedToResolvePatch(modification.name, modification.version))) && unchanged(modification)
      ensures patch.Some? && patch.value.identity.version != modification.version ==>
        r == Failed(PatchingException(DoesNotApply(patch.value.identity.version, modification.version))) && unchanged(modification)
      ensures (patch.Some? && patch.value.identity.version == modification.version &&
               IsApplied(old(modification.identity), patch.value.patchId)) ==>
        r == Failed(PatchingException(AlreadyApplied(patch.value.patchId))) && unchanged(modification)
      ensures (patch.Some? && patch.value.identity.version == modification.version &&
               !IsApplied(old(modification.identity), patch.value.patchId) &&
               UpgradeCheck(patch.value.identity.condition, old(modification.identity)).Failed?) ==>
        r == UpgradeCheck(patch.value.identity.condition, old(modification.identity)) && unchanged(modification)
      ensures (Applicable(old(modification.identity)) && patch.value.identity.patchType == Cumulative &&
               old(modification.identity.oneOffs) != [] &&
               Last(old(modification.identity.oneOffs)) !in env.validRollbackStates) ==>
        r == Failed(PatchingException(RollbackStateInvalid(Last(old(modification.identity.oneOffs))))) && unchanged(modification)
      ensures r.Pass? ==> Applicable(old(modification.identity)) && Prepared()
      ensures r.Pass? ==> fresh(context)
      ensures r.Pass? ==> modification.installed == old(modification.installed) + [patch.value.patchId]
      ensures r.Pass? && patch.value.identity.patchType == OneOff ==>
        modification.identity == ApplyPatch(old(modification.identity), patch.value.patchId, OneOff)
      ensures r.Pass? && patch.value.identity.patchType == Cumulative ==>
        modification.identity == TargetInfo(patch.value.patchId, []) &&
        context.resultingVersion == Some(patch.value.identity.resultingVersion) &&
        forall k :: 0 <= k < |old(modification.identity.oneOffs)| ==>
          var id := old(modification.identity.oneOffs)[k];
          id in env.history && RollbackMatches(env.history[id].original.elements, env.history[id].rollback.patch.elements)
      ensures r.Pass? ==> forall k :: 0 <= k < |patch.value.elements| ==> HasTarget(modification, RefFor(patch.value.elements[k]))
      ensures r.Pass? && patch.value.identity.patchType == Cumulative ==>
        forall k :: 0 <= k < |patch.value.elements| ==> Forwardable(env, modification.unmodified, patch.value.elements[k])
      ensures r.Pass? ==>
        forall k :: 0 <= k < |context.Order()| ==> context.Order()[k] in context.defs
      ensures r.Pass? ==>
        tasks == AllTasks(context.Order(), context.defs) && conflicts == [] &&
        AllConflicts(context.Order(), context.defs, env.prepare, policy.ignored) == []
      ensures conflicts != [] ==>
        r == Failed(PatchingException(ConflictsDetected(conflicts))) && context != null &&
        (forall k :: 0 <= k < |context.Order()| ==> context.Order()[k] in context.defs) &&
        conflicts == AllConflicts(context.Order(), context.defs, env.prepare, policy.ignored)
    {
      r := CheckApplicable();
      if r.Failed? {
        return r;
      }
      r := PrepareInContext();
    }

    /** `executeAndFinalizeStep`: the prepared tasks in order, then `finalize`. */
    method ExecuteAndFinalizeStep() returns (r: Result<PatchingResult>)
      requires context != null && patch.Some?
      modifies context`executed
      ensures r.Fail? ==> r.error.PatchingException?
      ensures r.Ok? <==> FirstFailure(tasks, context.policy.excluded, env.executeFails) == |tasks| && !env.finalizeFails
      ensures r.Ok? ==> r.value == PatchingResult(patch.value.patchId)
      ensures context.executed ==
        old(context.executed) + RunItems(tasks[..FirstFailure(tasks, context.policy.excluded, env.executeFails)], context.policy.excluded)
    {
      var ctx, ts := context, tasks;
      var excluded, fails := ctx.policy.excluded, env.executeFails;
      var i := 0;
      while i < |ts|
        invariant 0 <= i <= |ts|
        invariant forall j :: 0 <= j < i ==> ts[j].item in excluded || ts[j].item !in fails
        invariant ctx.executed == old(ctx.executed) + RunItems(ts[..i], excluded)
      {
        var item := ts[i].item;
        assert ts[..i + 1][..i] == ts[..i];
        if item in excluded {
          i := i + 1;
          continue;
        }
        if item in fails {
          FirstFailureLeast(ts, excluded, fails, i);
          return Fail(Rethrow(IOException("execute")));
        }
        ctx.executed := ctx.executed + [item];
        i := i + 1;
      }
      FirstFailureLeast(ts, excluded, fails, i);
      assert ts[..|ts|] == ts;
      if env.finalizeFails {
        return Fail(Rethrow(IOException("finalize")));
      }
      return Ok(PatchingResult(patch.value.patchId));
    }
  }

  /** `FirstFailure` is the least position of a failing task. */
  lemma {:induction false} FirstFailureLeast(tasks: seq<PreparedTask>, excluded: set<ContentItem>, fails: set<ContentItem>, k: nat)
    requires k <= |tasks|
    requires forall j :: 0 <= j < k ==> tasks[j].item in excluded || tasks[j].item !in fails
    requires k < |tasks| ==> tasks[k].item !in excluded && tasks[k].item in fails
    ensures FirstFailure(tasks, excluded, fails) == k
    decreases k
  {
    if k > 0 {
      FirstFailureLeast(tasks[1..], excluded, fails, k - 1);
    }
  }

  /**
   * `IdentityPhasedPatchRunner`: holds the `State` from `prepareToExecute`
   * until `executeAndFinalize`.
   */
  class PhasedPatchRunner {
    const env: Environment
    var state: State?

    constructor (env: Environment)
      ensures this.env == env && state == null
    {
      this.env := env;
      state := null;
    }

    /** A state either holds the prepared context of a resolved patch, or
     *  is the half-built one a resolver that threw leaves behind. */
    ghost predicate Valid()
      reads this, state
    {
      state != null ==> state.env == env && (state.context != null <==> state.patch.Some?)
    }

    /** The objects `executeAndFinalize` may change. */
    ghost function Footprint(): set<object>
      reads this, state
    {
      if state == null then {}
      else {state.provider} + if state.context == null then {} else {state.context}
    }

    /**
     * `prepareToExecute`: builds the state and runs the prepare phase; when
     * that fails the content provider is cleaned up and the state dropped.
     * The patch is resolved before the guarded part, so a resolver that
     * throws leaves a state without a patch and a provider not cleaned up.
     */
    method PrepareToExecute(resolve: (string, string) -> Result<Option<Patch>>, provider: ContentProvider, policy: Policy, modification: Modification)
      returns (r: Outcome)
      requires modification.Valid()
      modifies this, provider, modification`identity, modification`layers, modification`addOns, modification`installed
      ensures Valid()
      ensures resolve(modification.name, modification.version).Fail? ==>
        && r == Failed(resolve(modification.name, modification.version).error)
        && state != null && fresh(state) && state.patch.None? && state.context == null
        && state.provider == provider && state.modification == modification
        && unchanged(provider) && unchanged(modification)
      ensures r.Failed? && resolve(modification.name, modification.version).Ok? ==>
        state == null && provider.cleanedUp && r.error.PatchingException?
      ensures r.Pass? ==>
        && resolve(modification.name, modification.version).Ok?
        && state != null && fresh(state)
        && state.provider == provider && state.policy == policy && state.modification == modification
        && state.patch == resolve(modification.name, modification.version).value
        && state.Prepared() && state.conflicts == [] && fresh(state.context)
        && modification.installed == old(modification.installed) + [state.patch.value.patchId]
        && provider.cleanedUp == old(provider.cleanedUp)
      ensures resolve(modification.name, modification.version) == Ok(None) ==>
        r == Failed(PatchingException(FailedToResolvePatch(modification.name, modification.version)))
    {
      var resolved := resolve(modification.name, modification.version);
      if resolved.Fail? {
        state := new State(env, None, provider, policy, modification);
        return Failed(resolved.error);
      }
      var s := new State(env, resolved.value, provider, policy, modification);
      state := s;
      r := s.PrepareTasksStep();
      if r.Failed? {
        provider.Cleanup();
        state := null;
        return Failed(Rethrow(r.error));
      }
    }

    /**
     * `executeAndFinalize`: runs the execute phase and always drops the
     * state; with no state, or the half-built one, it throws a
     * `NullPointerException`.
     */
    method ExecuteAndFinalize() returns (r: Result<PatchingResult>)
      requires Valid()
      modifies this, Footprint()
      ensures state == null
      ensures (old(state) == null || old(state.context) == null) ==> r == Fail(RuntimeFailure("NullPointerException"))
      ensures old(state) != null ==> old(state).provider.cleanedUp
      ensures old(state) != null && old(state.context) != null && r.Ok? ==> r.value == PatchingResult(old(state.patch).value.patchId)
      ensures old(state) != null && old(state.context) != null ==>
        (r.Ok? <==>
          FirstFailure(old(state.tasks), old(state.context.policy.excluded), env.executeFails) == |old(state.tasks)| &&
          !env.finalizeFails)
      ensures old(state) != null && old(state.context) != null ==>
        old(state.context).executed == old(state.context.executed) +
          RunItems(old(state.tasks)[..FirstFailure(old(state.tasks), old(state.context.policy.excluded), env.executeFails)],
                   old(state.context.policy.excluded))
    {
      if state == null {
        return Fail(RuntimeFailure("NullPointerException"));
      }
      var s := state;
      if s.context == null {
        s.provider.Cleanup();
        state := null;
        return Fail(RuntimeFailure("NullPointerException"));
      }
      r := s.ExecuteAndFinalizeStep();
      s.provider.Cleanup();
      state := null;
    }
  }
}
