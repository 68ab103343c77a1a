# WildFly patching core in Dafny

This project models, in Dafny, the parts of WildFly that apply a patch to a
server installation in a managed domain, and proves properties of the model:

- **`IdentityPhasedPatchRunner`** (module `Runner`). The runner applies a patch
  in two phases. The prepare phase checks that the patch applies and is not
  already installed, and checks its upgrade conditions. A cumulative patch
  first rolls back (invalidates) the installed one-off patches. The phase then
  applies every element of the patch to its layer or add-on, and applies the
  identity. A cumulative patch port-forwards the content of earlier cumulative
  patches and sets the resulting version. Last, the phase prepares one task
  per content definition and collects the conflicts. The execute phase runs
  the tasks in order, skips excluded items and finalizes. Rolling a patch back
  reads its `patch.xml` and `rollback.xml` from the history. It matches the
  rollback elements to the original ones by kind and name, and in ROLLBACK
  mode restores each target from the recorded state.
- **`DomainPatchCoordinator`** (module `Coordinator`). The coordinator copies
  an uploaded archive into a fresh work directory named `jboss-as-patch-<n>`
  and unpacks it there. It refuses a multi-patch bundle, parses `patch.xml`,
  and runs both phases of the runner. On any failure it cancels the
  modification. On every way out it deletes the work directory.
- **`ArtifactTreeHandler`** (module `ArtifactTree`). A builder collects at most
  one handler per artifact into a tree. The handler then walks the tree:
  each artifact's state is resolved from its parent's, the node's handler
  runs, and the children are visited once for a plain state and once per
  element for a collection state.
- **`PatchingHistory`, `PatchArtifact`, `PatchHistoryDir` and `RollbackXml`**
  (module `HistoryValidation`). These validation artifacts build the chain of
  applied patches. The chain starts with the newest patch, and each entry is
  found through the `rollback.xml` of the one before it. A history directory
  and its `rollback.xml` are each resolved at most once.
- **`CapabilityReference`** (module `CapabilityRef`). The reference registers
  and deregisters one capability requirement per attribute value. It builds
  dynamic requirement names joined by `.$`, and compares and hashes
  references by their capability's name.
- **`DomainPatchRebootStepHandler`** (module `RebootCommand`). The handler
  builds the command line of the patching process. That command line carries
  the host controller's own command line, joined with `&`, in its `--hc-cmd=`
  argument. The patching process splits that argument back with
  `String.split("&")`.

`Common` holds the shared vocabulary: target info, failures and their
rethrowing, and string helpers. `Metadata` and `PatchContextModel` are small
stand-ins for the runner's collaborators, whose code is not part of this model:
patch descriptors, `PatchingTasks`, `InstallationModification`,
`MutablePatchingTarget` and `IdentityPatchContext`.

Source paths below are relative to the repository root.

## Model

| member | source | states |
|---|---|---|
| Common.ApplyPatch | patching/src/main/java/org/jboss/as/patching/runner/IdentityPhasedPatchRunner.java:159-164 | after the target's `apply` the id is applied. A one-off goes in front of the one-offs and keeps the cumulative id. A cumulative patch replaces the cumulative id and keeps the one-offs. The runner only calls `apply` here; this is the behaviour of the `MutablePatchingTarget` stand-in. |
| Common.RollbackTarget | patching/src/main/java/org/jboss/as/patching/runner/IdentityPhasedPatchRunner.java:335 | after `rollback(id)` the id is no longer applied, unless it is BASE. The id leaves the one-offs, and a cumulative id reverts to BASE. Every other applied id stays applied. |
| Common.NewestEntry | patching/src/main/java/org/jboss/as/patching/validation/PatchArtifact.java:56-63 | the newest patch of a target is its first one-off; with no one-offs, it is the cumulative patch |
| Common.Rethrow | patching/src/main/java/org/jboss/as/patching/runner/IdentityPhasedPatchRunner.java:548-554 | `rethrowException` always yields a PatchingException. A PatchingException passes through unchanged; anything else becomes its cause. |
| Common.RethrowIdempotent | patching/src/main/java/org/jboss/as/patching/runner/DomainPatchCoordinator.java:171-177 | the coordinator rethrowing an exception the runner already rethrew adds no second wrapper |
| Runner.FirstNotApplied | patching/src/main/java/org/jboss/as/patching/runner/IdentityPhasedPatchRunner.java:565-569 | the position where the `requires` loop stops: all ids before it are applied, and the id at it is not |
| Runner.FirstApplied | patching/src/main/java/org/jboss/as/patching/runner/IdentityPhasedPatchRunner.java:571-575 | the position where the `incompatibleWith` loop stops: no id before it is applied, and the id at it is |
| Runner.FirstNotAppliedLeast | patching/src/main/java/org/jboss/as/patching/runner/IdentityPhasedPatchRunner.java:565-569 | any position with those two properties is the one the loop stops at |
| Runner.UpgradeCheck | patching/src/main/java/org/jboss/as/patching/runner/IdentityPhasedPatchRunner.java:563-576 | the check passes exactly when every required id is applied and no incompatible id is. Otherwise it fails with `requiresPatch` for the first missing requirement, or else `incompatiblePatch` for the first incompatible id that is applied. |
| Runner.CheckUpgradeConditions | patching/src/main/java/org/jboss/as/patching/runner/IdentityPhasedPatchRunner.java:563-576 | the two loops give the verdict of `UpgradeCheck` |
| Runner.ReapplyOneOffs | patching/src/main/java/org/jboss/as/patching/runner/IdentityPhasedPatchRunner.java:388-392 | re-applying the recorded one-offs in reverse puts them back in their recorded order, in front of the target's one-offs. The cumulative id is unchanged. |
| Runner.Restored | patching/src/main/java/org/jboss/as/patching/runner/IdentityPhasedPatchRunner.java:382-395 | the state `restoreFromHistory` gives a target. It has no contract of its own; `RestoredShape` states its shape. |
| Runner.RestoredShape | patching/src/main/java/org/jboss/as/patching/runner/IdentityPhasedPatchRunner.java:382-395 | a cumulative restore yields the rollback id as cumulative, with the recorded one-offs followed by the target's own. A one-off restore changes nothing. |
| Runner.RestoredIsHistory | patching/src/main/java/org/jboss/as/patching/runner/IdentityPhasedPatchRunner.java:385-394 | with no one-offs left, and the rollback id equal to the recorded cumulative id (the disabled assertion), the restore reproduces the recorded state |
| Runner.RestoredKeepsLeftovers | patching/src/main/java/org/jboss/as/patching/runner/IdentityPhasedPatchRunner.java:384-394 | a target that still has one-offs is never restored to the recorded state. `checkState(history, history)` cannot detect this. |
| Runner.RestoreFromHistory | patching/src/main/java/org/jboss/as/patching/runner/IdentityPhasedPatchRunner.java:382-395 | the named target becomes its restored state. Every other target, and the set of installed layers and add-ons, is unchanged. |
| Runner.FirstDuplicateMeaning | patching/src/main/java/org/jboss/as/patching/runner/IdentityPhasedPatchRunner.java:304-307 | the scan finds no repeated key exactly when the keys are distinct and none was seen before |
| Runner.Index | patching/src/main/java/org/jboss/as/patching/runner/IdentityPhasedPatchRunner.java:287-309 | the originals map has exactly the elements' keys, and maps each key to its element |
| Runner.StateFor | patching/src/main/java/org/jboss/as/patching/runner/IdentityPhasedPatchRunner.java:338-344 | the recorded target info of an element exists exactly when the recorded state has its layer or add-on, and is that target |
| Runner.IndexOriginals | patching/src/main/java/org/jboss/as/patching/runner/IdentityPhasedPatchRunner.java:287-309 | indexing succeeds exactly when no (kind, name) occurs twice. The index maps every element's key to that element, and is `Index` of the elements. A duplicate fails with `installationDuplicateLayer` for the first repeated key. |
| Runner.RollbackElement | patching/src/main/java/org/jboss/as/patching/runner/IdentityPhasedPatchRunner.java:311-348 | a missing target fails with `noSuchLayer`. The step succeeds exactly when the target exists and the recorded state has it. The target is then rolled back from the original id, and in ROLLBACK mode restored. Its definitions become the rollback merge of the element's modifications (all but misc). The identity is unchanged. The new context is `RollbackOne` of the old one. |
| Runner.RollbackElements | patching/src/main/java/org/jboss/as/patching/runner/IdentityPhasedPatchRunner.java:311-348 | on success the rollback elements have distinct keys that are all original keys, and exactly the other originals are left over. With resolvable elements and matching keys the loop cannot fail. The new context is `RollbackElementsRun` of the old one. |
| Runner.RollbackElementsKeys | patching/src/main/java/org/jboss/as/patching/runner/IdentityPhasedPatchRunner.java:311-348 | the rollback loop keeps the set of layers and add-ons and the identity entry |
| Runner.RollbackElementsTarget | patching/src/main/java/org/jboss/as/patching/runner/IdentityPhasedPatchRunner.java:311-348 | after the loop, a target named by a rollback element is that element's rollback of it (restored in ROLLBACK mode); every other target is unchanged |
| Runner.RollbackOneTarget | patching/src/main/java/org/jboss/as/patching/runner/IdentityPhasedPatchRunner.java:326-346 | one rollback round changes only the element's own target, to its rolled-back state |
| Runner.ResolvableRollbackPasses | patching/src/main/java/org/jboss/as/patching/runner/IdentityPhasedPatchRunner.java:311-348 | with distinct keys that are all original keys, and every target present in both states, the loop passes |
| Runner.RollbackElementsRunMeaning | patching/src/main/java/org/jboss/as/patching/runner/IdentityPhasedPatchRunner.java:311-348 | the rollback loop passes only for distinct original keys, and always passes for resolvable ones |
| Runner.RollbackElementsRunPass | patching/src/main/java/org/jboss/as/patching/runner/IdentityPhasedPatchRunner.java:311-348 | a passing loop had distinct original keys, and every element had a recorded target |
| Runner.RollbackElementsIdentityDefs | patching/src/main/java/org/jboss/as/patching/runner/IdentityPhasedPatchRunner.java:311-348 | the element loop leaves the identity's definitions alone |
| Runner.Rollback | patching/src/main/java/org/jboss/as/patching/runner/IdentityPhasedPatchRunner.java:276-371 | a patch without history fails on reading it. Duplicate originals fail. Originals left over by the rollback descriptor fail with `invalidRollbackInformation`. On success the two descriptors match one to one, and the identity is rolled back and, in ROLLBACK mode, restored. A cumulative rollback sets the resulting version. The new context is `RollbackRun` of the old one. |
| Runner.RollbackIdentity | patching/src/main/java/org/jboss/as/patching/runner/IdentityPhasedPatchRunner.java:354-369 | the identity is rolled back, and in ROLLBACK mode restored. Its definitions get the misc-only rollback merge. A cumulative rollback sets the resulting version; nothing else changes. |
| Runner.RollbackRunPass | patching/src/main/java/org/jboss/as/patching/runner/IdentityPhasedPatchRunner.java:276-371 | a passing rollback had history with distinct originals, all matched. Layers and add-ons end as the element loop left them. |
| Runner.RollbackRunIdentityDefs | patching/src/main/java/org/jboss/as/patching/runner/IdentityPhasedPatchRunner.java:354-356 | after a passing rollback the identity's definitions are the misc-only rollback merge of the recorded modifications |
| Runner.RollbackRunLayers | patching/src/main/java/org/jboss/as/patching/runner/IdentityPhasedPatchRunner.java:311-348 | in APPLY mode a passing rollback keeps the layers and add-ons, and each one ends rolled back from the original element's id, or unchanged when the patch has none for it |
| Runner.ElementIdForAt | patching/src/main/java/org/jboss/as/patching/runner/IdentityPhasedPatchRunner.java:287-309 | with distinct keys, the original id found for an element's target is that element's id |
| Runner.ElementIdForNone | patching/src/main/java/org/jboss/as/patching/runner/IdentityPhasedPatchRunner.java:287-309 | a target no element names has no original id |
| Runner.MatchedElementId | patching/src/main/java/org/jboss/as/patching/runner/IdentityPhasedPatchRunner.java:326-335 | a rollback element whose key is an original key is rolled back from that original's id |
| Runner.UnmatchedElementId | patching/src/main/java/org/jboss/as/patching/runner/IdentityPhasedPatchRunner.java:326-335 | when every original key is matched, a target no rollback element names has no original |
| Runner.RollbackAll | patching/src/main/java/org/jboss/as/patching/runner/IdentityPhasedPatchRunner.java:133-138 | rolling back a list of ids removes exactly those ids from the one-offs. The cumulative id stays or reverts to BASE. |
| Runner.InvalidationClearsOneOffs | patching/src/main/java/org/jboss/as/patching/runner/IdentityPhasedPatchRunner.java:118-138 | invalidating every installed one-off leaves none |
| Runner.Invalidate | patching/src/main/java/org/jboss/as/patching/runner/IdentityPhasedPatchRunner.java:133-138 | on success every invalidated id had matching history, and in APPLY mode the identity is the one `RollbackAll` gives. The new context is `InvalidateRun` of the old one. |
| Runner.InvalidateRunLayers | patching/src/main/java/org/jboss/as/patching/runner/IdentityPhasedPatchRunner.java:133-138 | in APPLY mode a passing invalidation keeps the layers and add-ons. Each one ends as the successive rollbacks of the invalidated patches leave it. |
| Runner.ApplyElement | patching/src/main/java/org/jboss/as/patching/runner/IdentityPhasedPatchRunner.java:144-160 | a missing target fails with `noSuchLayer`. An element already applied fails with `alreadyApplied`. Otherwise the verdict is the element's upgrade check. On success the target has the element applied, and its definitions get the element's modifications. The new context is `ApplyOne` of the old one. |
| Runner.ApplyElements | patching/src/main/java/org/jboss/as/patching/runner/IdentityPhasedPatchRunner.java:144-160 | on success every element's target exists. The identity is untouched. An already applied first element stops the loop with `alreadyApplied`. The new context is `ApplyAll` of the old one. |
| Runner.ApplyAllKeys | patching/src/main/java/org/jboss/as/patching/runner/IdentityPhasedPatchRunner.java:144-160 | applying the elements keeps the set of layers and add-ons |
| Runner.ApplyAllTarget | patching/src/main/java/org/jboss/as/patching/runner/IdentityPhasedPatchRunner.java:144-160 | after a passing loop each target has exactly the elements naming it applied, in order |
| Runner.ApplyNamingIdentity | patching/src/main/java/org/jboss/as/patching/runner/IdentityPhasedPatchRunner.java:146 | no element applies to the identity |
| Runner.ApplyAllSplit | patching/src/main/java/org/jboss/as/patching/runner/IdentityPhasedPatchRunner.java:144-160 | the loop over all elements is the loop over a passing prefix followed by the loop over the rest |
| Runner.AppliedElementFails | patching/src/main/java/org/jboss/as/patching/runner/IdentityPhasedPatchRunner.java:150-152 | an element whose id is already applied to its target, after the elements before it, fails the loop with `alreadyApplied`, at any position |
| Runner.FirstRecording | patching/src/main/java/org/jboss/as/patching/runner/IdentityPhasedPatchRunner.java:428-450 | the first cumulative history entry that recorded the id for the element's layer or add-on |
| Runner.FirstRecordingLeast | patching/src/main/java/org/jboss/as/patching/runner/IdentityPhasedPatchRunner.java:428-450 | that entry is the least position with the property, so the search stops at it |
| Runner.PortForwardElement | patching/src/main/java/org/jboss/as/patching/runner/IdentityPhasedPatchRunner.java:415-453 | one round succeeds exactly when the element is forwardable. The cumulative id is read from the installation as it was before this modification. It records one content loader for a non-BASE id and none for BASE. A non-BASE id is forwarded by adding the missing modifications of the first history entry that recorded it. A non-BASE id that no history entry records fails with `patchNotFoundInHistory`. The new context is `ForwardOne` of the old one. |
| Runner.ForwardFromEntry | patching/src/main/java/org/jboss/as/patching/runner/IdentityPhasedPatchRunner.java:432-446 | the element's definitions gain the missing modifications of the matching original elements, and the id is recorded as a loader; nothing else changes |
| Runner.PortForwardStep | patching/src/main/java/org/jboss/as/patching/runner/IdentityPhasedPatchRunner.java:415-454 | one round keeps the loop's invariant: all elements so far are forwardable, and the loaders are those they record |
| Runner.PortForward | patching/src/main/java/org/jboss/as/patching/runner/IdentityPhasedPatchRunner.java:411-455 | port-forwarding succeeds exactly when every element is forwardable. It then records exactly the loaders of the non-BASE targets, in element order. The new context is `PortForwardAll` of the old one. |
| Runner.PortForwardAllTargets | patching/src/main/java/org/jboss/as/patching/runner/IdentityPhasedPatchRunner.java:411-455 | port-forwarding changes no target and no installed id |
| Runner.PortForwardAllIdentityDefs | patching/src/main/java/org/jboss/as/patching/runner/IdentityPhasedPatchRunner.java:411-455 | port-forwarding leaves the identity's definitions alone |
| Runner.BaseForwards | patching/src/main/java/org/jboss/as/patching/runner/IdentityPhasedPatchRunner.java:421-425 | elements whose targets were still at BASE before the modification always forward, and record no loader |
| Runner.EntryTasks | patching/src/main/java/org/jboss/as/patching/runner/IdentityPhasedPatchRunner.java:466-483 | one prepared task per definition of the entry, in order |
| Runner.EntryConflictsMeaning | patching/src/main/java/org/jboss/as/patching/runner/IdentityPhasedPatchRunner.java:471-477 | an entry reports no conflict exactly when none of its definitions fails to prepare cleanly or has conflicts, leaving aside ignored items. It never reports an ignored item. |
| Runner.PrepareTasks | patching/src/main/java/org/jboss/as/patching/runner/IdentityPhasedPatchRunner.java:466-483 | succeeds exactly when no `prepare` throws, and then appends the entry's tasks and conflicts. An IO failure is wrapped in a PatchingException. |
| Runner.AllConflictsMeaning | patching/src/main/java/org/jboss/as/patching/runner/IdentityPhasedPatchRunner.java:186-199 | the prepare phase finds no conflict exactly when no definition of any entry is a conflict (both directions) |
| Runner.AllTasksCount | patching/src/main/java/org/jboss/as/patching/runner/IdentityPhasedPatchRunner.java:186-195 | every definition of every entry yields exactly one task |
| Runner.AllTasksAppend | patching/src/main/java/org/jboss/as/patching/runner/IdentityPhasedPatchRunner.java:186-195 | the identity's tasks come first, then the layers', then the add-ons': the entries keep their order |
| Runner.PrepareAll | patching/src/main/java/org/jboss/as/patching/runner/IdentityPhasedPatchRunner.java:186-195 | the three loops produce all tasks and all conflicts of the entries, in context order |
| Runner.InvalidateReplaced | patching/src/main/java/org/jboss/as/patching/runner/IdentityPhasedPatchRunner.java:112-138 | a one-off invalidates nothing. For a cumulative patch, an invalid rollback state of the oldest one-off fails before anything changes. On success no one-off is left, and every one had matching history. The new context is `ReplacedRun` of the old one. |
| Runner.ApplyPatchInContext | patching/src/main/java/org/jboss/as/patching/runner/IdentityPhasedPatchRunner.java:112-180 | on success the patch id is recorded as installed. A one-off is applied to the identity. A cumulative patch leaves exactly `(patchId, [])` with the resulting version set, every element forwardable and every replaced one-off properly rolled back. The new context is `ApplyPatchRun` of the old one. |
| Runner.ApplyPatchRunLayers | patching/src/main/java/org/jboss/as/patching/runner/IdentityPhasedPatchRunner.java:112-160 | a passing prepare keeps the layers and add-ons. Each one ends with the replaced one-offs rolled back and then the patch's elements naming it applied. |
| Runner.FirstCumulativeForwards | patching/src/main/java/org/jboss/as/patching/runner/IdentityPhasedPatchRunner.java:162-180 | a cumulative patch over an installation whose targets were all at BASE passes the identity step, and sets the resulting version |
| Runner.ApplyIdentity | patching/src/main/java/org/jboss/as/patching/runner/IdentityPhasedPatchRunner.java:162-180 | the identity has the patch applied and the layers are untouched. Its definitions get the patch's own modifications. A one-off then cannot fail. A cumulative patch that succeeds has set the resulting version, with every element port-forwarded. The new context is `IdentityRun` of the old one. |
| Runner.FirstFailure | patching/src/main/java/org/jboss/as/patching/runner/IdentityPhasedPatchRunner.java:204-217 | the position of the first task that is not excluded and whose `execute` throws |
| Runner.FirstFailureLeast | patching/src/main/java/org/jboss/as/patching/runner/IdentityPhasedPatchRunner.java:204-217 | that position is the least one with the property |
| Runner.RunItemsMembers | patching/src/main/java/org/jboss/as/patching/runner/IdentityPhasedPatchRunner.java:204-209 | the items executed are exactly the prepared items that are not excluded, each task at most once |
| Runner.ContentProvider.constructor | patching/src/main/java/org/jboss/as/patching/runner/IdentityPhasedPatchRunner.java:226-228 | a new content provider is not cleaned up |
| Runner.ContentProvider.Cleanup | patching/src/main/java/org/jboss/as/patching/runner/IdentityPhasedPatchRunner.java:226-228 | after `cleanup` the provider is cleaned up |
| Runner.State.constructor | patching/src/main/java/org/jboss/as/patching/runner/IdentityPhasedPatchRunner.java:234-238 | the state holds the resolved patch, the provider, the policy and the modification, with no context, tasks or conflicts yet |
| Runner.State.CheckApplicable | patching/src/main/java/org/jboss/as/patching/runner/IdentityPhasedPatchRunner.java:92-107 | these checks come in order and change nothing. An unresolved patch fails `failedToResolvePatch`; a version mismatch fails `doesNotApply`; an applied patch fails `alreadyApplied`; otherwise the verdict is the identity's upgrade check. |
| Runner.State.PrepareInContext | patching/src/main/java/org/jboss/as/patching/runner/IdentityPhasedPatchRunner.java:109-199 | on success the state is prepared and the identity is as `ApplyPatchInContext` says. The tasks are all the entries' tasks, and no conflict was found. Found conflicts fail with `conflictsDetected` listing them all. |
| Runner.State.ApplyInNewContext | patching/src/main/java/org/jboss/as/patching/runner/IdentityPhasedPatchRunner.java:110-180 | a fresh APPLY context is made over the modification. The earliest error, the installed ids, the identity, the targets and the forwarding are as `ApplyPatchInContext` says. |
| Runner.State.CollectTasks | patching/src/main/java/org/jboss/as/patching/runner/IdentityPhasedPatchRunner.java:183-199 | the tasks and conflicts are those of all entries, in context order. Any conflict fails the step with `conflictsDetected`. |
| Runner.State.PrepareTasksStep | patching/src/main/java/org/jboss/as/patching/runner/IdentityPhasedPatchRunner.java:89-200 | every early error of the prepare phase, with the modification unchanged, and everything a successful prepare phase establishes |
| Runner.State.ExecuteAndFinalizeStep | patching/src/main/java/org/jboss/as/patching/runner/IdentityPhasedPatchRunner.java:202-224 | the phase succeeds exactly when no run task throws and `finalize` does not throw, and then returns the patch id. The items executed are the non-excluded ones before the first failing task. |
| Runner.PhasedPatchRunner.constructor | patching/src/main/java/org/jboss/as/patching/runner/IdentityPhasedPatchRunner.java:74-76 | a new runner keeps the installed image and holds no state |
| Runner.PhasedPatchRunner.PrepareToExecute | patching/src/main/java/org/jboss/as/patching/runner/IdentityPhasedPatchRunner.java:233-246 | a resolver that throws leaves a new state with no patch set, the provider not cleaned up, and its error passed on unwrapped. A failing prepare phase cleans up the provider, drops the state and fails with a PatchingException. On success a fresh prepared state holds the resolved patch and this patch's id is recorded as installed. |
| Runner.PhasedPatchRunner.ExecuteAndFinalize | patching/src/main/java/org/jboss/as/patching/runner/IdentityPhasedPatchRunner.java:248-257 | the state is always dropped and its provider cleaned up. With no state, or a state without a context, there is a NullPointerException. Otherwise the call succeeds exactly when the execute phase does, and the items executed are those of the prepared tasks up to the first failing one, in order, with excluded items skipped. |
| Metadata.ApplyModifications | patching/src/main/java/org/jboss/as/patching/runner/IdentityPhasedPatchRunner.java:158 | every modified item gets a definition, no definition is lost, and the definitions stay one per item |
| Metadata.AddMissingModifications | patching/src/main/java/org/jboss/as/patching/runner/IdentityPhasedPatchRunner.java:438 | the existing definitions are kept as they are, in front, and the definitions stay one per item |
| Metadata.RollbackModifications | patching/src/main/java/org/jboss/as/patching/runner/IdentityPhasedPatchRunner.java:334 | the rollback merge gives a definition to every selected recorded modification, loses none, and keeps one definition per item |
| PatchContextModel.RefFor | patching/src/main/java/org/jboss/as/patching/runner/IdentityPhasedPatchRunner.java:146 | an element resolves to the layer or add-on entry of its own name, never to the identity |
| PatchContextModel.Modification.constructor | patching/src/main/java/org/jboss/as/patching/runner/DomainPatchCoordinator.java:123 | a new modification starts from the installed state, uncancelled |
| PatchContextModel.Modification.AddInstalledPatch | patching/src/main/java/org/jboss/as/patching/runner/IdentityPhasedPatchRunner.java:141 | the id is appended to the installed patches |
| PatchContextModel.Modification.Cancel | patching/src/main/java/org/jboss/as/patching/runner/DomainPatchCoordinator.java:128 | after `cancel` the modification is cancelled |
| PatchContextModel.Modification.SetTarget | patching/src/main/java/org/jboss/as/patching/runner/IdentityPhasedPatchRunner.java:159 | one target changes and no other target does. The set of layers and add-ons is unchanged. |
| PatchContextModel.LayerRefs | patching/src/main/java/org/jboss/as/patching/runner/IdentityPhasedPatchRunner.java:189-191 | one layer entry per layer name, in order |
| PatchContextModel.AddOnRefs | patching/src/main/java/org/jboss/as/patching/runner/IdentityPhasedPatchRunner.java:193-195 | one add-on entry per add-on name, in order |
| PatchContextModel.PatchContext.constructor | patching/src/main/java/org/jboss/as/patching/runner/IdentityPhasedPatchRunner.java:110 | a new context has only the identity entry, with no definitions, no resulting version and no loaders |
| PatchContextModel.PatchContext.ResolveForElement | patching/src/main/java/org/jboss/as/patching/runner/IdentityPhasedPatchRunner.java:146 | resolving succeeds exactly when the element's target is installed, yielding its entry. Otherwise it fails with `noSuchLayer`. Existing entries are kept. |
| PatchContextModel.PatchContext.SetDefs | patching/src/main/java/org/jboss/as/patching/runner/IdentityPhasedPatchRunner.java:158 | only the named entry's definitions change |
| Coordinator.TempNameInjective | patching/src/main/java/org/jboss/as/patching/runner/DomainPatchCoordinator.java:228 | distinct counters name distinct candidate directories |
| Coordinator.LaterNotInEarlier | patching/src/main/java/org/jboss/as/patching/runner/DomainPatchCoordinator.java:226-229 | a later candidate is none of the earlier ones |
| Coordinator.TakenBound | patching/src/main/java/org/jboss/as/patching/runner/DomainPatchCoordinator.java:226-229 | n taken candidates need n existing paths, so the search ends within one more than the number of paths |
| Coordinator.LeastFreeUnique | patching/src/main/java/org/jboss/as/patching/runner/DomainPatchCoordinator.java:223-229 | the first free candidate is unique: the work directory is determined by what exists |
| Coordinator.FileSystem.DirFor | patching/src/main/java/org/jboss/as/patching/runner/DomainPatchCoordinator.java:228 | a null parent means the system temporary directory |
| Coordinator.FileSystem.FindFreeName | patching/src/main/java/org/jboss/as/patching/runner/DomainPatchCoordinator.java:224-229 | the counter loop stops at the first candidate that does not exist, within one more than the number of paths |
| Coordinator.FileSystem.CreateTempDir | patching/src/main/java/org/jboss/as/patching/runner/DomainPatchCoordinator.java:223-234 | on success the first free candidate is created. When `mkdirs` fails, nothing is created and the error is `cannotCreateDirectory` for that path. |
| Coordinator.FileSystem.AddFile | patching/src/main/java/org/jboss/as/patching/runner/DomainPatchCoordinator.java:74-75 | copying the content creates exactly that file |
| Coordinator.FileSystem.Unzip | patching/src/main/java/org/jboss/as/patching/runner/DomainPatchCoordinator.java:77 | unpacking creates exactly the archive's entries under the directory, each with its content |
| Coordinator.FileSystem.RecursiveDelete | patching/src/main/java/org/jboss/as/patching/runner/DomainPatchCoordinator.java:84 | the directory and everything below it is gone, and nothing else is |
| Coordinator.FileSystem.Parse | patching/src/main/java/org/jboss/as/patching/runner/DomainPatchCoordinator.java:107-116 | a missing file fails with an IOException without being read. An existing file is read once and yields its parse, or an XML failure. |
| Coordinator.PatchCoordinator.constructor | patching/src/main/java/org/jboss/as/patching/runner/DomainPatchCoordinator.java:60-64 | the coordinator keeps its file system, runner and installation |
| Coordinator.PatchCoordinator.PrepareModification | patching/src/main/java/org/jboss/as/patching/runner/DomainPatchCoordinator.java:125 | the prepare phase as the coordinator sees it: a throwing resolver leaves the new state without a patch, a failing phase drops the state, and success leaves a fresh prepared state recording the patch |
| Coordinator.PatchCoordinator.ApplyResolved | patching/src/main/java/org/jboss/as/patching/runner/DomainPatchCoordinator.java:121-131 | the modification is cancelled exactly when the call fails. A resolver that throws leaves the half-built runner state behind, its provider not cleaned up; otherwise the runner holds no state afterwards. An unresolvable patch fails with `failedToResolvePatch`. Success returns the resolved patch's id and records it as installed. |
| Coordinator.PatchCoordinator.Execute | patching/src/main/java/org/jboss/as/patching/runner/DomainPatchCoordinator.java:91-119 | a bundle (`patches.xml`) is refused without reading anything. Otherwise `patch.xml` is read, and success means it parsed and resolved the patch whose id is returned. |
| Coordinator.PatchCoordinator.ExecuteArchive | patching/src/main/java/org/jboss/as/patching/runner/DomainPatchCoordinator.java:73-80 | copying and unpacking touch nothing outside the work directory. A bundle is refused, and success comes from the archive's own `patch.xml`. |
| Coordinator.PatchCoordinator.Apply | patching/src/main/java/org/jboss/as/patching/runner/DomainPatchCoordinator.java:66-89 | every failure is a PatchingException. The work directory is the first free candidate and is deleted on every path, leaving the disk as it was. A bundle or an unreadable archive fails, and success means the archive's `patch.xml` resolved the returned patch. |
| ArtifactTree.ChildIndex | patching/src/main/java/org/jboss/as/patching/validation/ArtifactTreeHandler.java:95 | the child builder for an artifact is found exactly when one exists |
| ArtifactTree.Locate | patching/src/main/java/org/jboss/as/patching/validation/ArtifactTreeHandler.java:61-72 | the builder `getNodeBuilder` reaches for an artifact without creating one: a parentless artifact is at the root when there is one, and any other is the builder of its own artifact |
| ArtifactTree.BuildNode | patching/src/main/java/org/jboss/as/patching/validation/ArtifactTreeHandler.java:115-131 | a built node keeps its builder's artifact and handler, and has one child per child builder |
| ArtifactTree.BuildChildren | patching/src/main/java/org/jboss/as/patching/validation/ArtifactTreeHandler.java:115-131 | the k-th built child is built from the k-th child builder and has its artifact |
| ArtifactTree.Builder.constructor | patching/src/main/java/org/jboss/as/patching/validation/ArtifactTreeHandler.java:42-46 | a new builder has no nodes and no root |
| ArtifactTree.Builder.GetChildNodeBuilder | patching/src/main/java/org/jboss/as/patching/validation/ArtifactTreeHandler.java:94-113 | an existing child builder is returned unchanged. Otherwise a new handler-less builder is appended as the parent's last child. Nothing else changes. |
| ArtifactTree.Builder.GetNodeBuilder | patching/src/main/java/org/jboss/as/patching/validation/ArtifactTreeHandler.java:61-72 | a parentless artifact gets the root, created once. Any other artifact gets the child builder for it under its parent's builder. The result is where `Locate` finds the artifact afterwards. An artifact already located gets its existing builder and nothing changes; otherwise a new handler-less builder is made. Every artifact located before stays where it was. No handler changes. |
| ArtifactTree.Builder.AddHandler | patching/src/main/java/org/jboss/as/patching/validation/ArtifactTreeHandler.java:50-59 | adding a handler fails with IllegalStateException exactly when the artifact's builder already existed and had a handler, and then changes nothing. Otherwise the artifact's builder gets the handler and no other handler changes. |
| ArtifactTree.AddHandlerTwice | patching/src/main/java/org/jboss/as/patching/validation/ArtifactTreeHandler.java:50-59 | a second `addHandler` for the same artifact, with or without a parent, fails with IllegalStateException, and the artifact keeps a handler |
| ArtifactTree.Builder.Build | patching/src/main/java/org/jboss/as/patching/validation/ArtifactTreeHandler.java:74-79 | with no root, building fails with IllegalStateException. Otherwise it yields the tree built from the root. |
| ArtifactTree.NullStateRunsNothing | patching/src/main/java/org/jboss/as/patching/validation/ArtifactTreeHandler.java:179-182 | a null state stops the walk at that node: no handler at or below it runs |
| ArtifactTree.HandlerRunsFirst | patching/src/main/java/org/jboss/as/patching/validation/ArtifactTreeHandler.java:183-185 | a node's handler runs on its state before anything below it |
| ArtifactTree.WalkAllAppend | patching/src/main/java/org/jboss/as/patching/validation/ArtifactTreeHandler.java:196-199 | children are walked in order, each one completely before the next |
| ArtifactTree.RoundsUniform | patching/src/main/java/org/jboss/as/patching/validation/ArtifactTreeHandler.java:187-195 | k rounds over children that make w calls each make k times w calls |
| ArtifactTree.LeavesOnce | patching/src/main/java/org/jboss/as/patching/validation/ArtifactTreeHandler.java:196-199 | a round over leaves with handlers calls each handler exactly once |
| ArtifactTree.RoundsEmpty | patching/src/main/java/org/jboss/as/patching/validation/ArtifactTreeHandler.java:187-195 | a collection node without children makes no calls below it, however large the collection |
| ArtifactTree.CollectionVisits | patching/src/main/java/org/jboss/as/patching/validation/ArtifactTreeHandler.java:187-195 | over leaf children, a collection of size s makes one call for its own handler plus s calls per child |
| ArtifactTree.TreeHandler.constructor | patching/src/main/java/org/jboss/as/patching/validation/ArtifactTreeHandler.java:164-169 | the handler keeps the root and has made no calls |
| ArtifactTree.TreeHandler.Handle | patching/src/main/java/org/jboss/as/patching/validation/ArtifactTreeHandler.java:171-176 | handling appends exactly the calls of the walk from the root, with no parent state |
| ArtifactTree.TreeHandler.HandleNode | patching/src/main/java/org/jboss/as/patching/validation/ArtifactTreeHandler.java:178-201 | `handleNode` appends exactly the node's walk |
| ArtifactTree.TreeHandler.HandleElements | patching/src/main/java/org/jboss/as/patching/validation/ArtifactTreeHandler.java:187-195 | the collection loop appends one round over all children per element, elements in order |
| ArtifactTree.TreeHandler.HandleChildren | patching/src/main/java/org/jboss/as/patching/validation/ArtifactTreeHandler.java:196-199 | the children loop appends each child's walk, in order |
| HistoryValidation.FirstEntry | patching/src/main/java/org/jboss/as/patching/validation/PatchArtifact.java:56-63 | a bare release (BASE, no one-offs) has no first patch. Otherwise the first patch is the newest one-off, or else the cumulative patch. |
| HistoryValidation.ChainShape | patching/src/main/java/org/jboss/as/patching/validation/PatchArtifact.java:65-71 | the chain starts at the first patch. Each next entry is the newest patch recorded in the previous entry's `rollback.xml`. Within the fuel it ends only where no earlier state is recorded. |
| HistoryValidation.ChainFuelStable | patching/src/main/java/org/jboss/as/patching/validation/PatchArtifact.java:67-71 | once the chain has ended, more fuel does not change it |
| HistoryValidation.ErrorHandler.Error | patching/src/main/java/org/jboss/as/patching/validation/PatchArtifact.java:141 | an error is appended to the reported ones |
| HistoryValidation.RollbackXmlState.constructor | patching/src/main/java/org/jboss/as/patching/validation/RollbackXml.java:41-43 | the state names its file |
| HistoryValidation.HistoryDirState.constructor | patching/src/main/java/org/jboss/as/patching/validation/PatchHistoryDir.java:52-54 | a history directory state starts with no `rollback.xml` or `patch.xml` state |
| HistoryValidation.HistoryDirState.GetRollbackXml | patching/src/main/java/org/jboss/as/patching/validation/PatchHistoryDir.java:65-67 | the `rollback.xml` state is the directory's own `rollback.xml`, created on first use and the same object afterwards |
| HistoryValidation.HistoryDirState.GetPatchXml | patching/src/main/java/org/jboss/as/patching/validation/PatchHistoryDir.java:69-71 | a cached `patch.xml` state is returned; otherwise the artifact's state is |
| HistoryValidation.RollbackXmlInitialState | patching/src/main/java/org/jboss/as/patching/validation/RollbackXml.java:46-52 | `rollback.xml` is resolved once per history directory, under that directory |
| HistoryValidation.PatchState.constructor | patching/src/main/java/org/jboss/as/patching/validation/PatchArtifact.java:95-98 | a patch state holds its id and kind, with no history directory or previous patch yet |
| HistoryValidation.PatchState.FromRollback | patching/src/main/java/org/jboss/as/patching/validation/PatchArtifact.java:100-109 | a patch state read from a rollback descriptor names the newest patch of the recorded identity |
| HistoryValidation.PatchState.HasPrevious | patching/src/main/java/org/jboss/as/patching/validation/PatchArtifact.java:132-145 | without a history directory there is a NullPointerException. Otherwise the answer is exactly whether an earlier, non-bare state is recorded, and a load failure is reported once. |
| HistoryValidation.PatchState.GetPrevious | patching/src/main/java/org/jboss/as/patching/validation/PatchArtifact.java:147-161 | a known previous patch is returned without new work. Otherwise it is null when nothing earlier is recorded, or a new state for the recorded newest patch, which is kept. |
| HistoryValidation.PatchCollection.constructor | patching/src/main/java/org/jboss/as/patching/validation/PatchArtifact.java:53 | a new collection is empty and points at its start |
| HistoryValidation.PatchCollection.Next | patching/src/main/java/org/jboss/as/patching/validation/PatchArtifact.java:69 | `next` moves to the following element |
| HistoryValidation.PatchCollection.ResetIndex | patching/src/main/java/org/jboss/as/patching/validation/PatchArtifact.java:72 | `resetIndex` points back at the first element |
| HistoryValidation.ResolveHistoryDir | patching/src/main/java/org/jboss/as/patching/validation/PatchHistoryDir.java:89-100 | null when the collection has no current patch. Otherwise the patch's history directory, created once under the history root at the patch's id. |
| HistoryValidation.AddValidated | patching/src/main/java/org/jboss/as/patching/validation/PatchArtifact.java:75-78 | adding a patch appends it, validates at its position, and resolves its history directory |
| HistoryValidation.HistoryState.constructor | patching/src/main/java/org/jboss/as/patching/validation/PatchingHistory.java:42-44 | a new history state has no patch collection |
| HistoryValidation.HistoryState.SetPatches | patching/src/main/java/org/jboss/as/patching/validation/PatchingHistory.java:46-52 | the collection set is the one read back |
| HistoryValidation.HistoryState.GetPatches | patching/src/main/java/org/jboss/as/patching/validation/PatchingHistory.java:50-52 | the collection last set. It is a getter with no contract; `SetPatches` states that it reads back what was set. |
| HistoryValidation.HistoryState.GetLastAppliedPatch | patching/src/main/java/org/jboss/as/patching/validation/PatchingHistory.java:54-57 | without a collection there is a NullPointerException. Otherwise the index is reset and the first patch, or null, is returned; the contents are unchanged. |
| HistoryValidation.HistoryInitialState | patching/src/main/java/org/jboss/as/patching/validation/PatchingHistory.java:64-67 | every request yields a fresh, empty history state |
| HistoryValidation.ExtendChain | patching/src/main/java/org/jboss/as/patching/validation/PatchArtifact.java:67-71 | one round of the chain loop appends the previous patch, the newest recorded one, and says whether there is one before it |
| HistoryValidation.FollowChain | patching/src/main/java/org/jboss/as/patching/validation/PatchArtifact.java:65-72 | the collection's entries are exactly the chain. Each was validated in turn, and only the last entry's load error is left reported. |
| HistoryValidation.NewCollectionState | patching/src/main/java/org/jboss/as/patching/validation/PatchArtifact.java:53-73 | the collection is registered with the history state and holds the identity's chain (empty for a bare release), with exactly the chain's errors reported |
| HistoryValidation.PatchArtifactInitialState | patching/src/main/java/org/jboss/as/patching/validation/PatchArtifact.java:164-181 | a registered collection is reused. An unreadable identity yields null. Otherwise the chain is built once and registered. |
| HistoryValidation.LastAppliedPatch | patching/src/main/java/org/jboss/as/patching/validation/PatchingHistory.java:69-71 | the last applied patch is the identity's newest patch (none for a bare release). An unreadable identity ends in a NullPointerException. |
| CapabilityRef.UnaryResolver | clustering/common/src/main/java/org/jboss/as/clustering/controller/CapabilityReference.java:55 | a null value names no requirement; a value names the unary requirement it resolves |
| CapabilityRef.BinaryResolver | clustering/common/src/main/java/org/jboss/as/clustering/controller/CapabilityReference.java:83 | a null value names no requirement; a value names the binary requirement of the context's parent part and the value |
| CapabilityRef.UnaryReference | clustering/common/src/main/java/org/jboss/as/clustering/controller/CapabilityReference.java:54-56 | the reference keeps the capability, requirement and dynamic parts, with the unary resolver |
| CapabilityRef.BinaryReference | clustering/common/src/main/java/org/jboss/as/clustering/controller/CapabilityReference.java:82-84 | the reference keeps the capability, requirement and dynamic parts, with the parent resolver given |
| CapabilityRef.AddressReference | clustering/common/src/main/java/org/jboss/as/clustering/controller/CapabilityReference.java:63-65 | the parent part is the current address's value |
| CapabilityRef.AttributeReference | clustering/common/src/main/java/org/jboss/as/clustering/controller/CapabilityReference.java:73-75 | the parent part is the named attribute of the current resource |
| CapabilityRef.RemoveUndoesAdd | clustering/common/src/main/java/org/jboss/as/clustering/controller/CapabilityReference.java:94-113 | removing values deregisters exactly the (requirement, dependent) pairs that adding them registered, in the same order |
| CapabilityRef.AddEventsMembers | clustering/common/src/main/java/org/jboss/as/clustering/controller/CapabilityReference.java:94-102 | a registration is made exactly for the values that name a requirement, each for the dependent at the current address, and no more registrations than values |
| CapabilityRef.Registry.Register | clustering/common/src/main/java/org/jboss/as/clustering/controller/CapabilityReference.java:99 | the registry records one registration |
| CapabilityRef.Registry.Deregister | clustering/common/src/main/java/org/jboss/as/clustering/controller/CapabilityReference.java:110 | the registry records one deregistration |
| CapabilityRef.AddCapabilityRequirements | clustering/common/src/main/java/org/jboss/as/clustering/controller/CapabilityReference.java:94-102 | the loop makes exactly the registrations `AddEvents` describes, in value order |
| CapabilityRef.RemoveCapabilityRequirements | clustering/common/src/main/java/org/jboss/as/clustering/controller/CapabilityReference.java:104-113 | the loop makes exactly the deregistrations `RemoveEvents` describes, in value order |
| CapabilityRef.BaseRequirementName | clustering/common/src/main/java/org/jboss/as/clustering/controller/CapabilityReference.java:121-124 | the requirement's own name. It is a getter with no contract; `RequirementNameShape` states how it starts every requirement name. |
| CapabilityRef.PartsOf | clustering/common/src/main/java/org/jboss/as/clustering/controller/CapabilityReference.java:140-149 | a null or empty array contributes no parts |
| CapabilityRef.RequirementNameShape | clustering/common/src/main/java/org/jboss/as/clustering/controller/CapabilityReference.java:136-151 | the name starts with the base requirement name, and is exactly it when there are no parts. Its length is the parts' lengths plus one `.$` between each two. |
| CapabilityRef.GetRequirementName | clustering/common/src/main/java/org/jboss/as/clustering/controller/CapabilityReference.java:136-151 | the joiner loops build the `.$`-join of the base name, the dynamic parts and the elements |
| CapabilityRef.HashBits | clustering/common/src/main/java/org/jboss/as/clustering/controller/CapabilityReference.java:133 | the string hash is computed modulo 2^32 |
| CapabilityRef.ToInt32 | clustering/common/src/main/java/org/jboss/as/clustering/controller/CapabilityReference.java:133 | the 32-bit pattern read as a Java `int` is in range and congruent to it |
| CapabilityRef.JavaStringHash | clustering/common/src/main/java/org/jboss/as/clustering/controller/CapabilityReference.java:133 | `String.hashCode` is a Java `int` congruent, modulo 2^32, to the polynomial string hash |
| CapabilityRef.HashCode | clustering/common/src/main/java/org/jboss/as/clustering/controller/CapabilityReference.java:131-134 | `hashCode` is a Java `int` |
| CapabilityRef.EqualsAsWritten | clustering/common/src/main/java/org/jboss/as/clustering/controller/CapabilityReference.java:153-158 | `equals` as written fails exactly for other recorder classes, and wherever it returns it agrees with the corrected `equals` |
| CapabilityRef.Equals | clustering/common/src/main/java/org/jboss/as/clustering/controller/CapabilityReference.java:153-158 | the corrected `equals` holds only for a reference with the same hash code |
| CapabilityRef.EqualsAsWrittenThrows | clustering/common/src/main/java/org/jboss/as/clustering/controller/CapabilityReference.java:155-156 | `equals` as written throws ClassCastException for a recorder of another class, where the intended answer is false |
| CapabilityRef.EqualsContract | clustering/common/src/main/java/org/jboss/as/clustering/controller/CapabilityReference.java:131-158 | the corrected `equals` is reflexive, symmetric and transitive on references, and equal references have equal hash codes |
| RebootCommand.CreateCommand | host-controller/src/main/java/org/jboss/as/domain/controller/operations/DomainPatchRebootStepHandler.java:100-117 | the command is the JVM, then the Java options, then `-jar` with the boot jar, `-mp` with the module path, `-jaxpmodule` with the JAXP module, the boot module and the log manager option |
| RebootCommand.LogModuleIgnored | host-controller/src/main/java/org/jboss/as/domain/controller/operations/DomainPatchRebootStepHandler.java:110-111 | the log module argument has no effect on the command |
| RebootCommand.CommandFor | host-controller/src/main/java/org/jboss/as/domain/controller/operations/DomainPatchRebootStepHandler.java:89-98 | the command for an environment starts with its default JVM, has no Java options, and uses `jboss-modules.jar` in the home directory |
| RebootCommand.HostControllerArgs | host-controller/src/main/java/org/jboss/as/domain/controller/operations/DomainPatchRebootStepHandler.java:71-80 | the host controller command is the boot command, the raw command-line arguments, `-mp` and the module path, then the logging option only when the property is set |
| RebootCommand.JoinWithAmp | host-controller/src/main/java/org/jboss/as/domain/controller/operations/DomainPatchRebootStepHandler.java:81-86 | the buffer loop builds the `&`-join of the command |
| RebootCommand.CreateHostControllerCommand | host-controller/src/main/java/org/jboss/as/domain/controller/operations/DomainPatchRebootStepHandler.java:71-87 | `createHCCommand` is the `&`-join of the host controller command |
| RebootCommand.CreatePatchingProcessCommand | host-controller/src/main/java/org/jboss/as/domain/controller/operations/DomainPatchRebootStepHandler.java:54-69 | the patching command is the boot command for the patching module, and then six options. The logging option defaults to `logging.properties` in the domain configuration directory. The last option is `--hc-cmd=` carrying the joined host controller command. |
| RebootCommand.HcCmdValue | patching/src/main/java/org/jboss/as/patching/process/PatchingProcess.java:99-100 | the value is read exactly from an argument starting with `--hc-cmd=`, and is the rest of it |
| RebootCommand.FieldsAvoid | patching/src/main/java/org/jboss/as/patching/process/PatchingProcess.java:101 | no field of a split contains the separator |
| RebootCommand.JavaSplit | patching/src/main/java/org/jboss/as/patching/process/PatchingProcess.java:101 | `split` of a string without the separator is that string alone. No result field contains the separator, and the last one is not empty. |
| RebootCommand.DropTrailingEmpty | patching/src/main/java/org/jboss/as/patching/process/PatchingProcess.java:99-101 | `split` drops exactly the trailing empty fields |
| RebootCommand.SplitJoin | patching/src/main/java/org/jboss/as/patching/process/PatchingProcess.java:99-101 | splitting an `&`-join of non-empty parts free of `&` gives the parts back |
| RebootCommand.HostControllerRoundTrip | patching/src/main/java/org/jboss/as/patching/process/PatchingProcess.java:99-101 | when no part contains `&` or is empty, the patching process recovers exactly the host controller command from `--hc-cmd=` |
| RebootCommand.NewRebootHandler | host-controller/src/main/java/org/jboss/as/domain/controller/operations/DomainPatchRebootStepHandler.java:123-136 | the handler is made exactly when the environment, module path and client are all given. Otherwise it fails with IllegalArgumentException for the first missing one, in that order. |

## Left out

- I/O is a value or a parameter throughout:
  - disk contents are a set of paths with their parse results;
  - uploaded archives carry a `readable` flag and their entries;
  - history descriptors are read from a map;
  - `System.getProperty("logging.configuration")` is a parameter;
  - the Base64-encoded auth key is a parameter.
- XML parsing (`PatchXml.parse`) is not modelled. A file's parse result is given, and a parsed `patch.xml` is a resolver function.
- `createAuthKey` is not modelled, because it depends on randomness.
- `execute` of `DomainPatchRebootStepHandler` is not modelled. It runs the process controller client and adds operation steps.
- `getAbsolutePath` is not modelled: the paths of the environment are taken as already absolute.
- `getRawCommandLineArgs().append` is modelled as appending the raw argument list.
- `MutablePatchingTarget` is not part of this model. Its `apply` and `rollback` are the stand-ins `Common.ApplyPatch` and `Common.RollbackTarget`: a one-off goes in front of the one-offs, a cumulative patch replaces the cumulative id and keeps the one-offs, and a rolled-back cumulative id reverts to BASE.
- `PatchingTasks`, `IdentityPatchContext`, `InstallationModification`, `PatchingTask`, the content loaders and the directory structure are not part of this model. `Metadata` and `PatchContextModel` hold small stand-ins with the shape the runner uses. `prepare` and `execute` of a task are given per item.
- Nulls are not modelled: a null content item, a null element provider and an `IllegalStateException` for an unknown layer type cannot arise in the model.
- `PatchEntry.getCumulativePatchID` (`IdentityPhasedPatchRunner.java:422`) is read from the installation as it was before this modification. `IdentityPatchContext` is not part of this model, and reading the staged entry would see the new cumulative patch's own elements. `FirstCumulativeForwards` shows that a first cumulative patch then forwards cleanly.
- Runner.State.ApplyInNewContext: it states the errors, installed ids, identity, targets and forwarding of `ApplyPatchInContext`, but not the full context relation `ApplyPatchRun`. That relation is stated one level down, by `ApplyPatchInContext`, and `ApplyPatchRunLayers` derives the layers from it.
- Runner.State.PrepareInContext, Runner.State.PrepareTasksStep, Runner.PhasedPatchRunner.PrepareToExecute: the same holds for these callers, which are stated through `ApplyInNewContext`.
- Runner.PrepareTasks: when `prepare` throws, the tasks already added for the entry are not kept, because the phase fails anyway.
- Runner.State.ExecuteAndFinalizeStep: `finalize` and the `IdentityApplyCallback` are reduced to a flag saying whether `finalize` throws.
- Runner.RestoreFromHistory: `checkState(history, history)` and the `assert` on the cumulative id are not modelled, because Java assertions are disabled by default and the check compares a value with itself. `RestoredIsHistory` and `RestoredKeepsLeftovers` state what they would have checked.
- The runner's own `createTempDir` (`IdentityPhasedPatchRunner.java:531-546`) is not modelled separately, because it is identical to the coordinator's. It is modelled as `Coordinator.FileSystem.CreateTempDir`.
- Coordinator.FileSystem.CreateTempDir: the `int` counter is unbounded, so its overflow is not modelled. `mkdirs` creates only the directory itself, not missing ancestors.
- Coordinator.FileSystem.RecursiveDelete: it always succeeds. A failed delete only logs in the source.
- Coordinator.PatchCoordinator.Apply: copy and unzip failures are folded into the archive's `readable` flag. Its success clause about `patch.xml` holds when nothing existed below the fresh work directory beforehand.
- The commented-out bundle code of `DomainPatchCoordinator` (lines 95-103 and 132-169, plus `WrappedMultiInstallPatch`) is not modelled, because it is dead code.
- The `HashMap` order of a builder's children is modelled as insertion order.
- The states and handlers of the artifact tree are names, and `getState` is a function parameter.
- `ArtifactCollectionState` is a stand-in: a list of items with an index.
- HistoryValidation.NewCollectionState: the chain loop of `CollectionState` has no bound on a cyclic history, so it is modelled with an explicit `fuel`. Its contract states the entries, validation positions and errors, but not the per-item history directories or `previous` links.
- HistoryValidation.AddValidated: `validateForState` is reduced to recording the position validated and resolving the current patch's history directory, as `PatchHistoryDir.getInitialState` does during the walk. The other handlers it triggers are outside this model.
- HistoryValidation.PatchState.GetPrevious: the `IOException` catch at PatchArtifact.java:154-156 is unreachable in the model. `hasPrevious` has already loaded the same info successfully.
- HistoryValidation.PatchArtifactInitialState: the identity's `IOException` is only printed in the source. Here it yields null and reports nothing.
- `getRollbackXml()` is called without a context in `PatchArtifact.java:133` and `136`, while `PatchHistoryDir` declares it with one. Here it is the one-argument method.
- `getPatchHistoryDir(id)` is modelled as the directory `id` under a history root.
- CapabilityRef: `addCapabilityRequirements` and `removeCapabilityRequirements` assign the resolver's `Optional<String>` to a `String` (lines 97 and 108). This is modelled as intended: an empty `Optional` names no requirement.
- CapabilityRef: null strings inside the value or part arrays are not modelled.
- CapabilityRef.HashBits: Java strings hash UTF-16 code units, and here a `char` is one unit.
- `getBaseDependentName` and `isDynamicDependent` are not modelled, because they only read the capability definition. The registry is an event log.
- RebootCommand.HostControllerRoundTrip: it holds only when no argument contains `&` and none is empty. A raw argument with `&`, or an empty one, would not survive `split`. The source does not guard against this.

## Findings

| source | as written | input that shows it | evidently intended | confidence | as-written member | corrected member |
|---|---|---|---|---|---|---|
| clustering/common/src/main/java/org/jboss/as/clustering/controller/CapabilityReference.java:155-156 | `equals` tests `instanceof CapabilityReferenceRecorder` but casts to `CapabilityReference` | any `CapabilityReferenceRecorder` that is not a `CapabilityReference` throws `ClassCastException` | such an object is simply unequal (`false`), keeping `equals` total and symmetric | not executed | CapabilityRef.EqualsAsWrittenThrows | CapabilityRef.EqualsContract |
