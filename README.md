# all-o-stasis operational transformation, modelled in Dafny

all-o-stasis stores every climbing-gym object as a JSON document. Each change to a document is
an `Operation`. A `Set` puts or deletes one object member, named by a dotted path. A `Splice`
replaces a range of one array with new elements. The server numbers the stored patches and
rebuilds any revision by replaying them onto a snapshot. A client may send an operation against
an old revision. The server then *rebases* it over the patches committed since: each committed
operation either keeps the client's operation, shifts it, or drops it (`op_ot`).

The operational-transformation library exists in three generations, and this project models all
of them:

- the current crate `crates/otp`: modules `OtpOperation`, `OtpRebase`, `OtpPath` and `OtpTypes`;
- the previous generation `avers-otp`: modules `AversOperation`, `AversPatching` and `AversTypes`;
- the prototype `src/otp`: modules `ProtoTypes` and `ProtoPatching`.

It also models the server code that uses the library (`bin/all-o-stasis`): `AppPatch`,
`AppSnapshot`, `AppObject` and `Storage`.

Four support modules carry no source of their own:

- `Json`: JSON values, and the walk along a list of keys;
- `Dotted`: splitting a path at `.`;
- `Decimal`: the decimal rendering of revision numbers inside keys;
- `Wrappers`: `Option` and `Result`.

## How the model is built

- Code that loops becomes a method, proved equal to a specification function:
  - the key walk in `change_object` and `change_array`;
  - `is_reachable`;
  - the patch loops of `rebase` and `apply_patches`;
  - the save loop of `apply_object_updates`.

  Everything else is a function. Properties are proved about those functions.
- `serde_json::Value` becomes the datatype `Json`. It has no floating point: numbers are integers.
- A Rust `panic!` or `expect` that the source reaches becomes a precondition. This covers the
  `assert_eq!` of the object id in `Snapshot::new_revision`, the panics inside the previous
  generation's `rebase`, and its `expect("ot with splice needs array")`.
- Error messages are dropped. Each error keeps its variant, and a key error also keeps the missing
  key (`Key` in the current library, `KeyError` in the earlier two).
- The previous generation's `is_reachable` (avers-otp/src/patching.rs:354-382) is the same
  function as the current library's, so `op_ot` in both generations uses `OtpPath.Reachable`.
- The server's storage layer (`storage.rs`) combines the current library's `ObjectId` with the
  previous generation's `apply` and `rebase`; `Storage` does the same. The server's own types
  (`types/snapshot.rs`, `types/patch.rs`) use string object ids and the current library's
  `apply_to`; `AppSnapshot` and `AppPatch` do the same.
- Timestamps are opaque integers, or absent before the store fills them in.
- The store is not modelled. The snapshot it finds and the patches it returns are inputs:
  - `Storage.LookupSnapshot` receives the found snapshot, or none;
  - `Storage.ApplyObjectUpdates` receives the base snapshot and the patches committed after it.

The rebase rules are proved one rule at a time: which rule keeps, shifts or drops an operation,
and what a kept or shifted operation then does to the document. The model makes no claim that
two sites converge after exchanging operations.

## Model

| member | source | states |
|---|---|---|
| OtpOperation.NewSet | crates/otp/src/operation.rs:47-52 | `new_set` always builds a `Set` that puts the given value at the given path |
| OtpOperation.TryNewSet | crates/otp/src/operation.rs:54-61 | refused exactly for an empty path with no value (deleting the root), with `InvalidSetOp`; otherwise the `Set` as given |
| OtpOperation.TryNewSplice | crates/otp/src/operation.rs:63-80 | as written: refused exactly when the insert IS an array, so every splice it builds has a non-array insert |
| OtpOperation.TryNewSpliceIntended | crates/otp/src/operation.rs:63-80 | corrected: refused exactly when the insert is not an array, with `ValueIsNotArray` |
| OtpOperation.TryNewSpliceNeverApplies | crates/otp/src/operation.rs:63-80 | every splice the constructor as written accepts fails in `apply_to` with `ValueIsNotArray`, whatever the document |
| OtpOperation.TryNewSpliceIntendedApplies | crates/otp/src/operation.rs:63-80 | a splice the corrected constructor builds fails with `ValueIsNotArray` only when its path leads to a non-array |
| OtpOperation.TryNewSpliceCounterexample | crates/otp/src/operation.rs:63-80 | the constructor as written refuses `("x", 1, 0, [2])`; the corrected one accepts it, and it turns `{"x":[1]}` into `{"x":[1,2]}` |
| OtpOperation.AllOfConcat | crates/otp/src/operation.rs:196-214 | all elements of `a ++ b` have a kind exactly when all of `a` and all of `b` do (the two `all` tests) |
| OtpOperation.AllHaveIdConcat | crates/otp/src/operation.rs:230 | all objects of `a ++ b` have an `id` exactly when those of `a` and of `b` do |
| OtpOperation.CheckTypeConsistency | crates/otp/src/operation.rs:189-238 | accepts exactly a non-empty array with a pure removal, or arrays whose elements together are all numbers, all booleans, all strings, or all objects with an `id`; `NoId` exactly for objects without an id; `Type` otherwise |
| OtpOperation.EmptyArrayRejectsSplice | crates/otp/src/operation.rs:189-238 | an empty target array is always a type error, even for a pure insertion |
| OtpOperation.Edited | crates/otp/src/operation.rs:149-152 | `ins_or_del` puts the value at the key or removes the key; every other member stays as it was |
| OtpOperation.ChangeObject | crates/otp/src/operation.rs:241-264 | the key walk equals `ObjectChanged`: a missing key fails with `Key`, a non-object parent with `Type`, and otherwise the parent's member is edited in place |
| OtpOperation.ChangeArray | crates/otp/src/operation.rs:266-301 | the key walk equals `ArrayChanged`: a missing key fails with `Key`, a non-array target with `ValueIsNotArray`, and otherwise the closure's result is written back |
| OtpOperation.ApplyTo | crates/otp/src/operation.rs:135-184 | `apply_to` equals the specification `Applied` |
| OtpOperation.Applied | crates/otp/src/operation.rs:135-184 | `apply_to` never reports a path error, a rebase failure or `InvalidSetOp` |
| OtpOperation.ParentLast | crates/otp/src/operation.rs:247-250 | the parent keys followed by the last key are the whole path |
| OtpOperation.ResolveNonEmptyStartsAtObject | crates/otp/src/operation.rs:249-255 | a walk of at least one key that succeeds started at an object holding the first key |
| OtpOperation.ResolveLast | crates/otp/src/operation.rs:274-291 | walking the whole path is walking to the parent and then taking the last key |
| OtpOperation.SetRoot | crates/otp/src/operation.rs:142-146 | a root `Set` with a value replaces the whole document; a root `Set` without one fails with `InvalidOperation` |
| OtpOperation.SetChangesLastKey | crates/otp/src/operation.rs:135-264 | a `Set` off the root succeeds exactly when the parent path reaches an object; `Key(k)` exactly when key `k` is missing on the way; `Type` exactly when the parent is not an object; on success the parent is the edited object, and the path then holds the value or is missing |
| OtpOperation.SpliceOutcome | crates/otp/src/operation.rs:155-301 | for every array insert: `Key(k)`, `ValueIsNotArray` and `Index` each exactly in its case; success exactly when the target array is long enough and the types are consistent; on success the target holds `a[..i] + insert + a[i+remove..]`, of length `|a| - remove + |insert|` |
| OtpOperation.SpliceIntoEmptyArrayFails | crates/otp/src/operation.rs:167-193 | no splice into an empty array succeeds |
| OtpOperation.RemoveOnlySucceeds | crates/otp/src/operation.rs:167-193 | a pure removal in range from a non-empty array always succeeds |
| OtpOperation.AppliedElsewhere | crates/otp/src/operation.rs:135-184 | a successful operation changes nothing on a path that is neither above nor below its own |
| OtpOperation.AppliedKeepsRootObject | crates/otp/src/operation.rs:241-301 | an operation off the root succeeds only on an object document and leaves an object |
| OtpPath.FindById | crates/otp/src/path.rs:20-28 | the array step finds an element exactly when some object element has `id` equal to the key, and it returns the first such element |
| OtpPath.IsReachable | crates/otp/src/path.rs:5-34 | the loop equals `Reachable`; the empty path is always reachable, and a non-empty path is never reachable from a primitive |
| OtpPath.ReachableSegsPrefix | crates/otp/src/path.rs:14-31 | every prefix of a reachable key list is reachable |
| OtpPath.ReachableParent | crates/otp/src/path.rs:5-34 | if `p.q` is reachable then so is `p` |
| OtpPath.ResolvedIsReachable | crates/otp/src/path.rs:16-19 | a path that the object walk of `apply_to` reaches is reachable |
| OtpPath.ReachableObjectsOnly | crates/otp/src/path.rs:16-29 | through objects only, a path missing for `apply_to` is unreachable |
| OtpRebase.Shifted | crates/otp/src/rebase.rs:150-157 | the shifted splice has the same path, removal and insert, and its index moves by the base's insert length minus the base's removal |
| OtpRebase.OpOt | crates/otp/src/rebase.rs:83-165 | the full rule table: duplicates dropped; disjoint paths kept; path and kind always kept; only a same-array splice after a splice is rewritten; each base/op pair kept or dropped exactly under its rule (prefix, reachability, ranges) |
| OtpRebase.Rebase | crates/otp/src/rebase.rs:31-58 | the loop equals `Rebased`: apply each patch, then transform the op over it |
| OtpRebase.RebaseRunAppend | crates/otp/src/rebase.rs:31-58 | rebasing over `p ++ q` is rebasing over `p` and then over `q` from where `p` left off |
| OtpRebase.RebaseEmpty | crates/otp/src/rebase.rs:31-58 | with no patches the op comes back unchanged |
| OtpRebase.DroppedThenFails | crates/otp/src/rebase.rs:43-47 | once the op is dropped, any further patch makes the rebase fail |
| OtpRebase.FailedReplayFails | crates/otp/src/rebase.rs:49-53 | if the patches do not apply to the content, the rebase fails |
| OtpRebase.RebaseRunReplays | crates/otp/src/rebase.rs:31-58 | a successful rebase carries exactly the content that replaying the patches produces |
| OtpRebase.OkNoneOnlyAtLast | crates/otp/src/rebase.rs:31-58 | `Ok(None)` comes only from the last patch dropping an op that survived all earlier ones |
| OtpRebase.RebasePreservesPathAndKind | crates/otp/src/rebase.rs:83-165 | a rebased op keeps its path and kind, and a rebased `Set` is unchanged |
| OtpRebase.ShiftedSpliceTargetsSameElements | crates/otp/src/rebase.rs:150-157 | after the base splice, the shifted splice removes the same elements the original would have, and both orders give the same array |
| OtpRebase.SplicesCommute | crates/otp/src/rebase.rs:150-157 | two splices on disjoint ranges, the later one shifted, commute on any sequence |
| OtpRebase.SplicesCommuteResult | crates/otp/src/rebase.rs:150-157 | both orders of two disjoint splices give the sequence with both ranges replaced |
| OtpRebase.KeptSpliceTargetsSameElements | crates/otp/src/rebase.rs:158-159 | a splice entirely before the base splice still removes the same elements after it |
| OtpRebase.TextualPrefixDropsUnrelatedKey | crates/otp/src/rebase.rs:116-124 | the prefix test is on text: a `Set` of `foo` is dropped after a splice of `foobar` |
| OtpTypes.PatchPk | crates/otp/src/types.rs:117-121 | a patch's key reads back as its object's key, `@`, and its revision in decimal that parses back to the revision; for a plain id the object key ends at the key's first `@` |
| OtpTypes.SnapshotPk | crates/otp/src/types.rs:140-144 | a snapshot's key reads back as its object's key, `@`, and its revision in decimal that parses back to the revision; for a plain id the object key ends at the key's first `@` |
| OtpTypes.RevisionPkReads | crates/otp/src/types.rs:117-121 | the revision key of any object and revision reads back as both; for a plain id, cutting at the first `@` recovers the object key |
| OtpTypes.ReadsAsUnique | crates/otp/src/types.rs:117-121 | a key has only one reading whose object key has no `@`: it determines the object key and the revision |
| OtpTypes.PkIsIdAndSuffix | crates/otp/src/types.rs:46-56 | an object key is the id followed by a suffix fixed by the variant |
| OtpTypes.ObjectIdPkInjective | crates/otp/src/types.rs:46-56 | for ids without `/` or `@`, different object ids have different keys |
| OtpTypes.PkHasNoAt | crates/otp/src/types.rs:46-56 | for ids without `/` or `@`, an object key has no `@`, so the revision key can be cut at its `@` |
| OtpTypes.RevisionPkInjective | crates/otp/src/types.rs:117-144 | for such ids, different (object, revision) pairs have different patch and snapshot keys |
| OtpTypes.PkCollisionWithSlash | crates/otp/src/types.rs:46-56 | the id `x/authorization` has the same key as the authorization object of `x` |
| Dotted.JoinSplit | crates/otp/src/operation.rs:246 | splitting at `.` loses nothing: joining the pieces gives the path back |
| Dotted.SplitConcat | crates/otp/src/path.rs:13 | the keys of `p.q` are the keys of `p` followed by the keys of `q` |
| Json.Descend | crates/otp/src/operation.rs:249-255 | the key walk equals `Resolve`, and a missing key is one of the path's keys |
| Json.SpliceSeq | crates/otp/src/operation.rs:177 | `Vec::splice`: elements before the index, then the insert, then the elements after the removed range |
| Decimal.IntRoundTrip | crates/otp/src/types.rs:119 | the decimal rendering of a revision parses back to it |
| Decimal.IntToStringInjective | crates/otp/src/types.rs:119 | different revisions render differently |
| AversOperation.AversNewSet | avers-otp/src/operation.rs:62-67 | the same `Set` as the current library's `new_set` |
| AversOperation.AversTryNewSet | avers-otp/src/operation.rs:69-79 | refused exactly for an empty path with no value |
| AversOperation.AversTryNewSplice | avers-otp/src/operation.rs:81-98 | as written: refused exactly when the insert is an array |
| AversOperation.ConstructorsAgree | avers-otp/src/operation.rs:62-98 | the previous generation's constructors accept and build exactly what the current ones do |
| AversOperation.Contains | avers-otp/src/operation.rs:112-123 | substring search: true exactly when the pattern occurs at some position |
| AversOperation.PathContains | avers-otp/src/operation.rs:112-123 | true exactly when the pattern occurs somewhere in the path (a substring test); so every prefix of the path is contained in it, and nothing longer than the path is |
| AversOperation.PathContainsIsNotPrefix | avers-otp/src/operation.rs:112-123 | `path_contains` is a substring test, not a prefix test: `foo.bar` contains `bar` |
| AversPatching.Spliced | avers-otp/src/patching.rs:73-140 | the closure accepts exactly an in-range splice into a non-empty array with consistently typed elements; `IndexError` and `NoId` each exactly in its case; the result is `Vec::splice` |
| AversPatching.ChangeObject | avers-otp/src/patching.rs:148-172 | the key walk equals the specification `ObjectChanged` |
| AversPatching.ChangeArray | avers-otp/src/patching.rs:174-207 | the key walk equals the specification `ArrayChanged` |
| AversPatching.Apply | avers-otp/src/patching.rs:42-145 | `apply` equals the specification `Applied` |
| AversPatching.Applied | avers-otp/src/patching.rs:42-145 | `apply` never reports a path error |
| AversPatching.AppliedAgrees | avers-otp/src/patching.rs:42-207 | the previous `apply` succeeds exactly when the current one does, with the same document; each error corresponds one to one, a current `Type` error being `InconsistentTypes` for a splice and `Unknown` for a `Set` |
| AversPatching.AppliedRenamed | avers-otp/src/patching.rs:42-207 | the previous `apply` is the current `apply_to` with its errors renamed |
| AversPatching.ObjectChangedAgrees | avers-otp/src/patching.rs:148-172 | the previous `change_object` is the current one with its errors renamed |
| AversPatching.ArrayChangedAgrees | avers-otp/src/patching.rs:174-207 | the previous `change_array` is the current one with its errors renamed |
| AversPatching.ShiftedByOwnRemove | avers-otp/src/patching.rs:322-334 | as written: the shifted index is the op's index plus the base's insert length minus the op's own removal |
| AversPatching.OpOt | avers-otp/src/patching.rs:232-351 | the current rule table in every case, except a same-array splice after a base splice, which is shifted by the op's own removal |
| AversPatching.OpOtAgreesOnEqualRemoves | avers-otp/src/patching.rs:232-351 | when both splices remove as many elements, both generations transform alike |
| AversPatching.Operations | avers-otp/src/patching.rs:396 | the operations of the patches, in order |
| AversPatching.Rebase | avers-otp/src/patching.rs:389-406 | the loop equals `Rebased` |
| AversPatching.AppliedSpliceHasArrayInsert | avers-otp/src/patching.rs:68-71 | a splice that applies has an array insert, so the `expect` in `op_ot` cannot fire after it |
| AversPatching.RebaseDefinedWhenReplayed | avers-otp/src/patching.rs:389-406 | if the patches apply, a `Set` or a pure insertion is rebased without a panic |
| AversPatching.DroppedStaysDropped | avers-otp/src/patching.rs:396-399 | unlike the current library, a dropped op stays dropped and the loop does not fail |
| AversPatching.RebasedKeepsPathAndKind | avers-otp/src/patching.rs:232-351 | a rebased op keeps its path and kind |
| AversPatching.ShiftBaseSpliced | avers-otp/src/patching.rs:763-807 | the base splice of the shift scenario turns `[1,2,3,4,5]` into `[1,10,20,4,5]` |
| AversPatching.ShiftBaseApplied | avers-otp/src/patching.rs:763-807 | applying that base splice to the document gives `{"array":[1,10,20,4,5]}` |
| AversPatching.ShiftByOwnRemoveMissesTarget | avers-otp/src/patching.rs:322-334 | as written, the shifted splice lands on index 4 (the `5`) instead of index 3 (the `4` the op meant); the current rule gives 3 |
| AversTypes.Current | avers-otp/src/types.rs:32-37 | an avers object id is a current-library id with the same text and never a release |
| AversTypes.ObjectIdPk | avers-otp/src/types.rs:40-47 | the key is the current library's key of the same id |
| AversTypes.NewObject | avers-otp/src/types.rs:136-150 | a new object has no id, creation time or deletion flag yet |
| AversTypes.ObjectPk | avers-otp/src/types.rs:162-166 | an object's key is its id |
| AversTypes.NewSnapshot | avers-otp/src/types.rs:192-198 | a new snapshot is the empty object, one revision before the first |
| AversTypes.PatchPk | avers-otp/src/types.rs:178-182 | a patch's key is its object's key, `@`, and its revision |
| AversTypes.SnapshotPk | avers-otp/src/types.rs:201-205 | a snapshot's key is its object's key, `@`, and its revision |
| AversTypes.PatchPkInjective | avers-otp/src/types.rs:178-182 | for plain ids, equal patch keys mean the same object and revision |
| ProtoTypes.Current | src/otp/types.rs:37-44 | a prototype object id is the current-library id of the same variant, id and revision |
| ProtoTypes.ObjectIdPk | src/otp/types.rs:47-57 | the key is the current library's key of the same id |
| ProtoTypes.Lift | src/otp/types.rs:73-84 | a prototype operation is the current operation with the same fields, its insert being an array |
| ProtoTypes.ObjectPk | src/otp/types.rs:101-105 | an object's key is its id |
| ProtoTypes.PatchPk | src/otp/types.rs:116-120 | a patch's key is its object's key, `@`, and its revision |
| ProtoTypes.SnapshotPk | src/otp/types.rs:139-143 | a snapshot's key is its object's key, `@`, and its revision |
| ProtoTypes.SnapshotPkInjective | src/otp/types.rs:139-143 | for plain ids, equal snapshot keys mean the same object and revision |
| ProtoPatching.Applied | src/otp/patching.rs:41-109 | a root `Set` leaves the document unchanged, whatever its value; `apply` never reports `NoId` or `InconsistentTypes` |
| ProtoPatching.ChangeObject | src/otp/patching.rs:117-146 | the key walk equals the specification `ObjectChanged` |
| ProtoPatching.ChangeArray | src/otp/patching.rs:148-180 | the key walk equals the specification `ArrayChanged`, whose outcome `ProtoPatching.SpliceOutcome` states case by case |
| ProtoPatching.Apply | src/otp/patching.rs:41-109 | `apply` equals the specification `Applied` |
| ProtoPatching.AcceptsWhatLaterGenerationsAccept | src/otp/patching.rs:41-109 | off the root, whatever the previous generation applies the prototype applies too, with the same result |
| ProtoPatching.SetAgrees | src/otp/patching.rs:43-146 | off the root, a `Set` succeeds, fails with `KeyError(k)`, or fails with `Unknown` exactly as in the previous generation |
| ProtoPatching.SpliceOutcome | src/otp/patching.rs:59-180 | a missing key is `KeyError` naming it, a non-array target `ValueIsNotArray`, a target shorter than `index + remove` `IndexError`, each exactly in its case; success exactly when the target array is long enough, whatever its elements; on success the target holds `a[..i] + insert + a[i+remove..]` |
| ProtoPatching.SpliceChecksOnlyTheRange | src/otp/patching.rs:59-108 | a splice succeeds exactly when its path leads to an array at least `index + remove` long |
| ProtoPatching.MixedKindsAccepted | src/otp/patching.rs:59-108 | splicing a string into numbers is accepted by the prototype and refused by both later generations |
| AppPatch.NewPatch | bin/all-o-stasis/src/types/patch.rs:62-71 | the first patch is at revision 0, has no timestamp, and sets the whole document to the value, whatever it was |
| AppPatch.NewRevisionPatch | bin/all-o-stasis/src/types/patch.rs:73-86 | a new patch holds exactly the given fields and no timestamp |
| AppSnapshot.NewSnapshot | bin/all-o-stasis/src/types/snapshot.rs:45-52 | a new snapshot is the empty object at revision -1, one before `ZERO_REV_ID` |
| AppSnapshot.NewRevision | bin/all-o-stasis/src/types/snapshot.rs:54-78 | fails exactly when the operation fails, with its error; no new revision exactly when the content stays the same; otherwise the next revision with the changed content, and the patch that records it |
| AppSnapshot.NewRevisionReplays | bin/all-o-stasis/src/types/snapshot.rs:54-87 | the patch `new_revision` records, applied to the old snapshot, gives the new snapshot |
| AppSnapshot.ApplyPatch | bin/all-o-stasis/src/types/snapshot.rs:80-87 | the same object at the patch's revision with the patched content, or the operation's error |
| AppSnapshot.Operations | bin/all-o-stasis/src/types/snapshot.rs:89-96 | the operations of the patches, in order |
| AppSnapshot.PatchesApplied | bin/all-o-stasis/src/types/snapshot.rs:89-96 | the patches applied in order keep the object and end at the last patch's revision |
| AppSnapshot.ApplyPatches | bin/all-o-stasis/src/types/snapshot.rs:89-96 | the loop equals `PatchesApplied` |
| AppSnapshot.PatchesAppliedAppend | bin/all-o-stasis/src/types/snapshot.rs:89-96 | applying `p ++ q` is applying `p` and then `q` |
| AppSnapshot.PatchesAppliedReplays | bin/all-o-stasis/src/types/snapshot.rs:89-96 | applying patches succeeds exactly when replaying their operations does, with the same content |
| AppSnapshot.UpTo | bin/all-o-stasis/src/types/snapshot.rs:115-123 | the filter keeps exactly the patches at or below the revision; a single patch is kept exactly when it is at or below it |
| AppSnapshot.UpToAppend | bin/all-o-stasis/src/types/snapshot.rs:115-123 | the filter keeps order and repetitions: filtering `ps + qs` is filtering `ps`, then `qs` |
| AppSnapshot.UpToAscendingIsPrefix | bin/all-o-stasis/src/types/snapshot.rs:115-123 | on patches in ascending order, the filter keeps a prefix |
| AppSnapshot.UpToNoneBelow | bin/all-o-stasis/src/types/snapshot.rs:115-123 | when every patch lies above the revision, the filter keeps none |
| AppSnapshot.Lookup | bin/all-o-stasis/src/types/snapshot.rs:104-124 | a lookup keeps the object; it never lies past the requested revision unless no patch was applied, in which case it is the found snapshot |
| AppObject.NewDoc | bin/all-o-stasis/src/types/object.rs:48-56 | a new document is created by the root object, with no id, creation time or deletion flag |
| AppObject.FromDoc | bin/all-o-stasis/src/types/object.rs:101-113 | converts exactly when the id and the creation time are present, else a `Query` error; an absent `deleted` reads as false |
| AppObject.NewDocConvertsOnceStored | bin/all-o-stasis/src/types/object.rs:48-113 | a new document does not convert until the store gives it an id and a creation time |
| Storage.BaseId | bin/all-o-stasis/src/storage.rs:13-19 | the base id is the id inside any object id, and it starts that object's key |
| Storage.InitialSnapshot | bin/all-o-stasis/src/storage.rs:82-137 | the snapshot used when none is stored: the empty object one before the first revision |
| Storage.ApplyPatchToSnapshot | bin/all-o-stasis/src/storage.rs:170-176 | the previous generation's `apply`: the same object at the patch's revision, or a `Patching` error |
| Storage.Operations | bin/all-o-stasis/src/storage.rs:178-188 | the operations of the patches, in order |
| Storage.PatchesApplied | bin/all-o-stasis/src/storage.rs:178-188 | the patches applied in order keep the object and end at the last patch's revision |
| Storage.ApplyPatches | bin/all-o-stasis/src/storage.rs:178-188 | the loop equals `PatchesApplied` |
| Storage.PatchesAppliedReplays | bin/all-o-stasis/src/storage.rs:178-188 | applying patches succeeds exactly when replaying their operations does, with the same content |
| Storage.UpTo | bin/all-o-stasis/src/storage.rs:129-136 | the filter keeps exactly the patches at or below the revision; a single patch is kept exactly when it is at or below it |
| Storage.UpToAppend | bin/all-o-stasis/src/storage.rs:129-136 | the filter keeps order and repetitions: filtering `ps + qs` is filtering `ps`, then `qs` |
| Storage.UpToAscendingIsPrefix | bin/all-o-stasis/src/storage.rs:129-136 | on patches in ascending order, the filter keeps a prefix |
| Storage.UpToNoneBelow | bin/all-o-stasis/src/storage.rs:129-136 | when every patch lies above the revision, the filter keeps none |
| Storage.LookupSnapshot | bin/all-o-stasis/src/storage.rs:82-137 | without a stored snapshot it starts from the initial one; it never lies past the requested revision unless no patch was applied |
| Storage.SaveOperation | bin/all-o-stasis/src/storage.rs:271-320 | nothing is saved exactly when the rebase drops the op or the op leaves the latest content as it is; an error exactly when the rebased op fails; otherwise the rebased op is stored at the next revision, with the changed content |
| Storage.SavedPatchReplays | bin/all-o-stasis/src/storage.rs:271-320 | the stored patch, applied to the latest snapshot, gives the stored snapshot |
| Storage.Accepted | bin/all-o-stasis/src/storage.rs:208-230 | a batch stores at most one patch per operation |
| Storage.AcceptedStep | bin/all-o-stasis/src/storage.rs:208-230 | one more operation adds what saving it stores |
| Storage.AcceptedShareOneRevision | bin/all-o-stasis/src/storage.rs:208-230 | every patch of one batch has revision `latest + 1`, the object and the author |
| Storage.SaveAll | bin/all-o-stasis/src/storage.rs:208-230 | the loop stores exactly `Accepted`, skipping drops and errors |
| Storage.ApplyObjectUpdates | bin/all-o-stasis/src/storage.rs:190-268 | fails exactly when the previous patches do not apply; otherwise it answers with the previous patches and the accepted patches, and the processed count equals the number of accepted patches |
| Storage.RebaseDefinedAfterUpdate | bin/all-o-stasis/src/storage.rs:282 | once the previous patches apply, a `Set` or a pure insertion is rebased without a panic |

## Left out

- Convergence is out of scope. No lemma claims that two sites converge after transforming each
  other's operations. Only the behaviour of each rule is proved.
- The prototype's `op_ot` and `rebase` exist only as commented-out code, and are not modelled.
- Serde (de)serialisation is left out, as is the `Path` conversion (`impl Into<Path>`). A path is
  the string it holds.
- JSON numbers are integers here. Floating point is not modelled.
- Revision ids are unbounded integers, not `i64`. No arithmetic on them could overflow in the
  source: only `+ 1` on a stored revision, and a store does not hold 2^63 patches.
- Splice indices and removal counts are unbounded naturals, not `usize`. Where the source adds
  `index + remove` (the range checks in all three generations' `apply` and in `op_ot`), values
  near `usize::MAX` overflow and panic in a debug build, or wrap and then panic in `splice` in a
  release build. The model returns the range error (`Index`, `IndexError`) or applies the rule
  instead; that overflow panic is not modelled.
- The prototype's splice insert follows its type declaration (src/otp/types.rs:82), a list of
  values. `apply` (src/otp/patching.rs:102) reads it through `as_array().expect("is vec")`; the
  panic of that `expect` on a non-array insert has no counterpart in the model.
- `OtError::Path` cannot arise: `split('.')` always yields at least one piece, and
  `Dotted.Split` states this.
- The Firestore store is left out: queries, transactions, document writes and timestamps.
  - Found snapshots and patches are parameters.
  - `lookup_snapshot` also stores the initial snapshot when none exists. That write is not
    modelled.
  - `save_operation` writes the snapshot and the patch. The model returns them instead.
- `AppPatch.AppError` lists only the variants this model produces; the server's error type has
  more.
- The websocket feed, the HTTP routes, passport and authentication, and logging are not modelled.
- Storage.SaveOperation: requires that the previous generation's rebase does not panic, because
  the source panics there. `Storage.RebaseDefinedAfterUpdate` gives the conditions under which it
  does not.
- AversPatching.Rebase: requires that no patch fails and no same-array shift underflows. The
  source panics in both cases.
- AppSnapshot.NewRevision: requires the object id to be the snapshot's, which the source asserts.

## Findings

| source | as written | input that shows it | evidently intended | confidence | as-written member | corrected member |
|---|---|---|---|---|---|---|
| crates/otp/src/operation.rs:70 (and avers-otp/src/operation.rs:88) | `try_new_splice` returns `ValueIsNotArray` when the insert is an array, and accepts every non-array insert | `try_new_splice("x", 1, 0, [2])` is refused; every splice it does accept then fails in `apply_to` with `ValueIsNotArray` | refuse exactly the non-array inserts; the intended splice turns `{"x":[1]}` into `{"x":[1,2]}` | high; not executed | OtpOperation.TryNewSpliceCounterexample | OtpOperation.TryNewSpliceIntendedApplies |
| avers-otp/src/patching.rs:330 | a splice after a base splice on the same array is shifted by `base insert length - op remove` | on `[1,2,3,4,5]`, base `Splice(1, 2, [10,20])` and op `Splice(3, 1, [30,40])`: the shifted op gets index 4 and removes the `5`, where the op meant the `4` | shift by `base insert length - base remove` (the current library's rule at crates/otp/src/rebase.rs:154) | high; not executed | AversPatching.ShiftByOwnRemoveMissesTarget | OtpRebase.ShiftedSpliceTargetsSameElements |
