/**
 * The revision bookkeeping of the server's storage layer: replaying patches onto a
 * snapshot, deciding what saving one client operation produces, and numbering a batch
 * of client operations. It works with the previous generation's `apply` and `rebase`.
 * The store's queries and inserts are inputs and outputs here: the snapshot and patches
 * a query finds are parameters, and what `save_operation` would insert is returned.
 */
module Storage {
  import opened Wrappers
  import opened Json
  import opened OtpOperation
  import OtpTypes
  import AversPatching
  import AppPatch

  /** `base_id`: the id every variant wraps. */
  function BaseId(o: OtpTypes.ObjectId): (id: string)
    ensures id == o.id
    ensures |id| <= |OtpTypes.ObjectIdPk(o)| && OtpTypes.ObjectIdPk(o)[..|id|] == id
  {
    OtpTypes.PkIsIdAndSuffix(o);
    match o
    case Base(id) => id
    case Release(id, _) => id
    case Authorization(id) => id
  }

  /** The library's `Snapshot` as the storage layer uses it. */
  datatype Snapshot = Snapshot(objectId: OtpTypes.ObjectId, revisionId: int, content: Json)

  /** The library's `Patch` as the storage layer builds it, with the store's timestamp. */
  datatype Patch = Patch(objectId: OtpTypes.ObjectId, revisionId: int, authorId: string, createdAt: Option<int>,
                         operation: Operation)

  /** The snapshot `lookup_snapshot` starts from when the store has none: `{}` before the first revision. */
  function InitialSnapshot(objectId: OtpTypes.ObjectId): (s: Snapshot)
    ensures s.objectId == objectId && s.content == EmptyObject && s.revisionId + 1 == OtpTypes.ZeroRevId
  {
    Snapshot(objectId, -1, EmptyObject)
  }

  /** `apply_patch_to_snapshot`: same object, the patch's revision, the patched content. */
  function ApplyPatchToSnapshot(s: Snapshot, p: Patch): (r: Result<Snapshot, AppPatch.AppError>)
    ensures r.Ok? <==> AversPatching.Applied(p.operation, s.content).Ok?
    ensures r.Ok? ==> r.value == Snapshot(s.objectId, p.revisionId, AversPatching.Applied(p.operation, s.content).value)
    ensures r.Err? ==> r.error == AppPatch.Patching(AversPatching.Applied(p.operation, s.content).error)
  {
    match AversPatching.Applied(p.operation, s.content)
    case Err(e) => Err(AppPatch.Patching(e))
    case Ok(content) => Ok(Snapshot(s.objectId, p.revisionId, content))
  }

  /** The operations of a list of the storage layer's patches, in order. */
  function Operations(ps: seq<Patch>): (ops: seq<Operation>)
    ensures |ops| == |ps|
    ensures forall i :: 0 <= i < |ps| ==> ops[i] == ps[i].operation
  {
    seq(|ps|, i requires 0 <= i < |ps| => ps[i].operation)
  }

  /**
   * The patches applied one after another with the previous generation's `apply`
   * (`AppSnapshot.PatchesApplied` uses the current library's), stopping at the first
   * failure. The result keeps the object id and, unless the list is empty, carries the
   * last patch's revision.
   */
  function PatchesApplied(s: Snapshot, ps: seq<Patch>): (r: Result<Snapshot, AppPatch.AppError>)
    ensures ps == [] ==> r == Ok(s)
    ensures r.Ok? ==> r.value.objectId == s.objectId
    ensures r.Ok? && ps != [] ==> r.value.revisionId == ps[|ps| - 1].revisionId
    decreases |ps|
  {
    if ps == [] then Ok(s)
    else match ApplyPatchToSnapshot(s, ps[0])
      case Err(e) => Err(e)
      case Ok(next) => PatchesApplied(next, ps[1..])
  }

  /** `apply_patches`. */
  method ApplyPatches(snapshot: Snapshot, patches: seq<Patch>) returns (r: Result<Snapshot, AppPatch.AppError>)
    ensures r == PatchesApplied(snapshot, patches)
  {
    var s := snapshot;
    var i := 0;
    while i < |patches|
      invariant 0 <= i <= |patches|
      invariant PatchesApplied(s, patches[i..]) == PatchesApplied(snapshot, patches)
    {
      assert patches[i..][0] == patches[i] && patches[i..][1..] == patches[i + 1..];
      var next := ApplyPatchToSnapshot(s, patches[i]);
      if next.Err? {
        return Err(next.error);
      }
      s := next.value;
      i := i + 1;
    }
    assert patches[i..] == [];
    return Ok(s);
  }

  /** The content after the patches is the content after replaying their operations. */
  lemma {:induction false} PatchesAppliedReplays(s: Snapshot, ps: seq<Patch>)
    ensures PatchesApplied(s, ps).Ok? <==> AversPatching.Replayed(s.content, Operations(ps)).Ok?
    ensures PatchesApplied(s, ps).Ok? ==> PatchesApplied(s, ps).value.content == AversPatching.Replayed(s.content, Operations(ps)).value
    decreases |ps|
  {
    if ps != [] {
      assert Operations(ps)[0] == ps[0].operation && Operations(ps)[1..] == Operations(ps[1..]);
      if ApplyPatchToSnapshot(s, ps[0]).Ok? {
        PatchesAppliedReplays(ApplyPatchToSnapshot(s, ps[0]).value, ps[1..]);
      }
    }
  }

  /** The filter in `lookup_snapshot`, on the storage layer's patches: revision at most `rev`, in their order. */
  function UpTo(ps: seq<Patch>, rev: int): (r: seq<Patch>)
    ensures |r| <= |ps|
    ensures forall i :: 0 <= i < |r| ==> r[i] in ps && r[i].revisionId <= rev
    ensures forall p :: p in ps && p.revisionId <= rev ==> p in r
    ensures |ps| == 1 ==> (r == ps <==> ps[0].revisionId <= rev) && (r == [] <==> rev < ps[0].revisionId)
    decreases |ps|
  {
    if ps == [] then []
    else if ps[0].revisionId <= rev then [ps[0]] + UpTo(ps[1..], rev)
    else UpTo(ps[1..], rev)
  }

  /** The filter keeps order and repetitions: filtering `ps + qs` is filtering each part. */
  lemma {:induction false} UpToAppend(ps: seq<Patch>, qs: seq<Patch>, rev: int)
    ensures UpTo(ps + qs, rev) == UpTo(ps, rev) + UpTo(qs, rev)
    decreases |ps|
  {
    if ps == [] {
      assert ps + qs == qs;
    } else {
      assert (ps + qs)[0] == ps[0] && (ps + qs)[1..] == ps[1..] + qs;
      UpToAppend(ps[1..], qs, rev);
    }
  }

  /** Patches in ascending revision order, as the query returns them. */
  predicate Ascending(ps: seq<Patch>) {
    forall i, j :: 0 <= i < j < |ps| ==> ps[i].revisionId <= ps[j].revisionId
  }

  /** On patches in ascending order the filter keeps a prefix: everything up to `rev`. */
  lemma {:induction false} UpToAscendingIsPrefix(ps: seq<Patch>, rev: int)
    requires Ascending(ps)
    ensures exists k :: 0 <= k <= |ps| && UpTo(ps, rev) == ps[..k]
    decreases |ps|
  {
    if ps == [] {
      assert UpTo(ps, rev) == ps[..0];
    } else if ps[0].revisionId <= rev {
      UpToAscendingIsPrefix(ps[1..], rev);
      var k :| 0 <= k <= |ps[1..]| && UpTo(ps[1..], rev) == ps[1..][..k];
      assert [ps[0]] + ps[1..][..k] == ps[..k + 1];
    } else {
      assert UpTo(ps[1..], rev) == [] by {
        UpToNoneBelow(ps[1..], rev, ps[0].revisionId);
      }
      assert UpTo(ps, rev) == ps[..0];
    }
  }

  lemma {:induction false} UpToNoneBelow(ps: seq<Patch>, rev: int, floor: int)
    requires floor > rev
    requires forall i :: 0 <= i < |ps| ==> ps[i].revisionId >= floor
    ensures UpTo(ps, rev) == []
    decreases |ps|
  {
    if ps != [] {
      UpToNoneBelow(ps[1..], rev, floor);
    }
  }

  /**
   * The replay part of `lookup_snapshot`: start from the snapshot the query found (or
   * the initial one) and apply the later patches up to `rev`. The result never lies
   * past `rev` unless no patch was applied.
   */
  function LookupSnapshot(found: Option<Snapshot>, objectId: OtpTypes.ObjectId, patchesAfter: seq<Patch>, rev: int): (r: Result<Snapshot, AppPatch.AppError>)
    ensures found.None? && r.Ok? ==> r.value.objectId == objectId
    ensures found.Some? && r.Ok? ==> r.value.objectId == found.value.objectId
    ensures r.Ok? && UpTo(patchesAfter, rev) != [] ==> r.value.revisionId <= rev
    ensures UpTo(patchesAfter, rev) == [] ==> r == Ok(if found.Some? then found.value else InitialSnapshot(objectId))
  {
    var latest := if found.Some? then found.value else InitialSnapshot(objectId);
    PatchesApplied(latest, UpTo(patchesAfter, rev))
  }

  // ---------------------------------------------------------------------------
  // save_operation and apply_object_updates

  /**
   * The decision of `save_operation`: rebase the op over the previous patches from the
   * base content; nothing when it is dropped or when it leaves the latest content as it
   * is; otherwise the snapshot and the patch it stores, both at the next revision. The
   * rebase must not panic.
   */
  function SaveOperation(objectId: OtpTypes.ObjectId, authorId: string, baseContent: Json, latest: Snapshot,
                         previous: seq<Patch>, op: Operation): (r: Result<Option<(Snapshot, Patch)>, AppPatch.AppError>)
    requires AversPatching.RebaseDefined(baseContent, Some(op), Operations(previous))
    ensures var rebased := AversPatching.Rebased(baseContent, Some(op), Operations(previous));
            r == Ok(None) <==> rebased.None? || AversPatching.Applied(rebased.value, latest.content) == Ok(latest.content)
    ensures var rebased := AversPatching.Rebased(baseContent, Some(op), Operations(previous));
            r.Err? <==> rebased.Some? && AversPatching.Applied(rebased.value, latest.content).Err?
    ensures r.Err? ==> r.error.Patching?
    ensures r.Ok? && r.value.Some? ==>
              var (s, p) := r.value.value;
              && AversPatching.Rebased(baseContent, Some(op), Operations(previous)) == Some(p.operation)
              && p.objectId == objectId && p.authorId == authorId && p.createdAt.None?
              && s.objectId == latest.objectId
              && s.revisionId == p.revisionId == latest.revisionId + 1
              && AversPatching.Applied(p.operation, latest.content) == Ok(s.content)
              && s.content != latest.content
  {
    match AversPatching.Rebased(baseContent, Some(op), Operations(previous))
    case None => Ok(None)
    case Some(newOp) =>
      match AversPatching.Applied(newOp, latest.content)
      case Err(e) => Err(AppPatch.Patching(e))
      case Ok(newContent) =>
        if newContent == latest.content then Ok(None)
        else
          var revId := latest.revisionId + 1;
          Ok(Some((Snapshot(latest.objectId, revId, newContent), Patch(objectId, revId, authorId, None, newOp))))
  }

  /** What saving stores is consistent: the stored patch replays onto the latest snapshot as the stored snapshot. */
  lemma SavedPatchReplays(objectId: OtpTypes.ObjectId, authorId: string, baseContent: Json, latest: Snapshot,
                          previous: seq<Patch>, op: Operation)
    requires AversPatching.RebaseDefined(baseContent, Some(op), Operations(previous))
    requires SaveOperation(objectId, authorId, baseContent, latest, previous, op).Ok?
    requires SaveOperation(objectId, authorId, baseContent, latest, previous, op).value.Some?
    ensures var (s, p) := SaveOperation(objectId, authorId, baseContent, latest, previous, op).value.value;
            PatchesApplied(latest, [p]) == Ok(s)
  {
    var (s, p) := SaveOperation(objectId, authorId, baseContent, latest, previous, op).value.value;
    assert [p][1..] == [];
  }

  /** Every op of a batch can be rebased without a panic. */
  predicate BatchDefined(baseContent: Json, previous: seq<Patch>, ops: seq<Operation>) {
    forall i :: 0 <= i < |ops| ==> AversPatching.RebaseDefined(baseContent, Some(ops[i]), Operations(previous))
  }

  /** The patch a call of `save_operation` stores, if any: the loop of `apply_object_updates` skips drops and errors. */
  function Stored(saved: Result<Option<(Snapshot, Patch)>, AppPatch.AppError>): seq<Patch> {
    match saved
    case Ok(Some((_, p))) => [p]
    case _ => []
  }

  /** The patches a batch results in: each op saved against the same latest snapshot, drops and errors skipped. */
  function Accepted(objectId: OtpTypes.ObjectId, authorId: string, baseContent: Json, latest: Snapshot,
                    previous: seq<Patch>, ops: seq<Operation>): (r: seq<Patch>)
    requires BatchDefined(baseContent, previous, ops)
    ensures |r| <= |ops|
    decreases |ops|
  {
    if ops == [] then []
    else
      var init := ops[..|ops| - 1];
      assert BatchDefined(baseContent, previous, init) by {
        forall i | 0 <= i < |init| ensures AversPatching.RebaseDefined(baseContent, Some(init[i]), Operations(previous)) {
          assert init[i] == ops[i];
        }
      }
      Accepted(objectId, authorId, baseContent, latest, previous, init)
      + Stored(SaveOperation(objectId, authorId, baseContent, latest, previous, ops[|ops| - 1]))
  }

  /** One more op of a batch adds what saving it stores. */
  lemma AcceptedStep(objectId: OtpTypes.ObjectId, authorId: string, baseContent: Json, latest: Snapshot,
                     previous: seq<Patch>, ops: seq<Operation>, i: nat)
    requires i < |ops| && BatchDefined(baseContent, previous, ops)
    ensures BatchDefined(baseContent, previous, ops[..i]) && BatchDefined(baseContent, previous, ops[..i + 1])
    ensures Accepted(objectId, authorId, baseContent, latest, previous, ops[..i + 1])
            == Accepted(objectId, authorId, baseContent, latest, previous, ops[..i])
               + Stored(SaveOperation(objectId, authorId, baseContent, latest, previous, ops[i]))
  {
    assert ops[..i + 1][..i] == ops[..i] && ops[..i + 1][i] == ops[i];
    assert forall k :: 0 <= k <= i ==> ops[..i + 1][k] == ops[k];
  }

  /** Every patch of one batch is numbered `latest + 1`: the ops of a batch do not see each other. */
  lemma {:induction false} AcceptedShareOneRevision(objectId: OtpTypes.ObjectId, authorId: string, baseContent: Json,
                                                    latest: Snapshot, previous: seq<Patch>, ops: seq<Operation>)
    requires BatchDefined(baseContent, previous, ops)
    ensures forall p :: p in Accepted(objectId, authorId, baseContent, latest, previous, ops) ==>
              p.revisionId == latest.revisionId + 1 && p.objectId == objectId && p.authorId == authorId
    decreases |ops|
  {
    if ops != [] {
      var init := ops[..|ops| - 1];
      assert BatchDefined(baseContent, previous, init) by {
        forall i | 0 <= i < |init| ensures AversPatching.RebaseDefined(baseContent, Some(init[i]), Operations(previous)) {
          assert init[i] == ops[i];
        }
      }
      AcceptedShareOneRevision(objectId, authorId, baseContent, latest, previous, init);
    }
  }

  /** The response of `apply_object_updates`: previous patches, the number of resulting patches, and those patches. */
  datatype PatchObjectResponse = PatchObjectResponse(previousPatches: seq<Patch>, numProcessedOperations: nat,
                                                     resultingPatches: seq<Patch>)

  /** The loop of `apply_object_updates`: save each op against the latest snapshot, keeping what is stored. */
  method SaveAll(objectId: OtpTypes.ObjectId, authorId: string, baseContent: Json, latest: Snapshot,
                 previous: seq<Patch>, operations: seq<Operation>) returns (patches: seq<Patch>)
    requires BatchDefined(baseContent, previous, operations)
    ensures patches == Accepted(objectId, authorId, baseContent, latest, previous, operations)
  {
    patches := [];
    var i := 0;
    while i < |operations|
      invariant 0 <= i <= |operations|
      invariant BatchDefined(baseContent, previous, operations[..i])
      invariant patches == Accepted(objectId, authorId, baseContent, latest, previous, operations[..i])
    {
      AcceptedStep(objectId, authorId, baseContent, latest, previous, operations, i);
      var saved := SaveOperation(objectId, authorId, baseContent, latest, previous, operations[i]);
      patches := patches + Stored(saved);
      i := i + 1;
    }
    assert operations[..i] == operations;
  }

  /**
   * `apply_object_updates`, from the snapshot the client's revision resolves to and the
   * patches committed after it: bring the snapshot up to date, then save each op against
   * it, keeping the patches that result.
   */
  method ApplyObjectUpdates(objectId: OtpTypes.ObjectId, authorId: string, baseSnapshot: Snapshot,
                            previousPatches: seq<Patch>, operations: seq<Operation>)
    returns (r: Result<PatchObjectResponse, AppPatch.AppError>)
    requires PatchesApplied(baseSnapshot, previousPatches).Ok? ==>
               BatchDefined(baseSnapshot.content, previousPatches, operations)
    ensures r.Err? <==> PatchesApplied(baseSnapshot, previousPatches).Err?
    ensures r.Ok? ==>
              var latest := PatchesApplied(baseSnapshot, previousPatches).value;
              && r.value.previousPatches == previousPatches
              && r.value.resultingPatches
                 == Accepted(objectId, authorId, baseSnapshot.content, latest, previousPatches, operations)
              && r.value.numProcessedOperations == |r.value.resultingPatches| <= |operations|
  {
    var latestSnapshot := ApplyPatches(baseSnapshot, previousPatches);
    if latestSnapshot.Err? {
      return Err(latestSnapshot.error);
    }
    var patches := SaveAll(objectId, authorId, baseSnapshot.content, latestSnapshot.value, previousPatches, operations);
    return Ok(PatchObjectResponse(previousPatches, |patches|, patches));
  }

  /**
   * The rebase inside `save_operation` can only panic in the splice shift: once the
   * previous patches bring the base snapshot up to date, a `Set` or a pure insertion
   * is always rebased.
   */
  lemma RebaseDefinedAfterUpdate(baseSnapshot: Snapshot, previousPatches: seq<Patch>, op: Operation)
    requires PatchesApplied(baseSnapshot, previousPatches).Ok?
    requires op.Set? || op.remove == 0
    ensures AversPatching.RebaseDefined(baseSnapshot.content, Some(op), Operations(previousPatches))
  {
    PatchesAppliedReplays(baseSnapshot, previousPatches);
    AversPatching.RebaseDefinedWhenReplayed(baseSnapshot.content, Some(op), Operations(previousPatches));
  }
}
