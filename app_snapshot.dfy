/**
 * The server's `Snapshot`: a document at a revision. A snapshot moves to the next
 * revision only when an operation changes its content, and stored patches are replayed
 * onto a snapshot in order.
 */
module AppSnapshot {
  import opened Wrappers
  import opened Json
  import opened OtpOperation
  import opened OtpRebase
  import OtpTypes
  import opened AppPatch

  /** `Snapshot`. */
  datatype Snapshot = Snapshot(objectId: string, revisionId: int, content: Json)

  /** `Snapshot::new`: the empty object, one revision before the first. */
  function NewSnapshot(objectId: string): (s: Snapshot)
    ensures s.objectId == objectId && s.content == EmptyObject
    ensures s.revisionId == -1 && s.revisionId + 1 == OtpTypes.ZeroRevId
  {
    Snapshot(objectId, -1, EmptyObject)
  }

  /**
   * `Snapshot::new_revision`: apply `operation`; no new revision when the content stays
   * the same, otherwise the next revision and the patch that records it. The object id
   * must be the snapshot's (the source asserts it).
   */
  function NewRevision(s: Snapshot, objectId: string, authorId: string, operation: Operation): (r: Result<Option<(Snapshot, Patch)>, OtError>)
    requires objectId == s.objectId
    ensures r.Err? <==> Applied(operation, s.content).Err?
    ensures r.Err? ==> r.error == Applied(operation, s.content).error
    ensures r == Ok(None) <==> Applied(operation, s.content) == Ok(s.content)
    ensures r.Ok? && r.value.Some? ==>
              var (t, p) := r.value.value;
              && t.objectId == s.objectId && t.revisionId == s.revisionId + 1
              && Ok(t.content) == Applied(operation, s.content) && t.content != s.content
              && p == NewRevisionPatch(t.revisionId, objectId, authorId, operation)
  {
    match Applied(operation, s.content)
    case Err(e) => Err(e)
    case Ok(content) =>
      if content == s.content then Ok(None)
      else
        var revisionId := s.revisionId + 1;
        Ok(Some((Snapshot(objectId, revisionId, content), NewRevisionPatch(revisionId, objectId, authorId, operation))))
  }

  /** `Snapshot::apply_patch`: same object, the patch's revision, the patched content. */
  function ApplyPatch(s: Snapshot, p: Patch): (r: Result<Snapshot, AppError>)
    ensures r.Ok? <==> Applied(p.operation, s.content).Ok?
    ensures r.Ok? ==> r.value == Snapshot(s.objectId, p.revisionId, Applied(p.operation, s.content).value)
    ensures r.Err? ==> r.error == Ot(Applied(p.operation, s.content).error)
  {
    match Applied(p.operation, s.content)
    case Err(e) => Err(Ot(e))
    case Ok(content) => Ok(Snapshot(s.objectId, p.revisionId, content))
  }

  /** The operations of a list of patches, in order. */
  function Operations(ps: seq<Patch>): (ops: seq<Operation>)
    ensures |ops| == |ps|
    ensures forall i :: 0 <= i < |ps| ==> ops[i] == ps[i].operation
  {
    seq(|ps|, i requires 0 <= i < |ps| => ps[i].operation)
  }

  /**
   * The patches applied one after another with the current library's `apply_to`
   * (`Storage.PatchesApplied` uses the previous generation's), stopping at the first
   * failure. The result
   * keeps the object id and, unless the list is empty, carries the last patch's revision.
   */
  function PatchesApplied(s: Snapshot, ps: seq<Patch>): (r: Result<Snapshot, AppError>)
    ensures ps == [] ==> r == Ok(s)
    ensures r.Ok? ==> r.value.objectId == s.objectId
    ensures r.Ok? && ps != [] ==> r.value.revisionId == ps[|ps| - 1].revisionId
    decreases |ps|
  {
    if ps == [] then Ok(s)
    else match ApplyPatch(s, ps[0])
      case Err(e) => Err(e)
      case Ok(next) => PatchesApplied(next, ps[1..])
  }

  /** `Snapshot::apply_patches`. */
  method ApplyPatches(s: Snapshot, ps: seq<Patch>) returns (r: Result<Snapshot, AppError>)
    ensures r == PatchesApplied(s, ps)
  {
    var t := s;
    var i := 0;
    while i < |ps|
      invariant 0 <= i <= |ps|
      invariant PatchesApplied(t, ps[i..]) == PatchesApplied(s, ps)
    {
      assert ps[i..][0] == ps[i] && ps[i..][1..] == ps[i + 1..];
      var next := ApplyPatch(t, ps[i]);
      if next.Err? {
        return Err(next.error);
      }
      t := next.value;
      i := i + 1;
    }
    assert ps[i..] == [];
    return Ok(t);
  }

  /** Applying `p + q` is applying `p`, then applying `q` to what `p` produced. */
  lemma {:induction false} PatchesAppliedAppend(s: Snapshot, p: seq<Patch>, q: seq<Patch>)
    ensures PatchesApplied(s, p + q)
            == (match PatchesApplied(s, p)
                case Err(e) => Err(e)
                case Ok(t) => PatchesApplied(t, q))
    decreases |p|
  {
    if p == [] {
      assert p + q == q;
    } else {
      assert (p + q)[0] == p[0] && (p + q)[1..] == p[1..] + q;
      if ApplyPatch(s, p[0]).Ok? {
        PatchesAppliedAppend(ApplyPatch(s, p[0]).value, p[1..], q);
      }
    }
  }

  /** The content after the patches is the content after replaying their operations. */
  lemma {:induction false} PatchesAppliedReplays(s: Snapshot, ps: seq<Patch>)
    ensures PatchesApplied(s, ps).Ok? <==> Replayed(s.content, Operations(ps)).Ok?
    ensures PatchesApplied(s, ps).Ok? ==> PatchesApplied(s, ps).value.content == Replayed(s.content, Operations(ps)).value
    decreases |ps|
  {
    if ps != [] {
      assert Operations(ps)[0] == ps[0].operation && Operations(ps)[1..] == Operations(ps[1..]);
      if ApplyPatch(s, ps[0]).Ok? {
        PatchesAppliedReplays(ApplyPatch(s, ps[0]).value, ps[1..]);
      }
    }
  }

  /** The patch `new_revision` records replays onto the old snapshot as the new snapshot. */
  lemma NewRevisionReplays(s: Snapshot, authorId: string, operation: Operation)
    requires NewRevision(s, s.objectId, authorId, operation).Ok?
    requires NewRevision(s, s.objectId, authorId, operation).value.Some?
    ensures var (t, p) := NewRevision(s, s.objectId, authorId, operation).value.value;
            PatchesApplied(s, [p]) == Ok(t)
  {
    var (t, p) := NewRevision(s, s.objectId, authorId, operation).value.value;
    assert [p][1..] == [];
  }

  /** The patches of a list with revision at most `rev`, in their order: the filter in `lookup`. */
  function UpTo(ps: seq<Patch>, rev: int): (r: seq<Patch>)
    ensures |r| <= |ps|
    ensures forall i :: 0 <= i < |r| ==> r[i] in ps && r[i].revisionId <= rev
    ensures forall p :: p in ps && p.revisionId <= rev ==> p in r
    ensures |ps| == 1 ==> (r == ps <==> ps[0].revisionId <= rev) && (r == [] <==> rev < ps[0].revisionId)
    decreases |ps|
  {
    if ps == [] then []
    else if ps[0].revisionId <= rev then [ps[0]] + UpTo(ps[1..], rev)
    else UpTo(ps[1..], rev)
  }

  /** The filter keeps order and repetitions: filtering `ps + qs` is filtering each part. */
  lemma {:induction false} UpToAppend(ps: seq<Patch>, qs: seq<Patch>, rev: int)
    ensures UpTo(ps + qs, rev) == UpTo(ps, rev) + UpTo(qs, rev)
    decreases |ps|
  {
    if ps == [] {
      assert ps + qs == qs;
    } else {
      assert (ps + qs)[0] == ps[0] && (ps + qs)[1..] == ps[1..] + qs;
      UpToAppend(ps[1..], qs, rev);
    }
  }

  /** Patches in ascending revision order, as the store returns them. */
  predicate Ascending(ps: seq<Patch>) {
    forall i, j :: 0 <= i < j < |ps| ==> ps[i].revisionId <= ps[j].revisionId
  }

  /** On patches in ascending order the filter keeps a prefix: everything up to `rev`. */
  lemma {:induction false} UpToAscendingIsPrefix(ps: seq<Patch>, rev: int)
    requires Ascending(ps)
    ensures exists k :: 0 <= k <= |ps| && UpTo(ps, rev) == ps[..k]
    decreases |ps|
  {
    if ps == [] {
      assert UpTo(ps, rev) == ps[..0];
    } else if ps[0].revisionId <= rev {
      UpToAscendingIsPrefix(ps[1..], rev);
      var k :| 0 <= k <= |ps[1..]| && UpTo(ps[1..], rev) == ps[1..][..k];
      assert [ps[0]] + ps[1..][..k] == ps[..k + 1];
    } else {
      assert UpTo(ps[1..], rev) == [] by {
        UpToNoneBelow(ps[1..], rev, ps[0].revisionId);
      }
      assert UpTo(ps, rev) == ps[..0];
    }
  }

  lemma {:induction false} UpToNoneBelow(ps: seq<Patch>, rev: int, floor: int)
    requires floor > rev
    requires forall i :: 0 <= i < |ps| ==> ps[i].revisionId >= floor
    ensures UpTo(ps, rev) == []
    decreases |ps|
  {
    if ps != [] {
      UpToNoneBelow(ps[1..], rev, floor);
    }
  }

  /**
   * The replay part of `Snapshot::lookup`: the patches after the found snapshot, up to
   * `rev`, applied to it. The result never lies past `rev` unless no patch was applied.
   */
  function Lookup(found: Snapshot, patchesAfter: seq<Patch>, rev: int): (r: Result<Snapshot, AppError>)
    ensures r.Ok? ==> r.value.objectId == found.objectId
    ensures r.Ok? && UpTo(patchesAfter, rev) != [] ==> r.value.revisionId <= rev
    ensures UpTo(patchesAfter, rev) == [] ==> r == Ok(found)
  {
    PatchesApplied(found, UpTo(patchesAfter, rev))
  }
}
