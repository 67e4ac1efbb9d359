/**
 * The server's errors and its `Patch` record (`bin/all-o-stasis`). In the server the
 * library's object id is a plain string; the creation timestamp is filled in by the
 * store, so a freshly built patch has none.
 */
module AppPatch {
  import opened Wrappers
  import opened Json
  import opened OtpOperation
  import OtpTypes
  import AversPatching

  /**
   * The server's error type. Only the variants this model produces are listed: a failed
   * query, and the library's errors carried through `?`.
   */
  datatype AppError =
    | Query
    | Ot(ot: OtError)
    | Patching(patch: AversPatching.PatchError)

  /** `Patch`; timestamps are opaque numbers. */
  datatype Patch = Patch(objectId: string, revisionId: int, authorId: string, createdAt: Option<int>,
                         operation: Operation)

  /** `Patch::new`: the first revision, setting the whole document to `value`. */
  function NewPatch(objectId: string, authorId: string, value: Json): (p: Patch)
    ensures p.revisionId == OtpTypes.ZeroRevId && p.createdAt.None?
    ensures p.objectId == objectId && p.authorId == authorId
    ensures forall v :: Applied(p.operation, v) == Ok(value)
  {
    Patch(objectId, OtpTypes.ZeroRevId, authorId, None, NewSet(OtpTypes.RootPath, value))
  }

  /** `Patch::new_revision`: exactly the given fields, with no timestamp yet. */
  function NewRevisionPatch(revisionId: int, objectId: string, authorId: string, operation: Operation): (p: Patch)
    ensures p.revisionId == revisionId && p.objectId == objectId && p.authorId == authorId
    ensures p.operation == operation && p.createdAt.None?
  {
    Patch(objectId, revisionId, authorId, None, operation)
  }
}
