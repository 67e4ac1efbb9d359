/**
 * The server's object header: `ObjectDoc` as stored, where the store fills in the id and
 * the creation time, and `Object`, which has both.
 */
module AppObject {
  import opened Wrappers
  import OtpTypes
  import opened AppPatch

  /** The server's `ObjectType`. */
  datatype ObjectType = Account | Boulder | Passport

  /** `ObjectDoc`; timestamps are opaque numbers. */
  datatype ObjectDoc = ObjectDoc(id: Option<string>, createdAt: Option<int>, objectType: ObjectType,
                                 createdBy: string, deleted: Option<bool>)

  /** `Object`. */
  datatype Object = Object(id: string, createdAt: int, objectType: ObjectType, createdBy: string, deleted: bool)

  /** `ObjectDoc::new`: created by the root object, with nothing filled in by the store yet. */
  function NewDoc(objectType: ObjectType): (d: ObjectDoc)
    ensures d.id.None? && d.createdAt.None? && d.deleted.None?
    ensures d.objectType == objectType && d.createdBy == OtpTypes.RootObjId
  {
    ObjectDoc(None, None, objectType, OtpTypes.RootObjId, None)
  }

  /**
   * `TryFrom<ObjectDoc> for Object`: a `Query` error without an id or a creation time;
   * otherwise the same fields, an absent `deleted` read as `false`.
   */
  function FromDoc(doc: ObjectDoc): (r: Result<Object, AppError>)
    ensures r.Ok? <==> doc.id.Some? && doc.createdAt.Some?
    ensures r.Err? ==> r.error == Query
    ensures r.Ok? ==> Some(r.value.id) == doc.id && Some(r.value.createdAt) == doc.createdAt
    ensures r.Ok? ==> r.value.objectType == doc.objectType && r.value.createdBy == doc.createdBy
    ensures r.Ok? ==> (r.value.deleted <==> doc.deleted == Some(true))
  {
    if doc.id.None? then Err(Query)
    else if doc.createdAt.None? then Err(Query)
    else Ok(Object(doc.id.value, doc.createdAt.value, doc.objectType, doc.createdBy, (if doc.deleted.Some? then doc.deleted.value else false)))
  }

  /** A new doc converts only once the store has given it an id and a creation time. */
  lemma NewDocConvertsOnceStored(objectType: ObjectType, id: string, createdAt: int)
    ensures FromDoc(NewDoc(objectType)).Err?
    ensures FromDoc(NewDoc(objectType).(id := Some(id), createdAt := Some(createdAt)))
            == Ok(Object(id, createdAt, objectType, OtpTypes.RootObjId, false))
  {
  }
}
