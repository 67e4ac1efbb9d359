/**
 * Identifiers, records and primary keys of the previous generation (`avers-otp`). Its
 * object ids have no release variant; everything else keys exactly as the current
 * library does, which is what lets both generations share one store.
 */
module AversTypes {
  import opened Wrappers
  import opened Json
  import opened Decimal
  import OtpTypes
  import OtpOperation

  /** `ObjectId`. */
  datatype ObjectId = Base(id: string) | Authorization(id: string)

  /** The same id in the current library's terms. */
  function Current(o: ObjectId): (c: OtpTypes.ObjectId)
    ensures c.id == o.id && !c.Release?
  {
    match o
    case Base(id) => OtpTypes.Base(id)
    case Authorization(id) => OtpTypes.Authorization(id)
  }

  /** `Pk::to_pk` for `ObjectId`: the key the current library gives the same id. */
  function ObjectIdPk(o: ObjectId): (k: string)
    ensures k == OtpTypes.ObjectIdPk(Current(o))
  {
    match o
    case Base(id) => id
    case Authorization(id) => id + "/authorization"
  }

  /** `ObjectType`. */
  datatype ObjectType = Account | Boulder

  /** `Object`: the header of a stored object; timestamps are opaque numbers. */
  datatype Object = Object(id: Option<string>, createdAt: Option<int>, objectType: ObjectType,
                           createdBy: string, deleted: Option<bool>)

  /** `Object::new`: an object the store has not yet given an id or a creation time. */
  function NewObject(objectType: ObjectType, createdBy: string): (o: Object)
    ensures o.id.None? && o.createdAt.None? && o.deleted.None?
    ensures o.objectType == objectType && o.createdBy == createdBy
  {
    Object(None, None, objectType, createdBy, None)
  }

  /** `Object::id` and `Pk::to_pk` for `Object`: both panic on an object without an id. */
  function ObjectPk(o: Object): (k: string)
    requires o.id.Some?
    ensures Some(k) == o.id
  {
    o.id.value
  }

  /** `Patch`. */
  datatype Patch = Patch(objectId: ObjectId, revisionId: int, authorId: string, createdAt: Option<int>,
                         operation: OtpOperation.Operation)

  /** `Snapshot`. */
  datatype Snapshot = Snapshot(objectId: ObjectId, revisionId: int, content: Json)

  /** `Snapshot::new`: the empty object one revision before the first. */
  function NewSnapshot(objectId: ObjectId): (s: Snapshot)
    ensures s.objectId == objectId && s.content == EmptyObject
    ensures s.revisionId + 1 == OtpTypes.ZeroRevId
  {
    Snapshot(objectId, -1, EmptyObject)
  }

  /** `Pk::to_pk` for `Patch`: the current library's key of the same revision. */
  function PatchPk(p: Patch): (k: string)
    ensures k == OtpTypes.RevisionPk(Current(p.objectId), p.revisionId)
  {
    ObjectIdPk(p.objectId) + "@" + IntToString(p.revisionId)
  }

  /** `Pk::to_pk` for `Snapshot`. */
  function SnapshotPk(s: Snapshot): (k: string)
    ensures k == OtpTypes.RevisionPk(Current(s.objectId), s.revisionId)
  {
    ObjectIdPk(s.objectId) + "@" + IntToString(s.revisionId)
  }

  /** With ids free of `/` and `@`, a patch key names one object and one revision. */
  lemma PatchPkInjective(p: Patch, q: Patch)
    requires OtpTypes.PlainId(p.objectId.id) && OtpTypes.PlainId(q.objectId.id)
    requires PatchPk(p) == PatchPk(q)
    ensures p.objectId == q.objectId && p.revisionId == q.revisionId
  {
    OtpTypes.RevisionPkInjective(Current(p.objectId), p.revisionId, Current(q.objectId), q.revisionId);
  }
}
