/**
 * Identifiers, operations and records of the prototype (`src/otp`). Its splice carries
 * its insert as a list rather than as a JSON value, and its keys are the current
 * library's keys.
 */
module ProtoTypes {
  import opened Wrappers
  import opened Json
  import opened Decimal
  import OtpTypes
  import OtpOperation

  /** `ObjectId`. */
  datatype ObjectId =
    | BaseObjectId(id: string)
    | ReleaseObjectId(id: string, rev: int)
    | AuthorizationObjectId(id: string)

  /** The same id in the current library's terms. */
  function Current(o: ObjectId): (c: OtpTypes.ObjectId)
    ensures c.id == o.id && c.Release? == o.ReleaseObjectId? && c.Authorization? == o.AuthorizationObjectId?
    ensures o.ReleaseObjectId? ==> c.rev == o.rev
  {
    match o
    case BaseObjectId(id) => OtpTypes.Base(id)
    case ReleaseObjectId(id, rev) => OtpTypes.Release(id, rev)
    case AuthorizationObjectId(id) => OtpTypes.Authorization(id)
  }

  /** `Pk::to_pk` for `ObjectId`: the key the current library gives the same id. */
  function ObjectIdPk(o: ObjectId): (k: string)
    ensures k == OtpTypes.ObjectIdPk(Current(o))
  {
    match o
    case BaseObjectId(id) => id
    case ReleaseObjectId(id, rev) => id + "/release/" + IntToString(rev)
    case AuthorizationObjectId(id) => id + "/authorization"
  }

  /** `Operation`: the splice's insert is a list of values. */
  datatype Operation =
    | Set(path: string, value: Option<Json>)
    | Splice(path: string, index: nat, remove: nat, insert: seq<Json>)

  /** The same operation in the later generations' terms, where the insert is a JSON array. */
  function Lift(op: Operation): (r: OtpOperation.Operation)
    ensures r.path == op.path && r.Set? == op.Set?
    ensures op.Set? ==> r.value == op.value
    ensures op.Splice? ==> r.index == op.index && r.remove == op.remove && r.insert == Arr(op.insert)
  {
    match op
    case Set(path, value) => OtpOperation.Set(path, value)
    case Splice(path, index, remove, insert) => OtpOperation.Splice(path, index, remove, Arr(insert))
  }

  /** `Object`: a stored object with its content as a map; timestamps are opaque numbers. */
  datatype Object = Object(id: string, objectType: string, createdAt: int, createdBy: string,
                           deleted: Option<bool>, content: map<string, Json>)

  /** `Pk::to_pk` for `Object`: its id. */
  function ObjectPk(o: Object): (k: string)
    ensures k == o.id
  {
    o.id
  }

  /** `Patch`. */
  datatype Patch = Patch(objectId: ObjectId, revisionId: int, authorId: string, createdAt: int, operation: Operation)

  /** `Snapshot<T>`. */
  datatype Snapshot<T> = Snapshot(objectId: ObjectId, revisionId: int, content: T)

  /** `Pk::to_pk` for `Patch`: the current library's key of the same revision. */
  function PatchPk(p: Patch): (k: string)
    ensures k == OtpTypes.RevisionPk(Current(p.objectId), p.revisionId)
  {
    ObjectIdPk(p.objectId) + "@" + IntToString(p.revisionId)
  }

  /** `Pk::to_pk` for `Snapshot`. */
  function SnapshotPk<T>(s: Snapshot<T>): (k: string)
    ensures k == OtpTypes.RevisionPk(Current(s.objectId), s.revisionId)
  {
    ObjectIdPk(s.objectId) + "@" + IntToString(s.revisionId)
  }

  /** With ids free of `/` and `@`, a snapshot key names one object and one revision. */
  lemma SnapshotPkInjective<T>(s: Snapshot<T>, t: Snapshot<T>)
    requires OtpTypes.PlainId(s.objectId.id) && OtpTypes.PlainId(t.objectId.id)
    requires SnapshotPk(s) == SnapshotPk(t)
    ensures s.objectId == t.objectId && s.revisionId == t.revisionId
  {
    OtpTypes.RevisionPkInjective(Current(s.objectId), s.revisionId, Current(t.objectId), t.revisionId);
  }
}
