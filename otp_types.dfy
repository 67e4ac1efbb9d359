/**
 * Identifiers, records and primary keys of the current library. A primary key is the
 * object id, a suffix naming the variant, and for patches and snapshots `@` and the
 * revision in decimal.
 */
module OtpTypes {
  import opened Json
  import opened Decimal
  import OtpOperation

  /** The root of an object; only `Set` operations use it. */
  const RootPath: string := ""

  /** The creator of objects made internally or without an applicable creator. */
  const RootObjId: string := ""

  /** The revision of the initial snapshot. */
  const ZeroRevId: int := 0

  /** `ObjectId`. Revisions are `i64`. */
  datatype ObjectId =
    | Base(id: string)
    | Release(id: string, rev: int)
    | Authorization(id: string)

  /** `Pk::to_pk` for `ObjectId`. */
  function ObjectIdPk(o: ObjectId): string {
    match o
    case Base(id) => id
    case Release(id, rev) => id + "/release/" + IntToString(rev)
    case Authorization(id) => id + "/authorization"
  }

  /** `Patch`; the store's creation timestamp is an opaque number. */
  datatype Patch = Patch(objectId: ObjectId, revisionId: int, authorId: string, createdAt: int,
                         operation: OtpOperation.Operation)

  /** `Snapshot<T>`. */
  datatype Snapshot<T> = Snapshot(objectId: ObjectId, revisionId: int, content: T)

  /** The key shape shared by patches and snapshots. */
  function RevisionPk(o: ObjectId, rev: int): string {
    ObjectIdPk(o) + "@" + IntToString(rev)
  }

  /**
   * How a patch or snapshot key reads back: the first `|key|` characters are the object
   * key, then `@`, then the revision in decimal.
   */
  predicate ReadsAs(k: string, key: string, rev: int) {
    var n := |key|;
    && n < |k| && k[..n] == key && k[n] == '@'
    && IsDecimal(k[n + 1..]) && ParseInt(k[n + 1..]) == rev
  }

  /**
   * A revision key reads back as its object key and revision; for a plain id the object
   * key ends at the first `@`, so a reader that cuts there recovers both.
   */
  lemma RevisionPkReads(o: ObjectId, rev: int)
    ensures ReadsAs(RevisionPk(o, rev), ObjectIdPk(o), rev)
    ensures PlainId(o.id) ==> FirstIndex(RevisionPk(o, rev), '@') == |ObjectIdPk(o)|
  {
    var key := ObjectIdPk(o);
    var d := IntToString(rev);
    assert RevisionPk(o, rev) == key + ("@" + d);
    IntRoundTrip(rev);
    JoinedReads(key, d, rev);
    if PlainId(o.id) {
      PkHasNoAt(o);
      FirstIndexAtCut(key, "@" + d, '@');
    }
  }

  lemma JoinedReads(key: string, d: string, rev: int)
    requires IsDecimal(d) && ParseInt(d) == rev
    ensures ReadsAs(key + ("@" + d), key, rev)
  {
    var k := key + ("@" + d);
    assert k[..|key|] == key;
    assert k[|key| + 1..] == d;
  }

  /** Two readings of one key that both cut at an `@`-free object key are the same reading. */
  lemma ReadsAsUnique(k: string, key1: string, rev1: int, key2: string, rev2: int)
    requires ReadsAs(k, key1, rev1) && ReadsAs(k, key2, rev2)
    requires '@' !in key1 && '@' !in key2
    ensures key1 == key2 && rev1 == rev2
  {
    assert k == key1 + k[|key1|..] && k == key2 + k[|key2|..];
    CutAtFirst(key1, k[|key1|..], key2, k[|key2|..], '@');
  }

  /** `Pk::to_pk` for `Patch`: it reads back as the object's key and the revision, cut at the first `@` for plain ids. */
  function PatchPk(p: Patch): (k: string)
    ensures ReadsAs(k, ObjectIdPk(p.objectId), p.revisionId)
    ensures PlainId(p.objectId.id) ==> FirstIndex(k, '@') == |ObjectIdPk(p.objectId)|
    ensures k == RevisionPk(p.objectId, p.revisionId)
  {
    RevisionPkReads(p.objectId, p.revisionId);
    ObjectIdPk(p.objectId) + "@" + IntToString(p.revisionId)
  }

  /** `Pk::to_pk` for `Snapshot`: it reads back as the object's key and the revision, cut at the first `@` for plain ids. */
  function SnapshotPk<T>(s: Snapshot<T>): (k: string)
    ensures ReadsAs(k, ObjectIdPk(s.objectId), s.revisionId)
    ensures PlainId(s.objectId.id) ==> FirstIndex(k, '@') == |ObjectIdPk(s.objectId)|
    ensures k == RevisionPk(s.objectId, s.revisionId)
  {
    RevisionPkReads(s.objectId, s.revisionId);
    ObjectIdPk(s.objectId) + "@" + IntToString(s.revisionId)
  }

  /** An id as the store hands them out: no `/` and no `@`. */
  predicate PlainId(id: string) {
    '/' !in id && '@' !in id
  }

  /** Two strings cut at the first `c` agree on both sides of the cut. */
  lemma CutAtFirst(x: string, s: string, y: string, t: string, c: char)
    requires c !in x && c !in y
    requires s == [] || s[0] == c
    requires t == [] || t[0] == c
    requires x + s == y + t
    ensures x == y && s == t
  {
    FirstIndexAtCut(x, s, c);
    FirstIndexAtCut(y, t, c);
    assert x == (x + s)[..|x|];
    assert y == (y + t)[..|y|];
    assert s == (x + s)[|x|..];
    assert t == (y + t)[|y|..];
  }

  /** The position of the first `c` in `w`, or `|w|` when there is none. */
  function FirstIndex(w: string, c: char): nat
    decreases |w|
  {
    if w == [] || w[0] == c then 0 else 1 + FirstIndex(w[1..], c)
  }

  lemma {:induction false} FirstIndexAtCut(x: string, s: string, c: char)
    requires c !in x
    requires s == [] || s[0] == c
    ensures FirstIndex(x + s, c) == |x|
    decreases |x|
  {
    if x != [] {
      assert (x + s)[0] == x[0] && (x + s)[1..] == x[1..] + s;
      FirstIndexAtCut(x[1..], s, c);
    } else {
      assert x + s == s;
    }
  }

  /** The part of an object key after its id. */
  function Suffix(o: ObjectId): string {
    match o
    case Base(_) => ""
    case Release(_, rev) => "/release/" + IntToString(rev)
    case Authorization(_) => "/authorization"
  }

  lemma PkIsIdAndSuffix(o: ObjectId)
    ensures ObjectIdPk(o) == o.id + Suffix(o)
  {
    if o.Release? {
      assert o.id + "/release/" + IntToString(o.rev) == o.id + ("/release/" + IntToString(o.rev));
    }
  }

  /** With plain ids, distinct object ids have distinct keys. */
  lemma ObjectIdPkInjective(o1: ObjectId, o2: ObjectId)
    requires PlainId(o1.id) && PlainId(o2.id)
    requires ObjectIdPk(o1) == ObjectIdPk(o2)
    ensures o1 == o2
  {
    PkIsIdAndSuffix(o1);
    PkIsIdAndSuffix(o2);
    CutAtFirst(o1.id, Suffix(o1), o2.id, Suffix(o2), '/');
    if o1.Release? && o2.Release? {
      var d1 := IntToString(o1.rev);
      var d2 := IntToString(o2.rev);
      assert d1 == ("/release/" + d1)[9..];
      assert d2 == ("/release/" + d2)[9..];
      IntToStringInjective(o1.rev, o2.rev);
    }
  }

  /** Object keys of plain ids contain no `@`, so `@` separates the revision. */
  lemma PkHasNoAt(o: ObjectId)
    requires PlainId(o.id)
    ensures '@' !in ObjectIdPk(o)
  {
    PkIsIdAndSuffix(o);
    if o.Release? {
      assert '@' !in "/release/" + IntToString(o.rev);
    }
  }

  /**
   * With plain ids a patch or snapshot key names exactly one object and one revision:
   * two revisions of an object never share a key.
   */
  lemma RevisionPkInjective(o1: ObjectId, r1: int, o2: ObjectId, r2: int)
    requires PlainId(o1.id) && PlainId(o2.id)
    requires RevisionPk(o1, r1) == RevisionPk(o2, r2)
    ensures o1 == o2 && r1 == r2
  {
    PkHasNoAt(o1);
    PkHasNoAt(o2);
    RevisionPkReads(o1, r1);
    RevisionPkReads(o2, r2);
    ReadsAsUnique(RevisionPk(o1, r1), ObjectIdPk(o1), r1, ObjectIdPk(o2), r2);
    ObjectIdPkInjective(o1, o2);
  }

  /** Without the plain-id condition keys collide: an id ending in `/authorization` is one. */
  lemma PkCollisionWithSlash()
    ensures ObjectIdPk(Base("x/authorization")) == ObjectIdPk(Authorization("x"))
  {
  }
}
