/**
 * serde_json's `Value`, and the path navigation every generation of `apply` shares:
 * a cursor that descends through object keys (`Value::get_mut` with a string key),
 * and the write-back through that cursor, modelled as rebuilding the spine of the value.
 */
module Json {
  import opened Wrappers

  /** A JSON value. Numbers are only compared and tested for kind, never computed with. */
  datatype Json =
    | Null
    | Bool(b: bool)
    | Num(n: int)
    | Str(s: string)
    | Arr(items: seq<Json>)
    | Obj(fields: map<string, Json>)

  datatype Kind = NullKind | BoolKind | NumKind | StrKind | ArrKind | ObjKind

  function KindOf(j: Json): Kind {
    match j
    case Null => NullKind
    case Bool(_) => BoolKind
    case Num(_) => NumKind
    case Str(_) => StrKind
    case Arr(_) => ArrKind
    case Obj(_) => ObjKind
  }

  /** The empty object `{}`. */
  const EmptyObject: Json := Obj(map[])

  /** `Value::get_mut(key)` with a string key: only an object has children by key. */
  function Child(v: Json, key: string): Option<Json> {
    if v.Obj? && key in v.fields then Some(v.fields[key]) else None
  }

  /** Where a walk along object keys ends: at a node, or at the first key that is missing. */
  datatype Walk = Reached(node: Json) | Missing(key: string)

  /** The node reached by following `segs` key by key from `v`. */
  function Resolve(v: Json, segs: seq<string>): Walk
    decreases |segs|
  {
    if segs == [] then Reached(v)
    else match Child(v, segs[0])
      case None => Missing(segs[0])
      case Some(c) => Resolve(c, segs[1..])
  }

  /** `v` with the node at `segs` replaced by `x`: what writing through the cursor does. */
  function PutAt(v: Json, segs: seq<string>, x: Json): Json
    requires Resolve(v, segs).Reached?
    decreases |segs|
  {
    if segs == [] then x
    else Obj(v.fields[segs[0] := PutAt(v.fields[segs[0]], segs[1..], x)])
  }

  /**
   * The cursor loop of `change_object`/`change_array`/`is_reachable`'s object case:
   * descend key by key, stopping at the first key the current node does not have.
   */
  method Descend(v: Json, segs: seq<string>) returns (w: Walk)
    ensures w == Resolve(v, segs)
    ensures w.Missing? ==> w.key in segs
  {
    var cursor := v;
    var i := 0;
    while i < |segs|
      invariant 0 <= i <= |segs|
      invariant Resolve(cursor, segs[i..]) == Resolve(v, segs)
    {
      assert segs[i..][0] == segs[i] && segs[i..][1..] == segs[i + 1..];
      match Child(cursor, segs[i]) {
        case None =>
          return Missing(segs[i]);
        case Some(c) =>
          cursor := c;
      }
      i := i + 1;
    }
    assert segs[i..] == [];
    return Reached(cursor);
  }

  /** Walking `p + q` is walking `p`, then walking `q` from where `p` ended. */
  lemma {:induction false} ResolveAppend(v: Json, p: seq<string>, q: seq<string>)
    ensures Resolve(v, p + q) == (match Resolve(v, p)
                                  case Missing(k) => Missing(k)
                                  case Reached(n) => Resolve(n, q))
    decreases |p|
  {
    if p == [] {
      assert p + q == q;
    } else {
      assert (p + q)[0] == p[0] && (p + q)[1..] == p[1..] + q;
      match Child(v, p[0]) {
        case None =>
        case Some(c) => ResolveAppend(c, p[1..], q);
      }
    }
  }

  /** After writing `x` at `segs`, the walk along `segs` reaches `x`. */
  lemma {:induction false} ResolvePutAt(v: Json, segs: seq<string>, x: Json)
    requires Resolve(v, segs).Reached?
    ensures Resolve(PutAt(v, segs, x), segs) == Reached(x)
    decreases |segs|
  {
    if segs != [] {
      ResolvePutAt(v.fields[segs[0]], segs[1..], x);
    }
  }

  /** Writing back the node that is already there changes nothing. */
  lemma {:induction false} PutAtSame(v: Json, segs: seq<string>)
    requires Resolve(v, segs).Reached?
    ensures PutAt(v, segs, Resolve(v, segs).node) == v
    decreases |segs|
  {
    if segs != [] {
      PutAtSame(v.fields[segs[0]], segs[1..]);
      assert v.fields[segs[0] := v.fields[segs[0]]] == v.fields;
    }
  }

  /**
   * Writing at `p` leaves every walk along a path `q` that leaves `p` somewhere
   * (neither is a prefix of the other) exactly as it was.
   */
  lemma {:induction false} PutAtElsewhere(v: Json, p: seq<string>, q: seq<string>, x: Json)
    requires Resolve(v, p).Reached?
    requires !(p <= q) && !(q <= p)
    ensures Resolve(PutAt(v, p, x), q) == Resolve(v, q)
    decreases |p|
  {
    var w := PutAt(v, p, x);
    if p[0] == q[0] {
      assert p[1..] <= q[1..] ==> p <= q;
      assert q[1..] <= p[1..] ==> q <= p;
      PutAtElsewhere(v.fields[p[0]], p[1..], q[1..], x);
    }
  }

  /** Below the write, the walk continues in the written value. */
  lemma PutAtBelow(v: Json, p: seq<string>, s: seq<string>, x: Json)
    requires Resolve(v, p).Reached?
    ensures Resolve(PutAt(v, p, x), p + s) == Resolve(x, s)
  {
    ResolveAppend(PutAt(v, p, x), p, s);
    ResolvePutAt(v, p, x);
  }

  /** JavaScript's / `Vec::splice`'s effect: remove `remove` elements at `index`, insert `ins` there. */
  function SpliceSeq<T>(a: seq<T>, index: nat, remove: nat, ins: seq<T>): (r: seq<T>)
    requires index + remove <= |a|
    ensures |r| == |a| - remove + |ins|
    ensures r[..index] == a[..index] && r[index..index + |ins|] == ins
    ensures r[index + |ins|..] == a[index + remove..]
  {
    a[..index] + ins + a[index + remove..]
  }
}
