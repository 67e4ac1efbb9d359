/**
 * `is_reachable`: whether a dot-separated path leads somewhere in a document.
 * Object members are reached by key; array elements only when they are objects
 * whose `"id"` is the path segment. The avers-otp generation has the same function.
 */
module OtpPath {
  import opened Wrappers
  import opened Json
  import opened Dotted

  /** `a.iter().find(..)`: the first element that is an object with `"id"` equal to `seg`. */
  function FindById(items: seq<Json>, seg: string): (r: Option<Json>)
    ensures r.Some? <==> exists k :: 0 <= k < |items| && HasId(items[k], seg)
    ensures r.Some? ==> r.value in items && HasId(r.value, seg)
    ensures r.Some? ==> exists k :: 0 <= k < |items| && items[k] == r.value
                                    && forall j :: 0 <= j < k ==> !HasId(items[j], seg)
    decreases |items|
  {
    if items == [] then None
    else if HasId(items[0], seg) then Some(items[0])
    else
      var r := FindById(items[1..], seg);
      assert forall k :: 0 < k < |items| ==> items[k] == items[1..][k - 1];
      r
  }

  /** An object whose `"id"` member is the string `seg`. */
  predicate HasId(v: Json, seg: string) {
    v.Obj? && "id" in v.fields && v.fields["id"] == Str(seg)
  }

  /** One step of the walk: by key into an object, by id into an array, nowhere otherwise. */
  function Step(v: Json, seg: string): Option<Json> {
    match v
    case Obj(m) => if seg in m then Some(m[seg]) else None
    case Arr(items) => FindById(items, seg)
    case _ => None
  }

  /** Every segment leads one step further. */
  predicate ReachableSegs(v: Json, segs: seq<string>)
    decreases |segs|
  {
    segs == [] || match Step(v, segs[0])
                  case None => false
                  case Some(c) => ReachableSegs(c, segs[1..])
  }

  /** The empty path is reachable everywhere; any other is split on `.` and walked. */
  predicate Reachable(path: string, v: Json) {
    path == "" || ReachableSegs(v, Split(path))
  }

  /** `is_reachable`, with its cursor loop over the segments. */
  method IsReachable(path: string, v: Json) returns (b: bool)
    ensures b == Reachable(path, v)
    ensures path == "" ==> b
    ensures path != "" && !v.Obj? && !v.Arr? ==> !b
  {
    if path == "" {
      return true;
    }
    var segs := Split(path);
    var content := v;
    var i := 0;
    while i < |segs|
      invariant 0 <= i <= |segs|
      invariant ReachableSegs(content, segs[i..]) == ReachableSegs(v, segs)
    {
      assert segs[i..][0] == segs[i] && segs[i..][1..] == segs[i + 1..];
      match Step(content, segs[i]) {
        case None =>
          return false;
        case Some(c) =>
          content := c;
      }
      i := i + 1;
    }
    return true;
  }

  /** Reaching `segs + more` means reaching `segs` on the way. */
  lemma {:induction false} ReachableSegsPrefix(v: Json, segs: seq<string>, more: seq<string>)
    requires ReachableSegs(v, segs + more)
    ensures ReachableSegs(v, segs)
    decreases |segs|
  {
    if segs != [] {
      assert (segs + more)[0] == segs[0] && (segs + more)[1..] == segs[1..] + more;
      ReachableSegsPrefix(Step(v, segs[0]).value, segs[1..], more);
    }
  }

  /** If `p.q` is reachable then so is `p`: reachability is closed under taking a parent. */
  lemma ReachableParent(p: string, q: string, v: Json)
    requires Reachable(p + "." + q, v)
    ensures Reachable(p, v)
  {
    SplitConcat(p, q);
    ReachableSegsPrefix(v, Split(p), Split(q));
  }

  /** Any path that `apply` can walk through object keys is reachable. */
  lemma {:induction false} ResolvedIsReachable(v: Json, segs: seq<string>)
    requires Resolve(v, segs).Reached?
    ensures ReachableSegs(v, segs)
    decreases |segs|
  {
    if segs != [] {
      ResolvedIsReachable(v.fields[segs[0]], segs[1..]);
    }
  }

  /**
   * In a document with no arrays along the way, reachability is exactly the key walk
   * `apply` performs; the two differ only where the walk meets an array.
   */
  lemma {:induction false} ReachableObjectsOnly(v: Json, segs: seq<string>)
    requires Resolve(v, segs).Missing? && forall k :: 0 <= k <= |segs| ==> !IsArrayAt(v, segs[..k])
    ensures !ReachableSegs(v, segs)
    decreases |segs|
  {
    assert segs[..0] == [];
    if segs != [] && v.Obj? && segs[0] in v.fields {
      var c := v.fields[segs[0]];
      forall k | 0 <= k <= |segs[1..]| ensures !IsArrayAt(c, segs[1..][..k]) {
        assert segs[..k + 1] == [segs[0]] + segs[1..][..k];
        assert !IsArrayAt(v, segs[..k + 1]);
      }
      ReachableObjectsOnly(c, segs[1..]);
    }
  }

  /** The key walk along `segs` ends at an array. */
  predicate IsArrayAt(v: Json, segs: seq<string>) {
    Resolve(v, segs).Reached? && Resolve(v, segs).node.Arr?
  }
}
