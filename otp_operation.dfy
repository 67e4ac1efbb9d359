/**
 * The current operation library: an `Operation` is a `Set` of one object member or a
 * `Splice` of one array, addressed by a dot-separated path, and `apply_to` performs it
 * on a JSON document or reports why it cannot.
 */
module OtpOperation {
  import opened Wrappers
  import opened Json
  import opened Dotted

  /** `OtError`. Message strings are dropped; a `Key` error keeps the offending key. */
  datatype OtError =
    | InvalidSetOp
    | ValueIsNotArray
    | InvalidOperation          // `OtError::Operation`
    | Index
    | Type
    | NoId
    | Key(key: string)
    | PathError(path: string)   // `OtError::Path`
    | RebaseFailed(reason: RebaseFailure)   // `OtError::Rebase`

  /** Why `rebase` gave up. */
  datatype RebaseFailure = Rejected | PatchFailed

  /**
   * `Operation`. `index` and `remove` are `usize` in the source; the insert of a
   * splice is any JSON value, and only an array is usable.
   */
  datatype Operation =
    | Set(path: string, value: Option<Json>)
    | Splice(path: string, index: nat, remove: nat, insert: Json)

  /** `Operation::new_set`. */
  function NewSet(path: string, value: Json): (op: Operation)
    ensures op.Set? && op.path == path && op.value == Some(value)
  {
    Set(path, Some(value))
  }

  /** `Operation::try_new_set`: only the root path with no value is refused. */
  function TryNewSet(path: string, value: Option<Json>): (r: Result<Operation, OtError>)
    ensures r.Err? <==> path == "" && value.None?
    ensures r.Err? ==> r.error == InvalidSetOp
    ensures r.Ok? ==> r.value == Set(path, value)
  {
    if path == "" && value.None? then Err(InvalidSetOp) else Ok(Set(path, value))
  }

  /**
   * `Operation::try_new_splice` as written: it refuses exactly the inserts that are
   * arrays, so every splice it builds carries a non-array insert.
   */
  function TryNewSplice(path: string, index: nat, remove: nat, insert: Json): (r: Result<Operation, OtError>)
    ensures r.Err? <==> insert.Arr?
    ensures r.Err? ==> r.error == ValueIsNotArray
    ensures r.Ok? ==> r.value == Splice(path, index, remove, insert) && !r.value.insert.Arr?
  {
    if insert.Arr? then Err(ValueIsNotArray) else Ok(Splice(path, index, remove, insert))
  }

  /** The check `try_new_splice` evidently means: refuse an insert that is not an array. */
  function TryNewSpliceIntended(path: string, index: nat, remove: nat, insert: Json): (r: Result<Operation, OtError>)
    ensures r.Err? <==> !insert.Arr?
    ensures r.Err? ==> r.error == ValueIsNotArray
    ensures r.Ok? ==> r.value == Splice(path, index, remove, insert)
  {
    if !insert.Arr? then Err(ValueIsNotArray) else Ok(Splice(path, index, remove, insert))
  }

  // ---------------------------------------------------------------------------
  // check_type_consistency

  /** Every element has kind `k`. */
  predicate AllOf(xs: seq<Json>, k: Kind) {
    forall i :: 0 <= i < |xs| ==> KindOf(xs[i]) == k
  }

  /** Every element is an object with an `"id"` member. */
  predicate AllHaveId(xs: seq<Json>) {
    forall i :: 0 <= i < |xs| ==> xs[i].Obj? && "id" in xs[i].fields
  }

  /** Elements that may share an array: all numbers, all booleans, all strings, or all objects with ids. */
  predicate Homogeneous(xs: seq<Json>) {
    AllOf(xs, NumKind) || AllOf(xs, BoolKind) || AllOf(xs, StrKind)
    || (AllOf(xs, ObjKind) && AllHaveId(xs))
  }

  lemma AllOfConcat(a: seq<Json>, b: seq<Json>, k: Kind)
    ensures AllOf(a + b, k) <==> AllOf(a, k) && AllOf(b, k)
  {
    if AllOf(a, k) && AllOf(b, k) {
      forall i | 0 <= i < |a + b| ensures KindOf((a + b)[i]) == k {
        if i >= |a| { assert (a + b)[i] == b[i - |a|]; }
      }
    }
    if AllOf(a + b, k) {
      forall i | 0 <= i < |a| ensures KindOf(a[i]) == k {
        assert (a + b)[i] == a[i];
      }
      forall i | 0 <= i < |b| ensures KindOf(b[i]) == k {
        assert (a + b)[|a| + i] == b[i];
      }
    }
  }

  lemma AllHaveIdConcat(a: seq<Json>, b: seq<Json>)
    ensures AllHaveId(a + b) <==> AllHaveId(a) && AllHaveId(b)
  {
    if AllHaveId(a) && AllHaveId(b) {
      forall i | 0 <= i < |a + b| ensures (a + b)[i].Obj? && "id" in (a + b)[i].fields {
        if i >= |a| { assert (a + b)[i] == b[i - |a|]; }
      }
    }
    if AllHaveId(a + b) {
      forall i | 0 <= i < |a| ensures a[i].Obj? && "id" in a[i].fields {
        assert (a + b)[i] == a[i];
      }
      forall i | 0 <= i < |b| ensures b[i].Obj? && "id" in b[i].fields {
        assert (a + b)[|a| + i] == b[i];
      }
    }
  }

  /**
   * `check_type_consistency(a, b)`: may the elements `b` be spliced into the array `a`?
   * The source looks at the first element of each and then checks every element; the
   * contract states the outcome without reference to first elements.
   */
  function CheckTypeConsistency(a: seq<Json>, b: seq<Json>): (r: Result<(), OtError>)
    ensures r.Ok? <==> |a| > 0 && (|b| == 0 || Homogeneous(a + b))
    ensures r == Err(NoId) <==> |a| > 0 && |b| > 0 && AllOf(a + b, ObjKind) && !AllHaveId(a + b)
    ensures r.Err? ==> r.error == Type || r.error == NoId
  {
    AllOfConcat(a, b, NumKind);
    AllOfConcat(a, b, BoolKind);
    AllOfConcat(a, b, StrKind);
    AllOfConcat(a, b, ObjKind);
    AllHaveIdConcat(a, b);
    if |a| == 0 then Err(Type)
    else if |b| == 0 then Ok(())
    else
      assert (a + b)[0] == a[0] && (a + b)[|a|] == b[0];
      if KindOf(a[0]) != KindOf(b[0]) then Err(Type)
      else match a[0]
        case Num(_) =>
          if AllOf(a, NumKind) && AllOf(b, NumKind) then Ok(()) else Err(Type)
        case Bool(_) =>
          if AllOf(a, BoolKind) && AllOf(b, BoolKind) then Ok(()) else Err(Type)
        case Str(_) =>
          if AllOf(a, StrKind) && AllOf(b, StrKind) then Ok(()) else Err(Type)
        case Obj(_) =>
          if !(AllOf(a, ObjKind) && AllOf(b, ObjKind)) then Err(Type)
          else if AllHaveId(a) && AllHaveId(b) then Ok(())
          else Err(NoId)
        case _ => Err(Type)
  }

  /** Splicing into an empty array is always refused, whatever is inserted. */
  lemma EmptyArrayRejectsSplice(b: seq<Json>)
    ensures CheckTypeConsistency([], b) == Err(Type)
  {
  }

  // ---------------------------------------------------------------------------
  // apply_to, as a specification

  /** `ins_or_del` on the parent object's members. */
  function Edited(m: map<string, Json>, key: string, value: Option<Json>): (r: map<string, Json>)
    ensures value.Some? ==> key in r && r[key] == value.value
    ensures value.None? ==> key !in r
    ensures forall k :: k != key ==> (k in r <==> k in m) && (k in r ==> r[k] == m[k])
  {
    if value.Some? then m[key := value.value] else m - {key}
  }

  /** All but the last segment: the walk `change_object`/`change_array` make before acting. */
  function Parent(segs: seq<string>): seq<string>
    requires |segs| >= 1
  {
    segs[..|segs| - 1]
  }

  function Last(segs: seq<string>): string
    requires |segs| >= 1
  {
    segs[|segs| - 1]
  }

  /** What `change_object` with `ins_or_del` produces. */
  function ObjectChanged(v: Json, segs: seq<string>, value: Option<Json>): Result<Json, OtError>
    requires |segs| >= 1
  {
    match Resolve(v, Parent(segs))
    case Missing(k) => Err(Key(k))
    case Reached(parent) =>
      if parent.Obj? then Ok(PutAt(v, Parent(segs), Obj(Edited(parent.fields, Last(segs), value))))
      else Err(Type)
  }

  /** What the splice closure of `apply_to` does to the array it is given. */
  function Spliced(a: seq<Json>, index: nat, remove: nat, ins: seq<Json>): Result<seq<Json>, OtError> {
    if |a| < index + remove then Err(Index)
    else match CheckTypeConsistency(a, ins)
      case Err(e) => Err(e)
      case Ok(_) => Ok(SpliceSeq(a, index, remove, ins))
  }

  /** What `change_array` with the splice closure produces. */
  function ArrayChanged(v: Json, segs: seq<string>, index: nat, remove: nat, ins: seq<Json>): Result<Json, OtError>
    requires |segs| >= 1
  {
    match Resolve(v, Parent(segs))
    case Missing(k) => Err(Key(k))
    case Reached(parent) =>
      match Child(parent, Last(segs))
      case None => Err(Key(Last(segs)))
      case Some(target) =>
        if !target.Arr? then Err(ValueIsNotArray)
        else match Spliced(target.items, index, remove, ins)
          case Err(e) => Err(e)
          case Ok(items) => Ok(PutAt(v, Parent(segs), Obj(parent.fields[Last(segs) := Arr(items)])))
  }

  /** `Operation::apply_to`. */
  function Applied(op: Operation, v: Json): (r: Result<Json, OtError>)
    ensures r.Err? ==> !r.error.PathError? && !r.error.RebaseFailed? && r.error != InvalidSetOp
  {
    match op
    case Set(path, value) =>
      if path == "" then
        if value.Some? then Ok(value.value) else Err(InvalidOperation)
      else ObjectChanged(v, Split(path), value)
    case Splice(path, index, remove, insert) =>
      if !insert.Arr? then Err(ValueIsNotArray)
      else ArrayChanged(v, Split(path), index, remove, insert.items)
  }

  // ---------------------------------------------------------------------------
  // apply_to, as the source computes it

  /** `change_object` with `ins_or_del`: walk the cursor to the parent, then edit its member. */
  method ChangeObject(v: Json, path: string, value: Option<Json>) returns (r: Result<Json, OtError>)
    ensures r == ObjectChanged(v, Split(path), value)
  {
    var segs := Split(path);
    var key := segs[|segs| - 1];
    var walk := Descend(v, segs[..|segs| - 1]);
    match walk {
      case Missing(k) =>
        return Err(Key(k));
      case Reached(parent) =>
        if !parent.Obj? {
          return Err(Type);
        }
        var fields := parent.fields;
        match value {
          case Some(x) => fields := fields[key := x];
          case None => fields := fields - {key};
        }
        return Ok(PutAt(v, segs[..|segs| - 1], Obj(fields)));
    }
  }

  /** `change_array` with the splice closure: walk to the parent, splice its member array. */
  method ChangeArray(v: Json, path: string, index: nat, remove: nat, ins: seq<Json>) returns (r: Result<Json, OtError>)
    ensures r == ArrayChanged(v, Split(path), index, remove, ins)
  {
    var segs := Split(path);
    var key := segs[|segs| - 1];
    var walk := Descend(v, segs[..|segs| - 1]);
    match walk {
      case Missing(k) =>
        return Err(Key(k));
      case Reached(parent) =>
        match Child(parent, key) {
          case None =>
            return Err(Key(key));
          case Some(target) =>
            if !target.Arr? {
              return Err(ValueIsNotArray);
            }
            var a := target.items;
            if |a| < index + remove {
              return Err(Index);
            }
            var check := CheckTypeConsistency(a, ins);
            if check.Err? {
              return Err(check.error);
            }
            a := a[..index] + ins + a[index + remove..];
            return Ok(PutAt(v, segs[..|segs| - 1], Obj(parent.fields[key := Arr(a)])));
        }
    }
  }

  /** `Operation::apply_to`. */
  method ApplyTo(op: Operation, v: Json) returns (r: Result<Json, OtError>)
    ensures r == Applied(op, v)
  {
    match op {
      case Set(path, value) =>
        if path == "" {
          if value.Some? {
            return Ok(value.value);
          }
          return Err(InvalidOperation);
        }
        r := ChangeObject(v, path, value);
      case Splice(path, index, remove, insert) =>
        if !insert.Arr? {
          return Err(ValueIsNotArray);
        }
        r := ChangeArray(v, path, index, remove, insert.items);
    }
  }

  // ---------------------------------------------------------------------------
  // What apply_to promises

  /** A split path is its parent followed by its last segment. */
  lemma ParentLast(segs: seq<string>)
    requires |segs| >= 1
    ensures Parent(segs) + [Last(segs)] == segs
  {
  }

  /** A walk that gets anywhere past the root starts from an object. */
  lemma {:induction false} ResolveNonEmptyStartsAtObject(v: Json, segs: seq<string>)
    requires segs != [] && Resolve(v, segs).Reached?
    ensures v.Obj? && segs[0] in v.fields
  {
  }

  /**
   * A `Set` on the root path: with a value it yields that value whatever the document,
   * without one it is an error.
   */
  lemma SetRoot(v: Json, value: Option<Json>)
    ensures Applied(Set("", value), v) == (if value.Some? then Ok(value.value) else Err(InvalidOperation))
  {
  }

  /**
   * A `Set` on a non-root path succeeds exactly when the walk to the parent reaches an
   * object; it then changes only the last key of that object (overwritten, inserted or
   * removed) and what the full path leads to afterwards is the new value, or nothing.
   * A missing intermediate key is a `Key` error naming it, a non-object parent a `Type` error.
   */
  lemma SetChangesLastKey(v: Json, path: string, value: Option<Json>)
    requires path != ""
    ensures var segs := Split(path);
            var r := Applied(Set(path, value), v);
            && (r.Ok? <==> Resolve(v, Parent(segs)).Reached? && Resolve(v, Parent(segs)).node.Obj?)
            && (forall k :: r == Err(Key(k)) <==> Resolve(v, Parent(segs)) == Missing(k))
            && (r == Err(Type) <==> Resolve(v, Parent(segs)).Reached? && !Resolve(v, Parent(segs)).node.Obj?)
            && (r.Ok? ==>
                  && Resolve(r.value, Parent(segs))
                     == Reached(Obj(Edited(Resolve(v, Parent(segs)).node.fields, Last(segs), value)))
                  && Resolve(r.value, segs)
                     == (if value.Some? then Reached(value.value) else Missing(Last(segs))))
  {
    var segs := Split(path);
    var r := Applied(Set(path, value), v);
    assert r == ObjectChanged(v, segs, value);
    if r.Ok? {
      var parent := Resolve(v, Parent(segs)).node;
      var edited := Obj(Edited(parent.fields, Last(segs), value));
      assert r.value == PutAt(v, Parent(segs), edited);
      ResolvePutAt(v, Parent(segs), edited);
      ResolveLast(r.value, segs);
    }
  }

  /**
   * A `Splice` with an array insert is decided by what the full path leads to: a missing
   * key is a `Key` error, a non-array a `ValueIsNotArray` error, a too short array an
   * `Index` error; otherwise, when the elements agree in kind, the array there becomes
   * `a[..index] + insert + a[index + remove..]`.
   */
  lemma SpliceOutcome(v: Json, path: string, index: nat, remove: nat, ins: seq<Json>)
    ensures var segs := Split(path);
            var r := Applied(Splice(path, index, remove, Arr(ins)), v);
            && (forall k :: r == Err(Key(k)) <==> Resolve(v, segs) == Missing(k))
            && (r == Err(ValueIsNotArray) <==> Resolve(v, segs).Reached? && !Resolve(v, segs).node.Arr?)
            && (r == Err(Index) <==> (Resolve(v, segs).Reached? && Resolve(v, segs).node.Arr?
                                     && |Resolve(v, segs).node.items| < index + remove))
            && (r.Ok? <==> (Resolve(v, segs).Reached? && Resolve(v, segs).node.Arr?
                            && index + remove <= |Resolve(v, segs).node.items|
                            && CheckTypeConsistency(Resolve(v, segs).node.items, ins).Ok?))
            && (r.Ok? ==>
                  var a := Resolve(v, segs).node.items;
                  && Resolve(r.value, segs) == Reached(Arr(a[..index] + ins + a[index + remove..]))
                  && |a[..index] + ins + a[index + remove..]| == |a| - remove + |ins|)
  {
    var segs := Split(path);
    ResolveLast(v, segs);
    var r := Applied(Splice(path, index, remove, Arr(ins)), v);
    assert r == ArrayChanged(v, segs, index, remove, ins);
    if r.Ok? {
      var parent := Resolve(v, Parent(segs)).node;
      var a := Resolve(v, segs).node.items;
      var updated := Obj(parent.fields[Last(segs) := Arr(SpliceSeq(a, index, remove, ins))]);
      assert r.value == PutAt(v, Parent(segs), updated);
      ResolvePutAt(v, Parent(segs), updated);
      ResolveLast(r.value, segs);
    }
  }

  /** The walk along a split path is the walk to its parent, then one step to its last segment. */
  lemma ResolveLast(v: Json, segs: seq<string>)
    requires |segs| >= 1
    ensures Resolve(v, segs) == (match Resolve(v, Parent(segs))
                                 case Missing(k) => Missing(k)
                                 case Reached(parent) =>
                                   match Child(parent, Last(segs))
                                   case None => Missing(Last(segs))
                                   case Some(target) => Reached(target))
  {
    ParentLast(segs);
    ResolveAppend(v, Parent(segs), [Last(segs)]);
    if Resolve(v, Parent(segs)).Reached? {
      assert [Last(segs)][0] == Last(segs) && [Last(segs)][1..] == [];
    }
  }

  /** No splice can go into an empty array: the type check refuses it, if the index check has not. */
  lemma SpliceIntoEmptyArrayFails(v: Json, path: string, index: nat, remove: nat, insert: Json)
    requires Resolve(v, Split(path)) == Reached(Arr([]))
    ensures Applied(Splice(path, index, remove, insert), v).Err?
  {
    if insert.Arr? {
      SpliceOutcome(v, path, index, remove, insert.items);
    }
  }

  /** Removing elements within bounds of a non-empty array always succeeds. */
  lemma RemoveOnlySucceeds(v: Json, path: string, index: nat, remove: nat)
    requires Resolve(v, Split(path)).Reached? && Resolve(v, Split(path)).node.Arr?
    requires 0 < |Resolve(v, Split(path)).node.items| && index + remove <= |Resolve(v, Split(path)).node.items|
    ensures Applied(Splice(path, index, remove, Arr([])), v).Ok?
  {
    SpliceOutcome(v, path, index, remove, []);
  }

  /**
   * Nothing else changes: after a successful non-root operation, every walk along a
   * path that is neither a prefix nor an extension of the operation's path gives what
   * it gave before.
   */
  lemma AppliedElsewhere(op: Operation, v: Json, q: seq<string>)
    requires op.path != "" && Applied(op, v).Ok?
    requires !(Split(op.path) <= q) && !(q <= Split(op.path))
    ensures Resolve(Applied(op, v).value, q) == Resolve(v, q)
  {
    var segs := Split(op.path);
    var p := Parent(segs);
    var parent := Resolve(v, p).node;
    var edited: map<string, Json> :=
      match op
      case Set(_, value) => Edited(parent.fields, Last(segs), value)
      case Splice(_, index, remove, insert) =>
        parent.fields[Last(segs) := Arr(SpliceSeq(parent.fields[Last(segs)].items, index, remove, insert.items))];
    assert Applied(op, v).value == PutAt(v, p, Obj(edited));
    ParentLast(segs);
    if p <= q {
      var rest := q[|p|..];
      assert q == p + rest;
      assert p <= segs;
      assert q != p;
      assert |q| >= |segs|;
      assert q[..|segs|] == p + [rest[0]];
      assert q[..|segs|] != segs;
      ResolveAppend(PutAt(v, p, Obj(edited)), p, rest);
      ResolvePutAt(v, p, Obj(edited));
      ResolveAppend(v, p, rest);
    } else {
      assert p <= segs;
      PutAtElsewhere(v, p, q, Obj(edited));
    }
  }

  /**
   * A successful operation on a non-root path leaves the document an object (a splice
   * or set needs an object at the root to start its walk).
   */
  lemma AppliedKeepsRootObject(op: Operation, v: Json)
    requires op.path != "" && Applied(op, v).Ok?
    ensures v.Obj? && Applied(op, v).value.Obj?
  {
    var segs := Split(op.path);
    if Parent(segs) != [] {
      ResolveNonEmptyStartsAtObject(v, Parent(segs));
    }
  }

  /**
   * Every splice that `try_new_splice` as written lets through fails to apply, on every
   * document: its insert is never an array.
   */
  lemma TryNewSpliceNeverApplies(path: string, index: nat, remove: nat, insert: Json, v: Json)
    requires TryNewSplice(path, index, remove, insert).Ok?
    ensures Applied(TryNewSplice(path, index, remove, insert).value, v) == Err(ValueIsNotArray)
  {
  }

  /**
   * A splice built by the intended check never trips over its own insert: it reports
   * `ValueIsNotArray` only where the document holds a non-array, and on the input that
   * defeats the written check it applies.
   */
  lemma TryNewSpliceIntendedApplies(path: string, index: nat, remove: nat, insert: Json, v: Json)
    requires TryNewSpliceIntended(path, index, remove, insert).Ok?
    ensures Applied(TryNewSpliceIntended(path, index, remove, insert).value, v) == Err(ValueIsNotArray)
            ==> Resolve(v, Split(path)).Reached? && !Resolve(v, Split(path)).node.Arr?
  {
    SpliceOutcome(v, path, index, remove, insert.items);
  }

  /**
   * The input that shows the inverted check: appending `[2]` to the array `x` of
   * `{"x": [1]}` is refused by `try_new_splice`, while the intended check builds the
   * splice and it applies.
   */
  lemma TryNewSpliceCounterexample()
    ensures TryNewSplice("x", 1, 0, Arr([Num(2)])) == Err(ValueIsNotArray)
    ensures TryNewSpliceIntended("x", 1, 0, Arr([Num(2)])).Ok?
    ensures Applied(TryNewSpliceIntended("x", 1, 0, Arr([Num(2)])).value, Obj(map["x" := Arr([Num(1)])]))
            == Ok(Obj(map["x" := Arr([Num(1), Num(2)])]))
  {
    var v := Obj(map["x" := Arr([Num(1)])]);
    SplitUndotted("x");
    assert Parent(["x"]) == [] && Last(["x"]) == "x";
    assert AllOf([Num(1)], NumKind) && AllOf([Num(2)], NumKind);
    assert CheckTypeConsistency([Num(1)], [Num(2)]) == Ok(());
    assert SpliceSeq([Num(1)], 1, 0, [Num(2)]) == [Num(1), Num(2)];
    assert v.fields["x" := Arr([Num(1), Num(2)])] == map["x" := Arr([Num(1), Num(2)])];
  }
}
