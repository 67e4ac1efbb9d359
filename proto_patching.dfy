/**
 * The prototype's `apply` (`src/otp`): the same cursor walks as the later generations,
 * but a root `Set` leaves the document as it is and a splice checks only its range,
 * not the kinds of the elements. Its `op_ot` and `rebase` exist only as comments and
 * are not part of this model.
 */
module ProtoPatching {
  import opened Wrappers
  import opened Json
  import opened Dotted
  import OtpOperation
  import opened ProtoTypes
  import AversPatching

  /** `PatchError`; the messages carried by `IndexError` are not modelled. */
  datatype PatchError =
    | InconsistentTypes
    | IndexError
    | KeyError(key: string)
    | NoId
    | Unknown
    | ValueIsNotArray

  /** What `change_object` with `ins_or_del` produces. */
  function ObjectChanged(v: Json, segs: seq<string>, value: Option<Json>): Result<Json, PatchError>
    requires |segs| >= 1
  {
    match Resolve(v, OtpOperation.Parent(segs))
    case Missing(k) => Err(KeyError(k))
    case Reached(parent) =>
      if parent.Obj? then Ok(PutAt(v, OtpOperation.Parent(segs), Obj(OtpOperation.Edited(parent.fields, OtpOperation.Last(segs), value))))
      else Err(Unknown)
  }

  /** What `change_array` with the range-checking splice closure produces. */
  function ArrayChanged(v: Json, segs: seq<string>, index: nat, remove: nat, ins: seq<Json>): Result<Json, PatchError>
    requires |segs| >= 1
  {
    match Resolve(v, OtpOperation.Parent(segs))
    case Missing(k) => Err(KeyError(k))
    case Reached(parent) =>
      match Child(parent, OtpOperation.Last(segs))
      case None => Err(KeyError(OtpOperation.Last(segs)))
      case Some(target) =>
        if !target.Arr? then Err(PatchError.ValueIsNotArray)
        else if |target.items| < index + remove then Err(IndexError)
        else Ok(PutAt(v, OtpOperation.Parent(segs), Obj(parent.fields[OtpOperation.Last(segs) := Arr(SpliceSeq(target.items, index, remove, ins))])))
  }

  /** `apply`. */
  function Applied(op: Operation, v: Json): (r: Result<Json, PatchError>)
    ensures op.Set? && op.path == "" ==> r == Ok(v)
    ensures r.Err? ==> r.error.KeyError? || r.error == IndexError || r.error == Unknown || r.error == PatchError.ValueIsNotArray
  {
    match op
    case Set(path, value) =>
      if path == "" then Ok(v)
      else ObjectChanged(v, Split(path), value)
    case Splice(path, index, remove, insert) =>
      ArrayChanged(v, Split(path), index, remove, insert)
  }

  /** `change_object` with `ins_or_del`: pop the last key, walk to its parent, edit the member. */
  method ChangeObject(v: Json, path: string, value: Option<Json>) returns (r: Result<Json, PatchError>)
    ensures r == ObjectChanged(v, Split(path), value)
  {
    var paths := Split(path);
    var keyToChange := paths[|paths| - 1];
    paths := paths[..|paths| - 1];
    var walk := Descend(v, paths);
    match walk {
      case Missing(k) =>
        return Err(KeyError(k));
      case Reached(content) =>
        if !content.Obj? {
          return Err(Unknown);
        }
        var o := content.fields;
        match value {
          case Some(x) => o := o[keyToChange := x];
          case None => o := o - {keyToChange};
        }
        return Ok(PutAt(v, paths, Obj(o)));
    }
  }

  /** `change_array` with the splice closure: pop the last key, walk to its parent, splice the member. */
  method ChangeArray(v: Json, path: string, index: nat, remove: nat, ins: seq<Json>) returns (r: Result<Json, PatchError>)
    ensures r == ArrayChanged(v, Split(path), index, remove, ins)
  {
    var paths := Split(path);
    var keyToChange := paths[|paths| - 1];
    paths := paths[..|paths| - 1];
    var walk := Descend(v, paths);
    match walk {
      case Missing(k) =>
        return Err(KeyError(k));
      case Reached(content) =>
        match Child(content, keyToChange) {
          case None =>
            return Err(KeyError(keyToChange));
          case Some(target) =>
            if !target.Arr? {
              return Err(PatchError.ValueIsNotArray);
            }
            var a := target.items;
            if |a| < index + remove {
              return Err(IndexError);
            }
            a := a[..index] + ins + a[index + remove..];
            return Ok(PutAt(v, paths, Obj(content.fields[keyToChange := Arr(a)])));
        }
    }
  }

  /** `apply`. */
  method Apply(v: Json, op: Operation) returns (r: Result<Json, PatchError>)
    ensures r == Applied(op, v)
  {
    match op {
      case Set(path, value) =>
        if path == "" {
          return Ok(v);
        }
        r := ChangeObject(v, path, value);
      case Splice(path, index, remove, insert) =>
        r := ChangeArray(v, path, index, remove, insert);
    }
  }

  // ---------------------------------------------------------------------------
  // How the prototype relates to the later generations

  /**
   * Off the root, the prototype accepts everything the previous generation accepts and
   * produces the same document; a `Set` it handles exactly alike.
   */
  lemma AcceptsWhatLaterGenerationsAccept(op: Operation, v: Json)
    requires !(op.Set? && op.path == "")
    requires AversPatching.Applied(Lift(op), v).Ok?
    ensures Applied(op, v) == Ok(AversPatching.Applied(Lift(op), v).value)
  {
  }

  /**
   * Off the root, a `Set` fails in the prototype exactly when it fails in the previous
   * generation, with the same error: a missing key, or `Unknown` for a non-object parent.
   */
  lemma SetAgrees(op: Operation, v: Json)
    requires op.Set? && op.path != ""
    ensures Applied(op, v).Ok? <==> AversPatching.Applied(Lift(op), v).Ok?
    ensures forall k :: Applied(op, v) == Err(KeyError(k)) <==> AversPatching.Applied(Lift(op), v) == Err(AversPatching.KeyError(k))
    ensures Applied(op, v) == Err(Unknown) <==> AversPatching.Applied(Lift(op), v) == Err(AversPatching.Unknown)
  {
  }

  /**
   * A splice succeeds in the prototype exactly when its path leads to an array that is
   * long enough: nothing is said about the elements.
   */
  lemma SpliceChecksOnlyTheRange(v: Json, path: string, index: nat, remove: nat, ins: seq<Json>)
    requires path != ""
    ensures var segs := Split(path);
            Applied(Splice(path, index, remove, ins), v).Ok? <==>
              Resolve(v, segs).Reached? && Resolve(v, segs).node.Arr? && index + remove <= |Resolve(v, segs).node.items|
  {
    var segs := Split(path);
    OtpOperation.ParentLast(segs);
    ResolveAppend(v, OtpOperation.Parent(segs), [OtpOperation.Last(segs)]);
  }

  /**
   * What a splice does in the prototype: a missing key on the way or at the end is a
   * `KeyError` naming it, a non-array target is `ValueIsNotArray`, a target shorter than
   * `index + remove` is `IndexError`, and otherwise the target holds the spliced array,
   * whatever the kinds of its elements.
   */
  lemma SpliceOutcome(v: Json, path: string, index: nat, remove: nat, ins: seq<Json>)
    ensures var segs := Split(path);
            var r := Applied(Splice(path, index, remove, ins), v);
            && (forall k :: r == Err(KeyError(k)) <==> Resolve(v, segs) == Missing(k))
            && (r == Err(PatchError.ValueIsNotArray) <==> Resolve(v, segs).Reached? && !Resolve(v, segs).node.Arr?)
            && (r == Err(IndexError) <==> (Resolve(v, segs).Reached? && Resolve(v, segs).node.Arr?
                                          && |Resolve(v, segs).node.items| < index + remove))
            && (r.Ok? <==> (Resolve(v, segs).Reached? && Resolve(v, segs).node.Arr?
                            && index + remove <= |Resolve(v, segs).node.items|))
            && (r.Ok? ==>
                  var a := Resolve(v, segs).node.items;
                  Resolve(r.value, segs) == Reached(Arr(a[..index] + ins + a[index + remove..])))
  {
    var segs := Split(path);
    OtpOperation.ResolveLast(v, segs);
    var r := Applied(Splice(path, index, remove, ins), v);
    assert r == ArrayChanged(v, segs, index, remove, ins);
    if r.Ok? {
      var parent := Resolve(v, OtpOperation.Parent(segs)).node;
      var a := Resolve(v, segs).node.items;
      var updated := Obj(parent.fields[OtpOperation.Last(segs) := Arr(SpliceSeq(a, index, remove, ins))]);
      assert r.value == PutAt(v, OtpOperation.Parent(segs), updated);
      ResolvePutAt(v, OtpOperation.Parent(segs), updated);
      OtpOperation.ResolveLast(r.value, segs);
    }
  }

  /**
   * Splicing a string into an array of numbers: the prototype accepts it, both later
   * generations refuse it as inconsistently typed.
   */
  lemma MixedKindsAccepted()
    ensures var v := Obj(map["x" := Arr([Num(1)])]);
            var op := Splice("x", 1, 0, [Str("a")]);
            && Applied(op, v) == Ok(Obj(map["x" := Arr([Num(1), Str("a")])]))
            && AversPatching.Applied(Lift(op), v) == Err(AversPatching.InconsistentTypes)
            && OtpOperation.Applied(Lift(op), v) == Err(OtpOperation.Type)
  {
    var v := Obj(map["x" := Arr([Num(1)])]);
    SplitUndotted("x");
    assert OtpOperation.Parent(["x"]) == [] && OtpOperation.Last(["x"]) == "x";
    assert SpliceSeq([Num(1)], 1, 0, [Str("a")]) == [Num(1), Str("a")];
    assert v.fields["x" := Arr([Num(1), Str("a")])] == map["x" := Arr([Num(1), Str("a")])];
    assert KindOf(Num(1)) != KindOf(Str("a"));
  }
}
