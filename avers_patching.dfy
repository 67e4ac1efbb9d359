/**
 * The previous generation's patching (`avers-otp`): `apply`, its two cursor walks, `op_ot`
 * and `rebase`. It computes what the current library computes with three differences:
 * its own error names, a same-array shift that subtracts the op's `remove` instead of
 * the base's, and panics where the current library returns errors (a failed replay in
 * `rebase`, a non-array base insert or a `usize` underflow in `op_ot`). Panics are
 * preconditions here.
 */
module AversPatching {
  import opened Wrappers
  import opened Json
  import opened Dotted
  import opened OtpPath
  import opened OtpOperation
  import opened OtpRebase
  import AversTypes

  /** `PatchError`; the messages carried by `IndexError` are not modelled. */
  datatype PatchError =
    | InconsistentTypes
    | IndexError
    | KeyError(key: string)
    | NoId
    | PathError(path: string)
    | Unknown
    | ValueIsNotArray

  // ---------------------------------------------------------------------------
  // apply, as a specification

  /**
   * The splice closure of `apply`: the index check, then the element type check. The
   * type check inspects the first elements and then every element exactly as
   * `check_type_consistency` of the current library does, so it is stated through it.
   */
  function Spliced(a: seq<Json>, index: nat, remove: nat, ins: seq<Json>): (r: Result<seq<Json>, PatchError>)
    ensures r.Ok? <==> index + remove <= |a| && |a| > 0 && (|ins| == 0 || Homogeneous(a + ins))
    ensures r == Err(IndexError) <==> |a| < index + remove
    ensures r == Err(PatchError.NoId) <==>
              index + remove <= |a| && |a| > 0 && |ins| > 0 && AllOf(a + ins, ObjKind) && !AllHaveId(a + ins)
    ensures r.Ok? ==> r.value == SpliceSeq(a, index, remove, ins)
  {
    if |a| < index + remove then Err(IndexError)
    else match CheckTypeConsistency(a, ins)
      case Err(e) => if e == Type then Err(InconsistentTypes) else Err(PatchError.NoId)
      case Ok(_) => Ok(SpliceSeq(a, index, remove, ins))
  }

  /** What `change_object` with `ins_or_del` produces. */
  function ObjectChanged(v: Json, segs: seq<string>, value: Option<Json>): Result<Json, PatchError>
    requires |segs| >= 1
  {
    match Resolve(v, Parent(segs))
    case Missing(k) => Err(KeyError(k))
    case Reached(parent) =>
      if parent.Obj? then Ok(PutAt(v, Parent(segs), Obj(Edited(parent.fields, Last(segs), value))))
      else Err(Unknown)
  }

  /** What `change_array` with the splice closure produces. */
  function ArrayChanged(v: Json, segs: seq<string>, index: nat, remove: nat, ins: seq<Json>): Result<Json, PatchError>
    requires |segs| >= 1
  {
    match Resolve(v, Parent(segs))
    case Missing(k) => Err(KeyError(k))
    case Reached(parent) =>
      match Child(parent, Last(segs))
      case None => Err(KeyError(Last(segs)))
      case Some(target) =>
        if !target.Arr? then Err(PatchError.ValueIsNotArray)
        else match Spliced(target.items, index, remove, ins)
          case Err(e) => Err(e)
          case Ok(items) => Ok(PutAt(v, Parent(segs), Obj(parent.fields[Last(segs) := Arr(items)])))
  }

  /** `apply`. A root `Set` without a value is `Unknown`. */
  function Applied(op: Operation, v: Json): (r: Result<Json, PatchError>)
    ensures r.Err? ==> !r.error.PathError?
  {
    match op
    case Set(path, value) =>
      if path == "" then
        if value.Some? then Ok(value.value) else Err(Unknown)
      else ObjectChanged(v, Split(path), value)
    case Splice(path, index, remove, insert) =>
      if !insert.Arr? then Err(PatchError.ValueIsNotArray)
      else ArrayChanged(v, Split(path), index, remove, insert.items)
  }

  // ---------------------------------------------------------------------------
  // apply, as the source computes it

  /** `change_object` with `ins_or_del`: walk the cursor to the parent, then edit its member. */
  method ChangeObject(v: Json, path: string, value: Option<Json>) returns (r: Result<Json, PatchError>)
    ensures r == ObjectChanged(v, Split(path), value)
  {
    var paths := Split(path);
    var keyToChange := paths[|paths| - 1];
    var walk := Descend(v, paths[..|paths| - 1]);
    match walk {
      case Missing(k) =>
        return Err(KeyError(k));
      case Reached(content) =>
        if !content.Obj? {
          return Err(Unknown);
        }
        var o := content.fields;
        match value {
          case Some(x) => o := o[keyToChange := x];
          case None => o := o - {keyToChange};
        }
        return Ok(PutAt(v, paths[..|paths| - 1], Obj(o)));
    }
  }

  /** `change_array` with the splice closure: walk to the parent, splice its member array. */
  method ChangeArray(v: Json, path: string, index: nat, remove: nat, ins: seq<Json>) returns (r: Result<Json, PatchError>)
    ensures r == ArrayChanged(v, Split(path), index, remove, ins)
  {
    var paths := Split(path);
    var keyToChange := paths[|paths| - 1];
    var walk := Descend(v, paths[..|paths| - 1]);
    match walk {
      case Missing(k) =>
        return Err(KeyError(k));
      case Reached(content) =>
        match Child(content, keyToChange) {
          case None =>
            return Err(KeyError(keyToChange));
          case Some(target) =>
            if !target.Arr? {
              return Err(PatchError.ValueIsNotArray);
            }
            var a := target.items;
            if |a| < index + remove {
              return Err(IndexError);
            }
            var check := CheckTypeConsistency(a, ins);
            if check.Err? {
              return if check.error == Type then Err(InconsistentTypes) else Err(PatchError.NoId);
            }
            a := a[..index] + ins + a[index + remove..];
            return Ok(PutAt(v, paths[..|paths| - 1], Obj(content.fields[keyToChange := Arr(a)])));
        }
    }
  }

  /** `apply`. */
  method Apply(v: Json, op: Operation) returns (r: Result<Json, PatchError>)
    ensures r == Applied(op, v)
  {
    match op {
      case Set(path, value) =>
        if path == "" {
          if value.Some? {
            return Ok(value.value);
          }
          return Err(Unknown);
        }
        r := ChangeObject(v, path, value);
      case Splice(path, index, remove, insert) =>
        if !insert.Arr? {
          return Err(PatchError.ValueIsNotArray);
        }
        r := ChangeArray(v, path, index, remove, insert.items);
    }
  }

  // ---------------------------------------------------------------------------
  // What apply promises

  /**
   * Both generations accept the same operations on the same documents and produce the
   * same document; only the error names differ.
   */
  lemma AppliedAgrees(op: Operation, v: Json)
    ensures Applied(op, v).Ok? <==> OtpOperation.Applied(op, v).Ok?
    ensures Applied(op, v).Ok? ==> Applied(op, v).value == OtpOperation.Applied(op, v).value
    ensures forall k :: Applied(op, v) == Err(KeyError(k)) <==> OtpOperation.Applied(op, v) == Err(Key(k))
    ensures Applied(op, v) == Err(IndexError) <==> OtpOperation.Applied(op, v) == Err(Index)
    ensures Applied(op, v) == Err(PatchError.NoId) <==> OtpOperation.Applied(op, v) == Err(OtError.NoId)
    ensures Applied(op, v) == Err(PatchError.ValueIsNotArray) <==> OtpOperation.Applied(op, v) == Err(OtError.ValueIsNotArray)
    ensures Applied(op, v) == Err(Unknown) <==>
              OtpOperation.Applied(op, v) == Err(InvalidOperation) || (op.Set? && OtpOperation.Applied(op, v) == Err(Type))
    ensures Applied(op, v) == Err(InconsistentTypes) <==> op.Splice? && OtpOperation.Applied(op, v) == Err(Type)
  {
    AppliedRenamed(op, v);
  }

  lemma AppliedRenamed(op: Operation, v: Json)
    ensures Applied(op, v) == Renamed(OtpOperation.Applied(op, v), op.Splice?)
  {
    match op
    case Set(path, value) =>
      if path != "" {
        ObjectChangedAgrees(v, Split(path), value);
      }
    case Splice(path, index, remove, insert) =>
      if insert.Arr? {
        ArrayChangedAgrees(v, Split(path), index, remove, insert.items);
      }
  }

  /** This generation's name for an outcome of the current library's walks. */
  function Renamed(r: Result<Json, OtError>, splice: bool): Result<Json, PatchError> {
    match r
    case Ok(x) => Ok(x)
    case Err(Key(k)) => Err(KeyError(k))
    case Err(Index) => Err(IndexError)
    case Err(NoId) => Err(PatchError.NoId)
    case Err(ValueIsNotArray) => Err(PatchError.ValueIsNotArray)
    case Err(Type) => if splice then Err(InconsistentTypes) else Err(Unknown)
    case Err(_) => Err(Unknown)
  }

  lemma ObjectChangedAgrees(v: Json, segs: seq<string>, value: Option<Json>)
    requires |segs| >= 1
    ensures ObjectChanged(v, segs, value) == Renamed(OtpOperation.ObjectChanged(v, segs, value), false)
  {
  }

  lemma ArrayChangedAgrees(v: Json, segs: seq<string>, index: nat, remove: nat, ins: seq<Json>)
    requires |segs| >= 1
    ensures ArrayChanged(v, segs, index, remove, ins) == Renamed(OtpOperation.ArrayChanged(v, segs, index, remove, ins), true)
  {
  }

  // ---------------------------------------------------------------------------
  // op_ot

  /**
   * The calls in `op_ot` that can panic, both in the shift of a splice past a base
   * splice on the same array: the base insert must be an array, and the new index
   * must not underflow.
   */
  predicate OpOtDefined(base: Operation, op: Operation) {
    base.Splice? && op.Splice? && base != op && base.path == op.path && base.index + base.remove <= op.index
    ==> base.insert.Arr? && op.remove <= op.index + |base.insert.items|
  }

  /** The op shifted past a base splice as this generation computes it: by the op's own `remove`. */
  function ShiftedByOwnRemove(base: Operation, op: Operation): (r: Operation)
    requires base.Splice? && op.Splice? && base.insert.Arr? && op.remove <= op.index + |base.insert.items|
    ensures r.Splice? && r.path == op.path && r.remove == op.remove && r.insert == op.insert
    ensures r.index + op.remove == op.index + |base.insert.items|
  {
    op.(index := op.index + |base.insert.items| - op.remove)
  }

  /**
   * `op_ot`. It follows the current library's rule table in every case but one: the
   * shift of a splice past a base splice on the same array.
   */
  function OpOt(content: Json, base: Operation, op: Operation): (r: Option<Operation>)
    requires OpOtDefined(base, op)
    ensures base.Splice? && op.Splice? && base != op && base.path == op.path && base.index + base.remove <= op.index ==>
              r == Some(ShiftedByOwnRemove(base, op))
    ensures !(base.Splice? && op.Splice? && base != op && base.path == op.path && base.index + base.remove <= op.index) ==>
              r == OtpRebase.OpOt(content, base, op)
  {
    if base == op then None
    else if !(op.path <= base.path) && !(base.path <= op.path) then Some(op)
    else match base
      case Set(basePath, _) =>
        if op.Set? then
          (if basePath == op.path then Some(op)
           else if op.path <= basePath then None
           else Some(op))
        else
          (if basePath == op.path then None
           else if op.path <= basePath then None
           else Some(op))
      case Splice(basePath, baseIndex, baseRemove, baseInsert) =>
        if op.Set? then
          (if basePath == op.path then Some(op)
           else if op.path <= basePath then (if Reachable(op.path, content) then Some(op) else None)
           else Some(op))
        else if basePath == op.path then
          (if baseIndex + baseRemove <= op.index then Some(ShiftedByOwnRemove(base, op))
           else if op.index + op.remove < baseIndex then Some(op)
           else None)
        else if op.path <= basePath then
          (if Reachable(op.path, content) then Some(op) else None)
        else None
  }

  /** When both splices remove as many elements, the two generations shift alike. */
  lemma OpOtAgreesOnEqualRemoves(content: Json, base: Operation, op: Operation)
    requires OpOtDefined(base, op)
    requires base.Splice? && op.Splice? ==> base.remove == op.remove
    ensures OpOt(content, base, op) == OtpRebase.OpOt(content, base, op)
  {
  }

  // ---------------------------------------------------------------------------
  // rebase

  /** The operations a list of patches carries, in order. */
  function Operations(patches: seq<AversTypes.Patch>): (ops: seq<Operation>)
    ensures |ops| == |patches|
    ensures forall i :: 0 <= i < |patches| ==> ops[i] == patches[i].operation
  {
    seq(|patches|, i requires 0 <= i < |patches| => patches[i].operation)
  }

  /**
   * `rebase` does not panic: every patch it replays applies, and `op_ot` does not panic.
   * Once the op has been dropped, the next patch is still replayed before `op?` returns.
   */
  predicate RebaseDefined(content: Json, op: Option<Operation>, ops: seq<Operation>)
    decreases |ops|
  {
    ops == [] ||
    (Applied(ops[0], content).Ok? &&
     (op.None? ||
      (OpOtDefined(ops[0], op.value) &&
       RebaseDefined(Applied(ops[0], content).value, OpOt(Applied(ops[0], content).value, ops[0], op.value), ops[1..]))))
  }

  /** The op `rebase` returns, from the op transformed so far. */
  function Rebased(content: Json, op: Option<Operation>, ops: seq<Operation>): Option<Operation>
    requires RebaseDefined(content, op, ops)
    decreases |ops|
  {
    if ops == [] || op.None? then op
    else
      var next := Applied(ops[0], content).value;
      Rebased(next, OpOt(next, ops[0], op.value), ops[1..])
  }

  /** `rebase`: replay each patch, transforming the op against it, and give up once it is dropped. */
  method Rebase(content: Json, op: Operation, patches: seq<AversTypes.Patch>) returns (r: Option<Operation>)
    requires RebaseDefined(content, Some(op), Operations(patches))
    ensures r == Rebased(content, Some(op), Operations(patches))
  {
    var ops := Operations(patches);
    var newContent := content;
    var o: Option<Operation> := Some(op);
    var i := 0;
    while i < |patches|
      invariant 0 <= i <= |patches|
      invariant RebaseDefined(newContent, o, ops[i..])
      invariant Rebased(newContent, o, ops[i..]) == Rebased(content, Some(op), ops)
    {
      assert ops[i..][0] == patches[i].operation && ops[i..][1..] == ops[i + 1..];
      var applied := Apply(newContent, patches[i].operation);
      newContent := applied.value;
      if o.None? {
        return None;
      }
      o := OpOt(newContent, patches[i].operation, o.value);
      i := i + 1;
    }
    assert ops[i..] == [];
    return o;
  }

  // ---------------------------------------------------------------------------
  // What rebase promises

  /** Replaying the patches alone, as the store does after accepting them. */
  function Replayed(content: Json, ops: seq<Operation>): Result<Json, PatchError>
    decreases |ops|
  {
    if ops == [] then Ok(content)
    else match Applied(ops[0], content)
      case Err(e) => Err(e)
      case Ok(next) => Replayed(next, ops[1..])
  }

  /** An applied splice carried an array insert. */
  lemma AppliedSpliceHasArrayInsert(op: Operation, v: Json)
    requires op.Splice? && Applied(op, v).Ok?
    ensures op.insert.Arr?
  {
  }

  /**
   * The panics `rebase` documents are the only ones for sets and pure insertions: when
   * the patches replay cleanly and the op removes nothing, rebase is defined. (A splice
   * that removes can still underflow in the shift.)
   */
  lemma {:induction false} RebaseDefinedWhenReplayed(content: Json, op: Option<Operation>, ops: seq<Operation>)
    requires Replayed(content, ops).Ok?
    requires op.Some? ==> op.value.Set? || op.value.remove == 0
    ensures RebaseDefined(content, op, ops)
    decreases |ops|
  {
    if ops != [] && op.Some? {
      var next := Applied(ops[0], content).value;
      if ops[0].Splice? {
        AppliedSpliceHasArrayInsert(ops[0], content);
      }
      assert OpOtDefined(ops[0], op.value);
      var o := OpOt(next, ops[0], op.value);
      assert o.Some? ==> o.value.Set? == op.value.Set? && (o.value.Splice? ==> o.value.remove == op.value.remove);
      RebaseDefinedWhenReplayed(next, o, ops[1..]);
    }
  }

  /** An op that has been dropped stays dropped. */
  lemma {:induction false} DroppedStaysDropped(content: Json, ops: seq<Operation>)
    requires RebaseDefined(content, None, ops)
    ensures Rebased(content, None, ops).None?
  {
  }

  /** The rebased op keeps the original op's path and kind. */
  lemma {:induction false} RebasedKeepsPathAndKind(content: Json, op: Option<Operation>, ops: seq<Operation>)
    requires RebaseDefined(content, op, ops)
    requires Rebased(content, op, ops).Some?
    ensures op.Some?
    ensures Rebased(content, op, ops).value.path == op.value.path
    ensures Rebased(content, op, ops).value.Set? == op.value.Set?
    decreases |ops|
  {
    if ops != [] && op.Some? {
      var next := Applied(ops[0], content).value;
      RebasedKeepsPathAndKind(next, OpOt(next, ops[0], op.value), ops[1..]);
    }
  }

  // ---------------------------------------------------------------------------
  // The same-array shift

  /** `{"array": [1, 2, 3, 4, 5]}` and the two splices of the shift example below. */
  const ShiftItems: seq<Json> := [Num(1), Num(2), Num(3), Num(4), Num(5)]
  const ShiftContent: Json := Obj(map["array" := Arr(ShiftItems)])
  const ShiftBase: Operation := Splice("array", 1, 2, Arr([Num(10), Num(20)]))
  const ShiftOp: Operation := Splice("array", 3, 1, Arr([Num(30), Num(40)]))

  /** The array after the base splice: `[1, 10, 20, 4, 5]`. */
  const ShiftAfter: seq<Json> := [Num(1), Num(10), Num(20), Num(4), Num(5)]

  /** The base splice passes the checks of the splice closure. */
  lemma ShiftBaseSpliced()
    ensures Spliced(ShiftItems, 1, 2, [Num(10), Num(20)]) == Ok(ShiftAfter)
  {
    var ins := [Num(10), Num(20)];
    assert AllOf(ShiftItems + ins, NumKind);
    assert SpliceSeq(ShiftItems, 1, 2, ins) == ShiftAfter;
  }

  /** The content after the base splice: `{"array": [1, 10, 20, 4, 5]}`. */
  lemma ShiftBaseApplied()
    ensures Applied(ShiftBase, ShiftContent) == Ok(Obj(map["array" := Arr(ShiftAfter)]))
  {
    SplitUndotted("array");
    assert Parent(["array"]) == [] && Last(["array"]) == "array";
    assert Resolve(ShiftContent, []) == Reached(ShiftContent);
    assert Child(ShiftContent, "array") == Some(Arr(ShiftItems));
    ShiftBaseSpliced();
    assert ShiftContent.fields["array" := Arr(ShiftAfter)] == map["array" := Arr(ShiftAfter)];
  }

  /**
   * Rebasing `Splice("array", 3, 1, [30, 40])` through `Splice("array", 1, 2, [10, 20])`
   * on `{"array": [1, 2, 3, 4, 5]}` yields index 4, so the rebased op removes `5` where
   * the original op removed `4`; the current library's shift yields index 3, which
   * still holds `4`.
   */
  lemma ShiftByOwnRemoveMissesTarget()
    ensures RebaseDefined(ShiftContent, Some(ShiftOp), [ShiftBase])
    ensures Rebased(ShiftContent, Some(ShiftOp), [ShiftBase]) == Some(ShiftOp.(index := 4))
    ensures ShiftAfter[4] != ShiftItems[3]
    ensures OtpRebase.OpOt(Obj(map["array" := Arr(ShiftAfter)]), ShiftBase, ShiftOp) == Some(ShiftOp.(index := 3))
    ensures ShiftAfter[3] == ShiftItems[3]
  {
    ShiftBaseApplied();
    assert [ShiftBase][1..] == [];
  }
}
