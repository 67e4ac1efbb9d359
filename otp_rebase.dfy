/**
 * Transforming a client operation against operations already committed concurrently:
 * `op_ot` keeps, shifts or drops it against one base operation, and `rebase` folds
 * `op_ot` over the committed operations while replaying them on the content.
 * Path relations are plain string prefixes (`starts_with`), so `"foo"` is a prefix of
 * `"foobar"` as much as of `"foo.bar"`.
 */
module OtpRebase {
  import opened Wrappers
  import opened Json
  import opened Dotted
  import opened OtpPath
  import opened OtpOperation

  /** Neither path is a string prefix of the other. */
  predicate Disjoint(a: string, b: string) {
    !(a <= b) && !(b <= a)
  }

  /** The op shifted right past a base splice on the same array. */
  function Shifted(base: Operation, op: Operation): (r: Operation)
    requires base.Splice? && op.Splice? && base.insert.Arr? && base.index + base.remove <= op.index
    ensures r.Splice? && r.path == op.path && r.remove == op.remove && r.insert == op.insert
    ensures r.index + base.remove == op.index + |base.insert.items|
  {
    op.(index := op.index + |base.insert.items| - base.remove)
  }

  /**
   * `op_ot(content, base, op)`, where `content` is the document after `base`.
   * The contract is the rule table: what is dropped, what is kept, and the one case
   * (a splice after a base splice on the same array) where the op is rewritten.
   */
  function OpOt(content: Json, base: Operation, op: Operation): (r: Option<Operation>)
    // duplicates are dropped; disjoint paths are kept
    ensures base == op ==> r.None?
    ensures base != op && Disjoint(base.path, op.path) ==> r == Some(op)
    // the op keeps its kind and path; only a same-path splice after a splice is rewritten
    ensures r.Some? ==> r.value.path == op.path && r.value.Set? == op.Set?
    ensures r.Some? && r.value != op ==>
              base.Splice? && op.Splice? && base.path == op.path && base.insert.Arr?
              && base.index + base.remove <= op.index && r.value == Shifted(base, op)
    // Set after Set: dropped exactly when the op's path is a proper prefix of the base's
    ensures base.Set? && op.Set? && base != op ==>
              (r.None? <==> base.path != op.path && op.path <= base.path)
    // Splice after Set: dropped exactly when the op's path is a prefix of the base's
    ensures base.Set? && op.Splice? ==> (r.None? <==> op.path <= base.path)
    // Set after Splice: dropped exactly when the op's path is a proper prefix of the base's and unreachable
    ensures base.Splice? && op.Set? ==>
              (r.None? <==> base.path != op.path && op.path <= base.path && !Reachable(op.path, content))
    // Splice after Splice on different paths: kept when disjoint, or when the op's path
    // is a prefix of the base's and reachable
    ensures base.Splice? && op.Splice? && base.path != op.path ==>
              (r.Some? <==> Disjoint(base.path, op.path) || (op.path <= base.path && Reachable(op.path, content)))
    // Splice after Splice on the same array: shifted when entirely after, kept when
    // entirely before, dropped when the ranges meet or the base insert is not an array
    ensures base.Splice? && op.Splice? && base.path == op.path && base != op ==>
              r == (if base.index + base.remove <= op.index then
                      (if base.insert.Arr? then Some(Shifted(base, op)) else None)
                    else if op.index + op.remove < base.index then Some(op)
                    else None)
  {
    if base == op then None
    else if !(op.path <= base.path) && !(base.path <= op.path) then Some(op)
    else
      var samePath := base.path == op.path;
      var baseContainsOp := op.path <= base.path;
      match base
      case Set(_, _) =>
        if op.Set? then
          (if !samePath && baseContainsOp then None else Some(op))
        else
          (if samePath || baseContainsOp then None else Some(op))
      case Splice(basePath, baseIndex, baseRemove, baseInsert) =>
        if op.Set? then
          (if samePath then Some(op)
           else if baseContainsOp && !Reachable(op.path, content) then None
           else Some(op))
        else if basePath != op.path then
          (if baseContainsOp && Reachable(op.path, content) then Some(op) else None)
        else if baseIndex + baseRemove <= op.index then
          (if baseInsert.Arr? then Some(Shifted(base, op)) else None)
        else if op.index + op.remove < baseIndex then Some(op)
        else None
  }

  /**
   * Replaying the committed operations in order, as `rebase` does while it transforms:
   * the content after each one and the op transformed so far, or the failure.
   */
  function RebaseRun(content: Json, op: Option<Operation>, ops: seq<Operation>): Result<(Json, Option<Operation>), OtError>
    decreases |ops|
  {
    if ops == [] then Ok((content, op))
    else match Applied(ops[0], content)
      case Err(_) => Err(RebaseFailed(PatchFailed))
      case Ok(next) =>
        if op.None? then Err(RebaseFailed(Rejected))
        else RebaseRun(next, OpOt(next, ops[0], op.value), ops[1..])
  }

  /** The result `rebase` returns: the transformed op, `None` if it was dropped, or the failure. */
  function Rebased(content: Json, op: Operation, ops: seq<Operation>): Result<Option<Operation>, OtError> {
    match RebaseRun(content, Some(op), ops)
    case Err(e) => Err(e)
    case Ok((_, o)) => Ok(o)
  }

  /** `rebase`: replay each committed operation, transforming `op` against it. */
  method Rebase(content: Json, op: Operation, ops: seq<Operation>) returns (r: Result<Option<Operation>, OtError>)
    ensures r == Rebased(content, op, ops)
  {
    var current := content;
    var o: Option<Operation> := Some(op);
    var i := 0;
    while i < |ops|
      invariant 0 <= i <= |ops|
      invariant RebaseRun(current, o, ops[i..]) == RebaseRun(content, Some(op), ops)
    {
      assert ops[i..][0] == ops[i] && ops[i..][1..] == ops[i + 1..];
      var applied := ApplyTo(ops[i], current);
      match applied {
        case Err(_) =>
          return Err(RebaseFailed(PatchFailed));
        case Ok(next) =>
          current := next;
          if o.None? {
            return Err(RebaseFailed(Rejected));
          }
          o := OpOt(current, ops[i], o.value);
      }
      i := i + 1;
    }
    assert ops[i..] == [];
    return Ok(o);
  }

  // ---------------------------------------------------------------------------
  // What rebase promises

  /** Replaying `p + q` is replaying `p`, then replaying `q` from where `p` left off. */
  lemma {:induction false} RebaseRunAppend(content: Json, op: Option<Operation>, p: seq<Operation>, q: seq<Operation>)
    ensures RebaseRun(content, op, p + q)
            == (match RebaseRun(content, op, p)
                case Err(e) => Err(e)
                case Ok((c, o)) => RebaseRun(c, o, q))
    decreases |p|
  {
    if p == [] {
      assert p + q == q;
    } else {
      assert (p + q)[0] == p[0] && (p + q)[1..] == p[1..] + q;
      match Applied(p[0], content) {
        case Err(_) =>
        case Ok(next) =>
          if op.Some? {
            RebaseRunAppend(next, OpTransformed(next, p[0], op), p[1..], q);
          }
      }
    }
  }

  /** The op after one step of the fold. */
  function OpTransformed(content: Json, base: Operation, op: Option<Operation>): Option<Operation>
    requires op.Some?
  {
    OpOt(content, base, op.value)
  }

  /** Rebasing through no operations returns the op unchanged. */
  lemma RebaseEmpty(content: Json, op: Operation)
    ensures Rebased(content, op, []) == Ok(Some(op))
  {
  }

  /** Once the op is dropped, any further committed operation makes the rebase fail. */
  lemma {:induction false} DroppedThenFails(content: Json, ops: seq<Operation>)
    requires ops != []
    ensures RebaseRun(content, None, ops).Err?
  {
  }

  /**
   * If some committed operation does not apply to the content replayed so far, the
   * rebase fails, unless the op had already been dropped earlier (which fails too).
   */
  lemma {:induction false} FailedReplayFails(content: Json, op: Option<Operation>, ops: seq<Operation>)
    requires Replayed(content, ops).Err?
    ensures RebaseRun(content, op, ops).Err?
    decreases |ops|
  {
    match Applied(ops[0], content) {
      case Err(_) =>
      case Ok(next) =>
        if op.Some? {
          FailedReplayFails(next, OpTransformed(next, ops[0], op), ops[1..]);
        }
    }
  }

  /** The committed operations applied one after another. */
  function Replayed(content: Json, ops: seq<Operation>): Result<Json, OtError>
    decreases |ops|
  {
    if ops == [] then Ok(content)
    else match Applied(ops[0], content)
      case Err(e) => Err(e)
      case Ok(next) => Replayed(next, ops[1..])
  }

  /** A successful rebase replayed every committed operation cleanly, ending at `Replayed`. */
  lemma {:induction false} RebaseRunReplays(content: Json, op: Option<Operation>, ops: seq<Operation>)
    requires RebaseRun(content, op, ops).Ok?
    ensures Replayed(content, ops).Ok? && RebaseRun(content, op, ops).value.0 == Replayed(content, ops).value
    decreases |ops|
  {
    if ops != [] {
      var next := Applied(ops[0], content).value;
      RebaseRunReplays(next, OpTransformed(next, ops[0], op), ops[1..]);
    }
  }

  /**
   * `Ok(None)` comes only from a drop at the very last committed operation: up to it
   * the op survived, and the last `op_ot` dropped it.
   */
  lemma OkNoneOnlyAtLast(content: Json, op: Operation, ops: seq<Operation>)
    requires Rebased(content, op, ops) == Ok(None)
    ensures ops != []
    ensures var run := RebaseRun(content, Some(op), ops[..|ops| - 1]);
            && run.Ok? && run.value.1.Some?
            && Applied(ops[|ops| - 1], run.value.0).Ok?
            && OpOt(Applied(ops[|ops| - 1], run.value.0).value, ops[|ops| - 1], run.value.1.value).None?
  {
    var init := ops[..|ops| - 1];
    var last := ops[|ops| - 1];
    assert ops == init + [last];
    RebaseRunAppend(content, Some(op), init, [last]);
  }

  /**
   * A rebased op keeps the path and kind it was created with, and a `Set` comes back
   * exactly as it was submitted.
   */
  lemma {:induction false} RebasePreservesPathAndKind(content: Json, op: Option<Operation>, ops: seq<Operation>)
    requires op.Some? && RebaseRun(content, op, ops).Ok? && RebaseRun(content, op, ops).value.1.Some?
    ensures var o := RebaseRun(content, op, ops).value.1.value;
            o.path == op.value.path && o.Set? == op.value.Set? && (op.value.Set? ==> o == op.value)
    decreases |ops|
  {
    if ops != [] {
      var next := Applied(ops[0], content).value;
      RebasePreservesPathAndKind(next, OpTransformed(next, ops[0], op), ops[1..]);
    }
  }

  /**
   * A splice shifted past an earlier splice of the same array removes the very elements
   * it meant to remove, and the two edits together give what applying the op first and
   * the base after it would give.
   */
  lemma ShiftedSpliceTargetsSameElements(a: seq<Json>, base: Operation, op: Operation)
    requires base.Splice? && op.Splice? && base.insert.Arr? && op.insert.Arr?
    requires base.index + base.remove <= op.index && op.index + op.remove <= |a|
    ensures var b := SpliceSeq(a, base.index, base.remove, base.insert.items);
            var s := Shifted(base, op);
            && s.index + s.remove <= |b|
            && b[s.index..s.index + s.remove] == a[op.index..op.index + op.remove]
            && SpliceSeq(b, s.index, s.remove, op.insert.items)
               == SpliceSeq(SpliceSeq(a, op.index, op.remove, op.insert.items), base.index, base.remove, base.insert.items)
  {
    SplicesCommute(a, base.index, base.remove, base.insert.items, op.index, op.remove, op.insert.items);
  }

  /** The two splices on plain sequences: `[bi, bi + br)` lies before `[oi, oi + or)`. */
  lemma SplicesCommute<T>(a: seq<T>, bi: nat, br: nat, bins: seq<T>, oi: nat, or: nat, oins: seq<T>)
    requires bi + br <= oi && oi + or <= |a|
    ensures var b := a[..bi] + bins + a[bi + br..];
            var si := oi + |bins| - br;
            && si + or <= |b|
            && b[si..si + or] == a[oi..oi + or]
            && SpliceSeq(b, si, or, oins) == SpliceSeq(SpliceSeq(a, oi, or, oins), bi, br, bins)
  {
    var front := a[..bi] + bins + a[bi + br..oi];
    var b := a[..bi] + bins + a[bi + br..];
    var si := oi + |bins| - br;
    BaseSpliceSplit(a, bi, br, bins, oi);
    assert b == front + a[oi..];
    assert |front| == si;
    SliceAfterPrefix(front, a[oi..], or);
    assert a[oi..][..or] == a[oi..oi + or];
    assert a[oi..][or..] == a[oi + or..];
    SplicesCommuteResult(a, bi, br, bins, oi, or, oins);
  }

  /** The sequence both orders of the two splices produce. */
  lemma SplicesCommuteResult<T>(a: seq<T>, bi: nat, br: nat, bins: seq<T>, oi: nat, or: nat, oins: seq<T>)
    requires bi + br <= oi && oi + or <= |a|
    ensures var b := a[..bi] + bins + a[bi + br..];
            var si := oi + |bins| - br;
            && si + or <= |b|
            && SpliceSeq(b, si, or, oins) == a[..bi] + bins + a[bi + br..oi] + oins + a[oi + or..]
            && SpliceSeq(SpliceSeq(a, oi, or, oins), bi, br, bins) == a[..bi] + bins + a[bi + br..oi] + oins + a[oi + or..]
  {
    var front := a[..bi] + bins + a[bi + br..oi];
    var b := a[..bi] + bins + a[bi + br..];
    var si := oi + |bins| - br;
    BaseSpliceSplit(a, bi, br, bins, oi);
    SliceAfterPrefix(front, a[oi..], or);
    assert b[..si] == front;
    assert b[si + or..] == a[oi + or..];
    var c := a[..oi] + oins + a[oi + or..];
    OpSpliceSplit(a, bi, br, oi, or, oins);
    assert SpliceSeq(a, oi, or, oins) == c;
    assert SpliceSeq(c, bi, br, bins) == a[..bi] + bins + (a[bi + br..oi] + oins + a[oi + or..]);
  }

  /** After the base splice, everything up to the op's (shifted) start is the base's work. */
  lemma BaseSpliceSplit<T>(a: seq<T>, bi: nat, br: nat, bins: seq<T>, oi: nat)
    requires bi + br <= oi <= |a|
    ensures a[..bi] + bins + a[bi + br..] == (a[..bi] + bins + a[bi + br..oi]) + a[oi..]
  {
    assert a[bi + br..] == a[bi + br..oi] + a[oi..];
  }

  /** Cutting `x + y` inside `y`. */
  lemma SliceAfterPrefix<T>(x: seq<T>, y: seq<T>, n: nat)
    requires n <= |y|
    ensures (x + y)[..|x|] == x
    ensures (x + y)[|x|..|x| + n] == y[..n]
    ensures (x + y)[|x| + n..] == y[n..]
  {
  }

  /** Splicing the base into the array the op already changed gives the same sequence. */
  lemma OpSpliceSplit<T>(a: seq<T>, bi: nat, br: nat, oi: nat, or: nat, oins: seq<T>)
    requires bi + br <= oi && oi + or <= |a|
    ensures var c := a[..oi] + oins + a[oi + or..];
            c[..bi] == a[..bi] && c[bi + br..] == a[bi + br..oi] + oins + a[oi + or..]
  {
    var c := a[..oi] + oins + a[oi + or..];
    assert a[..oi] == a[..bi + br] + a[bi + br..oi];
    assert c == a[..bi + br] + (a[bi + br..oi] + oins + a[oi + or..]);
    SliceAfterPrefix(a[..bi + br], a[bi + br..oi] + oins + a[oi + or..], 0);
    assert a[..bi + br][..bi] == a[..bi];
  }

  /**
   * A splice entirely before an earlier splice of the same array is kept unchanged: the
   * elements it removes are untouched by the base.
   */
  lemma KeptSpliceTargetsSameElements(a: seq<Json>, base: Operation, op: Operation)
    requires base.Splice? && op.Splice? && base.insert.Arr? && op.index + op.remove < base.index
    requires base.index + base.remove <= |a|
    ensures var b := SpliceSeq(a, base.index, base.remove, base.insert.items);
            && op.index + op.remove <= |b|
            && b[op.index..op.index + op.remove] == a[op.index..op.index + op.remove]
  {
    var b := SpliceSeq(a, base.index, base.remove, base.insert.items);
    assert b[..base.index] == a[..base.index];
    assert b[op.index..op.index + op.remove] == b[..base.index][op.index..op.index + op.remove];
  }

  /**
   * The string-prefix test relates keys that share only leading characters: after a
   * splice of `"foobar"`, a set of the missing key `"foo"` is dropped although the two
   * members are unrelated.
   */
  lemma TextualPrefixDropsUnrelatedKey()
    ensures var content := Obj(map["foobar" := Arr([Num(1), Num(2)])]);
            OpOt(content, Splice("foobar", 0, 0, Arr([Num(2)])), Set("foo", Some(Num(1)))).None?
  {
    var content := Obj(map["foobar" := Arr([Num(1), Num(2)])]);
    SplitUndotted("foo");
    assert "foo" <= "foobar";
    assert !Reachable("foo", content);
  }
}
