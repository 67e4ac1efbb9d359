/**
 * The previous generation's operation constructors and accessors (`avers-otp`). The
 * operation itself has the same two variants as the current library and is shared.
 */
module AversOperation {
  import opened Wrappers
  import opened Json
  import opened OtpOperation

  /** `OperationError`. */
  datatype OperationError = InvalidSetOpError | NotArrayError

  /** `Operation::new_set`: the value is always present. */
  function AversNewSet(path: string, value: Json): (op: Operation)
    ensures op == NewSet(path, value)
  {
    Set(path, Some(value))
  }

  /** `Operation::try_new_set`. */
  function AversTryNewSet(path: string, value: Option<Json>): (r: Result<Operation, OperationError>)
    ensures r.Err? <==> path == "" && value.None?
    ensures r.Err? ==> r.error == InvalidSetOpError
    ensures r.Ok? ==> r.value == Set(path, value)
  {
    if path == "" && value.None? then Err(InvalidSetOpError) else Ok(Set(path, value))
  }

  /** `Operation::try_new_splice`, with the same inverted test as the current library. */
  function AversTryNewSplice(path: string, index: nat, remove: nat, insert: Json): (r: Result<Operation, OperationError>)
    ensures r.Err? <==> insert.Arr?
    ensures r.Err? ==> r.error == NotArrayError
    ensures r.Ok? ==> r.value == Splice(path, index, remove, insert)
  {
    if insert.Arr? then Err(NotArrayError) else Ok(Splice(path, index, remove, insert))
  }

  /** Both generations build the same operations and refuse the same inputs. */
  lemma ConstructorsAgree(path: string, value: Option<Json>, index: nat, remove: nat, insert: Json)
    ensures AversTryNewSet(path, value).Ok? == TryNewSet(path, value).Ok?
    ensures AversTryNewSet(path, value).Ok? ==> AversTryNewSet(path, value).value == TryNewSet(path, value).value
    ensures AversTryNewSplice(path, index, remove, insert).Ok? == TryNewSplice(path, index, remove, insert).Ok?
    ensures AversTryNewSplice(path, index, remove, insert).Ok? ==>
              AversTryNewSplice(path, index, remove, insert).value == TryNewSplice(path, index, remove, insert).value
  {
  }

  /** `p` occurs in `s` starting at position `i`. */
  predicate OccursAt(s: string, p: string, i: nat) {
    i + |p| <= |s| && s[i..i + |p|] == p
  }

  lemma OccursAtTail(s: string, p: string, i: nat)
    requires s != []
    ensures OccursAt(s[1..], p, i) <==> OccursAt(s, p, i + 1)
  {
    if i + 1 + |p| <= |s| {
      assert s[1..][i..i + |p|] == s[i + 1..i + 1 + |p|];
    }
  }

  /** `str::contains`: `p` occurs somewhere in `s`. */
  function Contains(s: string, p: string): (r: bool)
    ensures r <==> exists i: nat :: OccursAt(s, p, i)
    decreases |s|
  {
    if p <= s then
      assert OccursAt(s, p, 0);
      true
    else if s == [] then false
    else
      var r := Contains(s[1..], p);
      assert !OccursAt(s, p, 0);
      assert forall i: nat :: OccursAt(s[1..], p, i) <==> OccursAt(s, p, i + 1) by {
        forall i: nat ensures OccursAt(s[1..], p, i) <==> OccursAt(s, p, i + 1) {
          OccursAtTail(s, p, i);
        }
      }
      assert (exists i: nat :: OccursAt(s, p, i)) ==> exists i: nat :: OccursAt(s[1..], p, i) by {
        if exists i: nat :: OccursAt(s, p, i) {
          var i: nat :| OccursAt(s, p, i);
          assert i > 0;
          assert OccursAt(s[1..], p, i - 1);
        }
      }
      r
  }

  /** `Operation::path_contains`: a substring test on the operation's path. */
  function PathContains(op: Operation, p: string): (r: bool)
    ensures r <==> exists i: nat :: OccursAt(op.path, p, i)
    ensures p <= op.path ==> r
    ensures r ==> |p| <= |op.path|
  {
    Contains(op.path, p)
  }

  /** Containment is weaker than being a prefix: a later segment also counts. */
  lemma PathContainsIsNotPrefix()
    ensures PathContains(Set("foo.bar", None), "bar") && !("bar" <= "foo.bar")
  {
    assert OccursAt("foo.bar", "bar", 4);
    assert "foo.bar"[0] != "bar"[0];
  }
}
