/**
 * Dot-separated paths. Every generation cuts a path with Rust's `str::split('.')`,
 * which always yields at least one piece: `""` gives `[""]`, `"a."` gives `["a", ""]`.
 */
module Dotted {

  /** No piece of a split path contains the separator. */
  ghost predicate Undotted(segs: seq<string>) {
    forall k :: 0 <= k < |segs| ==> '.' !in segs[k]
  }

  /** `path.split('.').collect()`. */
  function Split(path: string): (segs: seq<string>)
    ensures |segs| >= 1
    decreases |path|
  {
    if path == [] then [""]
    else
      var rest := Split(path[1..]);
      if path[0] == '.' then [""] + rest
      else [[path[0]] + rest[0]] + rest[1..]
  }

  /** The pieces put back together with `.` between them. */
  function Join(segs: seq<string>): string
    requires |segs| >= 1
    decreases |segs|
  {
    if |segs| == 1 then segs[0] else segs[0] + "." + Join(segs[1..])
  }

  /** Splitting loses nothing: joining the pieces gives the path back. */
  lemma {:induction false} JoinSplit(path: string)
    ensures Join(Split(path)) == path
    decreases |path|
  {
    if path != [] {
      var rest := Split(path[1..]);
      JoinSplit(path[1..]);
      if path[0] == '.' {
        assert Split(path)[1..] == rest;
      } else {
        var segs := Split(path);
        assert segs[1..] == rest[1..];
        if |rest| == 1 {
          assert Join(segs) == [path[0]] + rest[0];
        } else {
          assert Join(segs) == [path[0]] + rest[0] + "." + Join(rest[1..]);
          assert Join(rest) == rest[0] + "." + Join(rest[1..]);
        }
        assert path == [path[0]] + path[1..];
      }
    }
  }

  /** No piece of a split path contains the separator. */
  lemma {:induction false} SplitPiecesUndotted(path: string)
    ensures Undotted(Split(path))
    decreases |path|
  {
    if path != [] {
      var rest := Split(path[1..]);
      SplitPiecesUndotted(path[1..]);
      if path[0] != '.' {
        var segs := Split(path);
        assert segs[0] == [path[0]] + rest[0];
        assert forall k :: 1 <= k < |segs| ==> segs[k] == rest[k];
      }
    }
  }

  /** Splitting `p.q` gives the pieces of `p` followed by the pieces of `q`. */
  lemma {:induction false} SplitConcat(p: string, q: string)
    ensures Split(p + "." + q) == Split(p) + Split(q)
    decreases |p|
  {
    if p == [] {
      assert p + "." + q == "." + q;
      assert ("." + q)[1..] == q;
    } else {
      assert (p + "." + q)[0] == p[0];
      assert (p + "." + q)[1..] == p[1..] + "." + q;
      SplitConcat(p[1..], q);
    }
  }

  /** Pieces without dots survive a round trip through `Join`. */
  lemma {:induction false} SplitJoin(segs: seq<string>)
    requires |segs| >= 1 && Undotted(segs)
    ensures Split(Join(segs)) == segs
    decreases |segs|
  {
    if |segs| == 1 {
      SplitUndotted(segs[0]);
    } else {
      SplitJoin(segs[1..]);
      SplitConcat(segs[0], Join(segs[1..]));
      SplitUndotted(segs[0]);
      assert segs == [segs[0]] + segs[1..];
    }
  }

  /** A string without dots is a single piece. */
  lemma {:induction false} SplitUndotted(s: string)
    requires '.' !in s
    ensures Split(s) == [s]
    decreases |s|
  {
    if s != [] {
      assert '.' !in s[1..] by {
        forall k | 0 <= k < |s[1..]| ensures s[1..][k] != '.' {
          assert s[1..][k] == s[k + 1];
        }
      }
      SplitUndotted(s[1..]);
      assert s == [s[0]] + s[1..];
    }
  }
}
