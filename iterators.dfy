/**
 * The iterator adapters the response parser is written with: `Iterator::find`
 * over a slice, `iter().map(..).collect()`, and `split('/').last()` on a string.
 */
module Iterators {
  import opened Wrappers

  /** Index `i` holds the first element of `xs` that satisfies `p`. */
  ghost predicate IsFirst<T>(xs: seq<T>, p: T -> bool, i: int) {
    0 <= i < |xs| && p(xs[i]) && forall j :: 0 <= j < i ==> !p(xs[j])
  }

  /** Only one index can hold the first match. */
  lemma FirstUnique<T>(xs: seq<T>, p: T -> bool, i: int, j: int)
    requires IsFirst(xs, p, i) && IsFirst(xs, p, j)
    ensures i == j
  {
  }

  /** The position `Iterator::find` stops at. */
  function FindIndex<T>(xs: seq<T>, p: T -> bool): (r: Option<nat>)
    ensures r.None? <==> forall i :: 0 <= i < |xs| ==> !p(xs[i])
    ensures r.Some? ==> IsFirst(xs, p, r.value)
  {
    if |xs| == 0 then None
    else if p(xs[0]) then Some(0)
    else match FindIndex(xs[1..], p)
      case None => None
      case Some(i) => Some(i + 1)
  }

  /** `xs.iter().find(p)`: the first element satisfying `p`, if any. */
  function Find<T>(xs: seq<T>, p: T -> bool): (r: Option<T>)
    ensures r.None? <==> forall i :: 0 <= i < |xs| ==> !p(xs[i])
    ensures r.Some? ==> exists i :: IsFirst(xs, p, i) && xs[i] == r.value
  {
    match FindIndex(xs, p)
    case None => None
    case Some(i) => Some(xs[i])
  }

  /** `find` stops at the first match. */
  lemma FindIsFirst<T>(xs: seq<T>, p: T -> bool, i: int)
    requires IsFirst(xs, p, i)
    ensures Find(xs, p) == Some(xs[i])
  {
    var j :| IsFirst(xs, p, j) && xs[j] == Find(xs, p).value;
    FirstUnique(xs, p, i, j);
  }

  /** `xs.iter().map(f).collect::<Vec<_>>()`. */
  function Map<T, U>(xs: seq<T>, f: T -> U): (r: seq<U>)
    ensures |r| == |xs|
    ensures forall i :: 0 <= i < |xs| ==> r[i] == f(xs[i])
  {
    if |xs| == 0 then [] else [f(xs[0])] + Map(xs[1..], f)
  }

  /**
   * `xs.iter().map(f).collect::<Option<Vec<_>>>()`: every result, in order,
   * when every element has one, and nothing as soon as one lacks it.
   */
  function CollectAll<T, U>(xs: seq<T>, f: T -> Option<U>): (r: Option<seq<U>>)
    ensures r.Some? <==> forall i :: 0 <= i < |xs| ==> f(xs[i]).Some?
    ensures r.Some? ==> |r.value| == |xs|
    ensures r.Some? ==> forall i :: 0 <= i < |xs| ==> r.value[i] == f(xs[i]).value
  {
    if |xs| == 0 then Some([])
    else
      match f(xs[0])
      case None => None
      case Some(y) =>
        match CollectAll(xs[1..], f)
        case None =>
          assert exists i :: 1 <= i < |xs| && f(xs[i]).None? by {
            var k :| 0 <= k < |xs[1..]| && f(xs[1..][k]).None?;
            assert xs[1..][k] == xs[k + 1];
          }
          None
        case Some(ys) =>
          assert forall i :: 1 <= i < |xs| ==> xs[i] == xs[1..][i - 1];
          Some([y] + ys)
  }

  /**
   * `s.split(sep).last()`. Splitting always yields at least one piece, so the
   * last piece always exists: it is everything after the last `sep`, or the
   * whole string when `sep` does not occur.
   */
  function LastPiece(s: string, sep: char): (r: string)
    ensures |r| <= |s| && r == s[|s| - |r|..]
    ensures sep !in r
    ensures |r| < |s| ==> s[|s| - |r| - 1] == sep
  {
    if |s| == 0 || s[|s| - 1] == sep then []
    else LastPiece(s[..|s| - 1], sep) + [s[|s| - 1]]
  }

  /** Appending past a separator leaves exactly the appended text. */
  lemma {:induction false} LastPieceAfterSeparator(prefix: string, sep: char, tail: string)
    requires sep !in tail
    ensures LastPiece(prefix + [sep] + tail, sep) == tail
  {
    var s := prefix + [sep] + tail;
    if |tail| == 0 {
      assert s[|s| - 1] == sep;
    } else {
      var t' := tail[..|tail| - 1];
      assert s[..|s| - 1] == prefix + [sep] + t';
      assert s[|s| - 1] == tail[|tail| - 1];
      LastPieceAfterSeparator(prefix, sep, t');
      assert t' + [tail[|tail| - 1]] == tail;
    }
  }
}
