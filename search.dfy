/** Sequence helpers: the first-match scan that `for x in xs: if p(x): return ...` performs,
    the `for x in xs: out.extend(f(x))` accumulation, and the regrouping of appends that the
    accumulating loops need. */
module Search {
  import opened Wrappers

  /** The index of the first element of `s` that satisfies `p`, or None when none does. */
  function FirstIndex<T>(s: seq<T>, p: T -> bool): (r: Option<nat>)
    ensures r.Some? ==> r.value < |s| && p(s[r.value])
    ensures r.Some? ==> forall j :: 0 <= j < r.value ==> !p(s[j])
    ensures r.None? <==> forall j :: 0 <= j < |s| ==> !p(s[j])
    decreases |s|
  {
    if s == [] then None
    else if p(s[0]) then Some(0)
    else match FirstIndex(s[1..], p)
      case None => None
      case Some(k) => Some(k + 1)
  }

  /** A prefix one element longer is the prefix with that element appended. */
  lemma TakeOneMore<T>(s: seq<T>, j: nat)
    requires j < |s|
    ensures s[..j + 1] == s[..j] + [s[j]]
  {
  }

  /** Appending is associative; loops that append a block per step use this to regroup. */
  lemma AppendAssociates<T>(a: seq<T>, b: seq<T>, c: seq<T>)
    ensures (a + b) + c == a + (b + c)
  {
  }

  /** The blocks `f(x)` of the elements of `xs`, concatenated in order. */
  function FlatMap<T, U>(xs: seq<T>, f: T -> seq<U>): seq<U> {
    if xs == [] then [] else FlatMap(xs[..|xs| - 1], f) + f(xs[|xs| - 1])
  }

  /** Every element of the block of a listed `x` is in the concatenation. */
  lemma {:induction false} FlatMapCovers<T, U>(xs: seq<T>, f: T -> seq<U>, x: T)
    requires x in xs
    ensures forall y :: y in f(x) ==> y in FlatMap(xs, f)
  {
    var n := |xs|;
    var front := xs[..n - 1];
    if xs[n - 1] != x {
      assert x in front by {
        var j :| 0 <= j < n && xs[j] == x;
        assert front[j] == x;
      }
      FlatMapCovers(front, f, x);
    }
  }

  /** An element is in the concatenation exactly when some listed element's block holds it. */
  lemma {:induction false} FlatMapMembers<T, U>(xs: seq<T>, f: T -> seq<U>)
    ensures forall y :: y in FlatMap(xs, f) <==> exists x :: x in xs && y in f(x)
  {
    if xs != [] {
      var n := |xs|;
      var front := xs[..n - 1];
      FlatMapMembers(front, f);
      assert xs == front + [xs[n - 1]];
    }
  }

  /** The concatenation over two lists in turn is the two concatenations in turn. */
  lemma {:induction false} FlatMapAppend<T, U>(a: seq<T>, b: seq<T>, f: T -> seq<U>)
    ensures FlatMap(a + b, f) == FlatMap(a, f) + FlatMap(b, f)
    decreases |b|
  {
    if b == [] {
      assert a + b == a;
    } else {
      var n := |b|;
      assert (a + b)[..|a + b| - 1] == a + b[..n - 1];
      FlatMapAppend(a, b[..n - 1], f);
    }
  }

  /** Blocks of at most one element give at most one element per input. */
  lemma {:induction false} FlatMapShort<T, U>(xs: seq<T>, f: T -> seq<U>)
    requires forall x :: x in xs ==> |f(x)| <= 1
    ensures |FlatMap(xs, f)| <= |xs|
  {
    if xs != [] {
      assert forall x :: x in xs[..|xs| - 1] ==> x in xs;
      FlatMapShort(xs[..|xs| - 1], f);
    }
  }
}
