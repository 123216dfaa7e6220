/** Work lists of file names: `_get_sorted_uniques` (`sorted(list(set(xs)))`) and the removal
    step of `_loop_through_missing_files`, which calls `list.remove` once per processed name. */
module Worklist {
  import opened Strings

  /** `x` put into its place in a strictly sorted list, unless it is already there. */
  function Insert(s: seq<string>, x: string): (r: seq<string>)
    requires StrictlySorted(s)
    ensures StrictlySorted(r)
    ensures forall y :: y in r <==> y in s || y == x
    decreases |s|
  {
    if s == [] then [x]
    else if x == s[0] then s
    else if Less(x, s[0]) then
      assert forall j :: 0 <= j < |s| ==> Less(x, s[j]) by {
        forall j | 0 <= j < |s| ensures Less(x, s[j]) {
          if j > 0 { LessTransitive(x, s[0], s[j]); }
        }
      }
      [x] + s
    else
      LessTotal(x, s[0]);
      var rest := Insert(s[1..], x);
      assert forall y :: y in rest ==> Less(s[0], y) by {
        forall y | y in rest ensures Less(s[0], y) {
          if y != x {
            var j :| 0 <= j < |s[1..]| && s[1..][j] == y;
            assert s[j + 1] == y;
          }
        }
      }
      var r := [s[0]] + rest;
      assert forall i, j :: 0 <= i < j < |r| ==> Less(r[i], r[j]) by {
        forall i, j | 0 <= i < j < |r| ensures Less(r[i], r[j]) {
          if i == 0 { assert r[j] in rest; } else { assert r[i] == rest[i - 1] && r[j] == rest[j - 1]; }
        }
      }
      r
  }

  /** `_get_sorted_uniques`: the distinct names of `xs`, each once, in ascending order. */
  function SortedUniques(xs: seq<string>): (r: seq<string>)
    ensures StrictlySorted(r)
    ensures forall y :: y in r <==> y in xs
  {
    if xs == [] then []
    else
      var front := SortedUniques(xs[..|xs| - 1]);
      assert forall y :: y in xs <==> y in xs[..|xs| - 1] || y == xs[|xs| - 1] by {
        assert xs == xs[..|xs| - 1] + [xs[|xs| - 1]];
      }
      Insert(front, xs[|xs| - 1])
  }

  /** A strictly sorted list holds no name twice. */
  lemma StrictlySortedDistinct(s: seq<string>, i: nat, j: nat)
    requires StrictlySorted(s) && i < j < |s|
    ensures s[i] != s[j]
  {
    LessIrreflexive(s[i]);
  }

  /** A strictly sorted list is determined by its elements, so the result of
      `sorted(list(set(xs)))` does not depend on the order in which the set is listed. */
  lemma {:induction false} StrictlySortedUnique(a: seq<string>, b: seq<string>)
    requires StrictlySorted(a) && StrictlySorted(b)
    requires forall y :: y in a <==> y in b
    ensures a == b
    decreases |a|
  {
    assert a != [] ==> a[0] in b;
    assert b != [] ==> b[0] in a;
    if a != [] && b != [] {
      var i :| 0 <= i < |b| && b[i] == a[0];
      var j :| 0 <= j < |a| && a[j] == b[0];
      if i > 0 && j > 0 {
        LessTransitive(b[0], a[0], a[j]);
        LessIrreflexive(b[0]);
      }
      assert a[0] == b[0] by {
        if i == 0 { assert b[0] == a[0]; } else { assert a[0] == a[j] == b[0]; }
      }
      forall y | y in a[1..] ensures y in b[1..] {
        var k :| 0 <= k < |a[1..]| && a[1..][k] == y;
        StrictlySortedDistinct(a, 0, k + 1);
        assert y in b;
        var m :| 0 <= m < |b| && b[m] == y;
        assert m > 0;
        assert b[1..][m - 1] == y;
      }
      forall y | y in b[1..] ensures y in a[1..] {
        var k :| 0 <= k < |b[1..]| && b[1..][k] == y;
        StrictlySortedDistinct(b, 0, k + 1);
        assert y in a;
        var m :| 0 <= m < |a| && a[m] == y;
        assert m > 0;
        assert a[1..][m - 1] == y;
      }
      StrictlySortedUnique(a[1..], b[1..]);
      assert a == [a[0]] + a[1..] && b == [b[0]] + b[1..];
    }
  }

  /** Lists with the same names give the same work list. */
  lemma SortedUniquesCanonical(xs: seq<string>, ys: seq<string>)
    requires forall y :: y in xs <==> y in ys
    ensures SortedUniques(xs) == SortedUniques(ys)
  {
    StrictlySortedUnique(SortedUniques(xs), SortedUniques(ys));
  }

  /** The index of the first occurrence of `x`. */
  function IndexOf(xs: seq<string>, x: string): (k: nat)
    requires x in xs
    ensures k < |xs| && xs[k] == x && x !in xs[..k]
  {
    if xs[0] == x then 0
    else
      var k := IndexOf(xs[1..], x);
      assert xs[..k + 1] == [xs[0]] + xs[1..][..k];
      k + 1
  }

  /** `xs.remove(x)`: the first occurrence of `x` taken out, everything else kept in order. */
  function RemoveFirst(xs: seq<string>, x: string): (r: seq<string>)
    requires x in xs
    ensures multiset(r) == multiset(xs) - multiset{x}
    ensures |r| == |xs| - 1
  {
    var k := IndexOf(xs, x);
    assert xs == xs[..k] + [x] + xs[k + 1..];
    xs[..k] + xs[k + 1..]
  }

  /** The occurrence `list.remove` takes out is the first one: the list is cut at the first
      index holding `x`, and everything before and after it stays, in order. */
  lemma RemoveFirstTakesFirst(xs: seq<string>, x: string)
    requires x in xs
    ensures exists k :: 0 <= k < |xs| && xs[k] == x && x !in xs[..k] && RemoveFirst(xs, x) == xs[..k] + xs[k + 1..]
  {
    var k := IndexOf(xs, x);
    assert RemoveFirst(xs, x) == xs[..k] + xs[k + 1..];
  }

  /** One more removal on top of earlier ones: taking away a present `x` is subtracting it
      once more, and skipping an absent one is too, since the difference is cut off at zero. */
  lemma SubtractOneMore(m: multiset<string>, removed: multiset<string>, x: string)
    ensures x in m - removed ==> (m - removed) - multiset{x} == m - (removed + multiset{x})
    ensures x !in m - removed ==> m - removed == m - (removed + multiset{x})
  {
    if x in m - removed {
      assert forall y :: ((m - removed) - multiset{x})[y] == (m - (removed + multiset{x}))[y];
    } else {
      assert forall y :: (m - removed)[y] == (m - (removed + multiset{x}))[y];
    }
  }

  /** `for x in rs: if x in xs: xs.remove(x)`. */
  function RemoveEach(xs: seq<string>, rs: seq<string>): seq<string>
  {
    if rs == [] then xs
    else
      var ys := RemoveEach(xs, rs[..|rs| - 1]);
      var x := rs[|rs| - 1];
      if x in ys then RemoveFirst(ys, x) else ys
  }

  /** The names left are the names present minus the names processed, counted with
      multiplicity. (Kept out of `RemoveEach`'s own contract: attached to every `RemoveEach`
      term, the multiset equation makes the proofs about the repair loop far costlier.) */
  lemma {:induction false} RemoveEachCounts(xs: seq<string>, rs: seq<string>)
    ensures multiset(RemoveEach(xs, rs)) == multiset(xs) - multiset(rs)
    decreases |rs|
  {
    if rs != [] {
      RemoveEachCounts(xs, rs[..|rs| - 1]);
      assert rs == rs[..|rs| - 1] + [rs[|rs| - 1]];
      SubtractOneMore(multiset(xs), multiset(rs[..|rs| - 1]), rs[|rs| - 1]);
    }
  }

  /** One more processed name: its first occurrence goes, if it is still there. */
  lemma RemoveEachStep(xs: seq<string>, rs: seq<string>, k: nat)
    requires k < |rs|
    ensures RemoveEach(xs, rs[..k + 1]) ==
            var ys := RemoveEach(xs, rs[..k]);
            if rs[k] in ys then RemoveFirst(ys, rs[k]) else ys
  {
    assert rs[..k + 1][..k] == rs[..k];
  }

  /** Removing names never adds one. */
  lemma RemoveEachShrinks(xs: seq<string>, rs: seq<string>)
    ensures multiset(RemoveEach(xs, rs)) <= multiset(xs)
    ensures |RemoveEach(xs, rs)| <= |xs|
  {
    RemoveEachCounts(xs, rs);
    assert multiset(RemoveEach(xs, rs)) <= multiset(xs);
    assert |multiset(RemoveEach(xs, rs))| <= |multiset(xs)|;
  }

  /** When the names removed are some of the names present, the remaining names are exactly
      the others: a name processed in a pass leaves the list, every other one stays. */
  lemma RemoveEachSplit(xs: seq<string>, rs: seq<string>, kept: seq<string>)
    requires multiset(xs) == multiset(rs) + multiset(kept)
    ensures multiset(RemoveEach(xs, rs)) == multiset(kept)
  {
    RemoveEachCounts(xs, rs);
  }

  /** No name occurs twice. */
  predicate Distinct(s: seq<string>) {
    forall i, j :: 0 <= i < j < |s| ==> s[i] != s[j]
  }

  /** The names of `xs` that are not in `rs`, in their order in `xs`. */
  function Without(xs: seq<string>, rs: seq<string>): (r: seq<string>)
    ensures |r| <= |xs|
  {
    if xs == [] then []
    else
      var x := xs[|xs| - 1];
      Without(xs[..|xs| - 1], rs) + (if x in rs then [] else [x])
  }

  /** `Without` keeps a name exactly when the list holds it and the filter does not. */
  lemma {:induction false} WithoutMembers(xs: seq<string>, rs: seq<string>)
    ensures forall y :: y in Without(xs, rs) <==> y in xs && y !in rs
  {
    if xs != [] {
      var n := |xs|;
      WithoutMembers(xs[..n - 1], rs);
      assert xs == xs[..n - 1] + [xs[n - 1]];
    }
  }

  lemma {:induction false} WithoutAppend(a: seq<string>, b: seq<string>, rs: seq<string>)
    ensures Without(a + b, rs) == Without(a, rs) + Without(b, rs)
    decreases |b|
  {
    if b == [] {
      assert a + b == a;
    } else {
      var n := |b|;
      assert (a + b)[..|a + b| - 1] == a + b[..n - 1];
      WithoutAppend(a, b[..n - 1], rs);
    }
  }

  /** Filtering by names the list does not hold changes nothing. */
  lemma {:induction false} WithoutNothing(xs: seq<string>, rs: seq<string>)
    requires forall y :: y in xs ==> y !in rs
    ensures Without(xs, rs) == xs
  {
    if xs != [] {
      assert xs[|xs| - 1] in xs;
      assert forall y :: y in xs[..|xs| - 1] ==> y in xs;
      WithoutNothing(xs[..|xs| - 1], rs);
      assert xs == xs[..|xs| - 1] + [xs[|xs| - 1]];
    }
  }

  /** One more name to filter by is no change for a list that does not hold it. */
  lemma {:induction false} WithoutAbsent(xs: seq<string>, rs: seq<string>, x: string)
    requires x !in xs
    ensures Without(xs, rs + [x]) == Without(xs, rs)
  {
    if xs != [] {
      var n := |xs|;
      assert x !in xs[..n - 1] by {
        assert forall y :: y in xs[..n - 1] ==> y in xs;
      }
      WithoutAbsent(xs[..n - 1], rs, x);
    }
  }

  /** Filtering twice is filtering by both lists. */
  lemma {:induction false} WithoutTwice(xs: seq<string>, a: seq<string>, b: seq<string>)
    ensures Without(Without(xs, a), b) == Without(xs, a + b)
  {
    if xs != [] {
      var n := |xs|;
      var x := xs[n - 1];
      WithoutTwice(xs[..n - 1], a, b);
      WithoutAppend(Without(xs[..n - 1], a), if x in a then [] else [x], b);
      if x !in a {
        assert Without([x], b) == (if x in b then [] else [x]) by {
          assert [x][..0] == [];
        }
      } else {
        assert Without([], b) == [];
      }
    }
  }

  /** A filtered list without repeats has none. */
  lemma {:induction false} WithoutDistinct(xs: seq<string>, rs: seq<string>)
    requires Distinct(xs)
    ensures Distinct(Without(xs, rs))
  {
    if xs != [] {
      var n := |xs|;
      var x := xs[n - 1];
      assert Distinct(xs[..n - 1]);
      WithoutDistinct(xs[..n - 1], rs);
      WithoutMembers(xs[..n - 1], rs);
      assert x !in xs[..n - 1];
    }
  }

  /** Filtering out a name that occurs once, between `a` and `b`, joins `a` and `b`. */
  lemma WithoutSingle(a: seq<string>, x: string, b: seq<string>)
    requires x !in a && x !in b
    ensures Without(a + [x] + b, [x]) == a + b
  {
    calc {
      Without(a + [x] + b, [x]);
    == { WithoutAppend(a + [x], b, [x]); }
      Without(a + [x], [x]) + Without(b, [x]);
    == { WithoutAppend(a, [x], [x]); }
      Without(a, [x]) + Without([x], [x]) + Without(b, [x]);
    == { WithoutNothing(a, [x]); WithoutNothing(b, [x]); assert [x][..0] == []; }
      a + [] + b;
    == { assert a + [] == a; }
      a + b;
    }
  }

  /** In a list without repeats, removing the first occurrence of a name is filtering it out. */
  lemma RemoveFirstDistinct(ys: seq<string>, x: string)
    requires Distinct(ys) && x in ys
    ensures RemoveFirst(ys, x) == Without(ys, [x])
  {
    var k := IndexOf(ys, x);
    assert ys == ys[..k] + [x] + ys[k + 1..];
    assert x !in ys[k + 1..] by {
      forall j | k + 1 <= j < |ys| ensures ys[j] != x { }
    }
    WithoutSingle(ys[..k], x, ys[k + 1..]);
  }

  /** For a list without repeats, the removal loop keeps exactly the names not processed, in
      their original order. */
  lemma {:induction false} RemoveEachDistinct(xs: seq<string>, rs: seq<string>)
    requires Distinct(xs)
    ensures RemoveEach(xs, rs) == Without(xs, rs)
    decreases |rs|
  {
    if rs == [] {
      WithoutNothing(xs, rs);
    } else {
      var front := rs[..|rs| - 1];
      var x := rs[|rs| - 1];
      assert rs == front + [x];
      RemoveEachDistinct(xs, front);
      var ys := RemoveEach(xs, front);
      assert RemoveEach(xs, rs) == if x in ys then RemoveFirst(ys, x) else ys;
      WithoutDistinct(xs, front);
      WithoutTwice(xs, front, [x]);
      if x in ys {
        RemoveFirstDistinct(ys, x);
      } else {
        WithoutNothing(ys, [x]);
      }
    }
  }

  /** Drawing from a list drawn from another draws from that other. */
  lemma SubsetTransitive(a: seq<string>, b: seq<string>, c: seq<string>)
    requires multiset(a) <= multiset(b) && multiset(b) <= multiset(c)
    ensures multiset(a) <= multiset(c)
  {
  }

  /** A list drawn from another is no longer. */
  lemma DrawnIsShorter(a: seq<string>, b: seq<string>)
    requires multiset(a) <= multiset(b)
    ensures |a| <= |b|
  {
    var rest := multiset(b) - multiset(a);
    assert multiset(b) == multiset(a) + rest;
    assert |multiset(b)| == |multiset(a)| + |rest|;
    assert |multiset(a)| == |a| && |multiset(b)| == |b|;
  }

  /** After a pass over a list drawn from `missing`, removing what the pass collected leaves
      exactly the names it kept, still drawn from `missing`. */
  lemma PassLeavesKept(before: seq<string>, toRemove: seq<string>, kept: seq<string>, missing: seq<string>)
    requires multiset(before) == multiset(toRemove) + multiset(kept)
    requires multiset(before) <= multiset(missing)
    ensures multiset(RemoveEach(before, toRemove)) == multiset(kept)
    ensures multiset(RemoveEach(before, toRemove)) <= multiset(missing)
    ensures forall x :: x in RemoveEach(before, toRemove) ==> x in kept
    ensures |before| <= |missing|
  {
    RemoveEachSplit(before, toRemove, kept);
    assert forall x :: x in RemoveEach(before, toRemove) ==> x in multiset(kept);
    DrawnIsShorter(before, missing);
  }

  /** The removal loop after a pass of `_loop_through_missing_files`: each collected name
      still in the list has its first occurrence removed. */
  method RemoveProcessed(files: seq<string>, toRemove: seq<string>) returns (remaining: seq<string>)
    ensures remaining == RemoveEach(files, toRemove)
  {
    remaining := files;
    var k := 0;
    assert toRemove[..0] == [];
    while k < |toRemove|
      invariant 0 <= k <= |toRemove|
      invariant remaining == RemoveEach(files, toRemove[..k])
    {
      var filename := toRemove[k];
      RemoveEachStep(files, toRemove, k);
      if filename in remaining {
        remaining := RemoveFirst(remaining, filename);
      }
      k := k + 1;
    }
    assert toRemove[..k] == toRemove;
  }

  /** The names of a set, each once, in some order. */
  ghost function SetToSeq(s: set<string>): (r: seq<string>)
    ensures forall y :: y in r <==> y in s
    decreases |s|
  {
    if s == {} then []
    else
      var y :| y in s;
      [y] + SetToSeq(s - {y})
  }

  /** `list(s)` for a set: its elements, each once, in an unspecified order. */
  method ListOfSet(s: set<string>) returns (r: seq<string>)
    ensures forall y :: y in r <==> y in s
    ensures |r| == |s|
  {
    r := [];
    var rest := s;
    while rest != {}
      invariant rest <= s
      invariant forall y :: y in r <==> y in s && y !in rest
      invariant |r| + |rest| == |s|
      decreases |rest|
    {
      var y :| y in rest;
      r := r + [y];
      rest := rest - {y};
    }
  }
}
