/** Ordering helpers shared by the storage queries (`order(..., { ascending: false })`). */
module Seqs {

  function Min(a: int, b: int): int {
    if a <= b then a else b
  }

  /** `xs` is ordered by `key`, largest first. */
  ghost predicate NewestFirst<T>(xs: seq<T>, key: T -> int) {
    forall i, j | 0 <= i < j < |xs| :: key(xs[i]) >= key(xs[j])
  }

  function InsertByKey<T>(x: T, xs: seq<T>, key: T -> int): (r: seq<T>)
    requires NewestFirst(xs, key)
    ensures NewestFirst(r, key)
    ensures |r| == |xs| + 1
    ensures r[0] == x || (xs != [] && r[0] == xs[0])
    ensures multiset(r) == multiset(xs) + multiset{x}
  {
    if xs == [] || key(x) >= key(xs[0]) then
      ConsNewestFirst(x, xs, key);
      [x] + xs
    else
      var rest := InsertByKey(x, xs[1..], key);
      assert xs == [xs[0]] + xs[1..];
      ConsNewestFirst(xs[0], rest, key);
      [xs[0]] + rest
  }

  /** Putting an element no older than the head in front keeps the order. */
  lemma ConsNewestFirst<T>(y: T, rest: seq<T>, key: T -> int)
    requires NewestFirst(rest, key) && (rest == [] || key(y) >= key(rest[0]))
    ensures NewestFirst([y] + rest, key)
  {
    var r := [y] + rest;
    forall i, j | 0 <= i < j < |r|
      ensures key(r[i]) >= key(r[j])
    {
      assert r[j] == rest[j - 1];
      if i > 0 {
        assert r[i] == rest[i - 1];
      } else if j > 1 {
        assert key(rest[0]) >= key(rest[j - 1]);
      }
    }
  }

  /** Orders `xs` by `key`, largest first; a permutation of `xs`. */
  function SortNewestFirst<T>(xs: seq<T>, key: T -> int): (r: seq<T>)
    ensures NewestFirst(r, key)
    ensures multiset(r) == multiset(xs)
  {
    if xs == [] then []
    else
      assert xs == [xs[0]] + xs[1..];
      InsertByKey(xs[0], SortNewestFirst(xs[1..], key), key)
  }

  /** `r` is what is left of `xs` after deleting some of its elements; the
      elements kept stay in their order. */
  ghost predicate Subsequence<T>(r: seq<T>, xs: seq<T>)
    decreases |xs|
  {
    r == [] || (xs != [] && (Subsequence(r, xs[1..]) || (r[0] == xs[0] && Subsequence(r[1..], xs[1..]))))
  }

  /** The elements of `xs` that satisfy `p`, in order, each as often as in
      `xs` (`Array.prototype.filter`, and the row filter of an `.eq(...)`
      query). A subsequence with exactly these multiplicities is unique, so
      the contract determines the result. */
  function Filter<T(==,!new)>(xs: seq<T>, p: T -> bool): (r: seq<T>)
    ensures |r| <= |xs|
    ensures Subsequence(r, xs)
    ensures forall x :: x in r <==> x in xs && p(x)
    ensures forall x :: multiset(r)[x] == if p(x) then multiset(xs)[x] else 0
  {
    if xs == [] then []
    else
      var rest := Filter(xs[1..], p);
      assert xs == [xs[0]] + xs[1..];
      if p(xs[0]) then
        assert ([xs[0]] + rest)[1..] == rest;
        [xs[0]] + rest
      else rest
  }

  /** A prefix of an ordered sequence is ordered. */
  lemma NewestFirstPrefix<T>(xs: seq<T>, k: nat, key: T -> int)
    requires k <= |xs| && NewestFirst(xs, key)
    ensures NewestFirst(xs[..k], key)
  {
  }

  /** An element of an ordered sequence that is not in a prefix is no newer
      than anything in that prefix. */
  lemma OmittedIsOlder<T>(xs: seq<T>, k: nat, key: T -> int, x: T)
    requires k <= |xs| && NewestFirst(xs, key) && x in xs && x !in xs[..k]
    ensures forall u | u in xs[..k] :: key(u) >= key(x)
  {
    var j :| 0 <= j < |xs| && xs[j] == x;
    assert j >= k;
    forall u | u in xs[..k]
      ensures key(u) >= key(x)
    {
      var i :| 0 <= i < k && xs[..k][i] == u;
      assert xs[i] == u;
    }
  }

  /** A prefix holds no element more often than the whole sequence. */
  lemma PrefixSubMultiset<T>(xs: seq<T>, k: nat)
    requires k <= |xs|
    ensures multiset(xs[..k]) <= multiset(xs)
  {
    assert xs == xs[..k] + xs[k..];
  }

  /** The results of `f` on each element of `xs`, concatenated in order. */
  function FlatMap<A, B>(xs: seq<A>, f: A -> seq<B>): seq<B> {
    if xs == [] then [] else FlatMap(xs[..|xs| - 1], f) + f(xs[|xs| - 1])
  }

  lemma {:induction false} FlatMapAppend<A, B>(a: seq<A>, b: seq<A>, f: A -> seq<B>)
    ensures FlatMap(a + b, f) == FlatMap(a, f) + FlatMap(b, f)
    decreases |b|
  {
    if b == [] {
      assert a + b == a;
    } else {
      var ab := a + b;
      assert ab[..|ab| - 1] == a + b[..|b| - 1];
      assert ab[|ab| - 1] == b[|b| - 1];
      FlatMapAppend(a, b[..|b| - 1], f);
    }
  }

  lemma {:induction false} FlatMapMember<A, B>(xs: seq<A>, f: A -> seq<B>, y: B)
    requires y in FlatMap(xs, f)
    ensures exists k | 0 <= k < |xs| :: y in f(xs[k])
  {
    var init := xs[..|xs| - 1];
    if y in FlatMap(init, f) {
      FlatMapMember(init, f, y);
      var k :| 0 <= k < |init| && y in f(init[k]);
      assert init[k] == xs[k];
    } else {
      assert y in f(xs[|xs| - 1]);
    }
  }

  /** An element whose result is empty can be dropped from the list. */
  lemma FlatMapSkip<A, B>(a: seq<A>, x: A, b: seq<A>, f: A -> seq<B>)
    requires f(x) == []
    ensures FlatMap(a + [x] + b, f) == FlatMap(a + b, f)
  {
    var ax := a + [x];
    FlatMapAppend(ax, b, f);
    assert ax[..|ax| - 1] == a;
    assert FlatMap(ax, f) == FlatMap(a, f) + f(x);
    FlatMapAppend(a, b, f);
  }
}
