/** Sequence vocabulary shared by the chart pipeline: first-seen
    de-duplication (what `[...new Set(xs)]` yields for primitive values),
    key filters (`Array.prototype.filter` on one field), projections and
    integer totals (`d3.sum` over whole-dollar amounts). */
module Seqs {

  /** Every element occurs at most once. */
  ghost predicate Distinct<T(!new)>(xs: seq<T>) {
    forall i, j :: 0 <= i < j < |xs| ==> xs[i] != xs[j]
  }

  /** Position of the first occurrence of `x` in `xs`. */
  function FirstIndex<T(==,!new)>(xs: seq<T>, x: T): (i: nat)
    requires x in xs
    ensures i < |xs| && xs[i] == x
    ensures forall j :: 0 <= j < i ==> xs[j] != x
  {
    if xs[0] == x then 0 else 1 + FirstIndex(xs[1..], x)
  }

  /** The distinct elements of `xs`, each once, in order of first occurrence. */
  function Dedup<T(==,!new)>(xs: seq<T>): (r: seq<T>)
    ensures Distinct(r)
    ensures forall x :: x in r <==> x in xs
    ensures |r| <= |xs|
  {
    if |xs| == 0 then []
    else
      assert xs == xs[..|xs| - 1] + [xs[|xs| - 1]];
      var p := Dedup(xs[..|xs| - 1]);
      if xs[|xs| - 1] in p then p else p + [xs[|xs| - 1]]
  }

  lemma DedupSnoc<T(!new)>(xs: seq<T>, x: T)
    ensures Dedup(xs + [x]) == if x in Dedup(xs) then Dedup(xs) else Dedup(xs) + [x]
  {
    assert (xs + [x])[..|xs|] == xs;
  }

  lemma FirstIndexSnoc<T(!new)>(xs: seq<T>, x: T, y: T)
    requires y in xs
    ensures FirstIndex(xs + [x], y) == FirstIndex(xs, y)
  {
    if xs[0] != y {
      assert (xs + [x])[1..] == xs[1..] + [x];
      FirstIndexSnoc(xs[1..], x, y);
    }
  }

  lemma FirstIndexOfNew<T(!new)>(xs: seq<T>, x: T)
    requires x !in xs
    ensures FirstIndex(xs + [x], x) == |xs|
  {
  }

  /** A list with no repeats is its own deduplication. */
  lemma {:induction false} DedupOfDistinct<T(!new)>(xs: seq<T>)
    requires Distinct(xs)
    ensures Dedup(xs) == xs
  {
    if |xs| > 0 {
      var init := xs[..|xs| - 1];
      DedupOfDistinct(init);
      assert xs[|xs| - 1] !in init;
    }
  }

  /** `Dedup` lists the distinct values in the order they are first seen:
      an earlier entry first occurs strictly before a later one. Together
      with `Dedup`'s own contract this pins the result down completely. */
  lemma {:induction false} DedupFirstSeen<T(!new)>(xs: seq<T>)
    ensures forall i, j :: 0 <= i < j < |Dedup(xs)| ==>
      FirstIndex(xs, Dedup(xs)[i]) < FirstIndex(xs, Dedup(xs)[j])
  {
    if |xs| > 0 {
      var init, x := xs[..|xs| - 1], xs[|xs| - 1];
      assert xs == init + [x];
      DedupFirstSeen(init);
      DedupSnoc(init, x);
      var p := Dedup(init);
      forall i, j | 0 <= i < j < |Dedup(xs)|
        ensures FirstIndex(xs, Dedup(xs)[i]) < FirstIndex(xs, Dedup(xs)[j])
      {
        assert p[i] in init;
        FirstIndexSnoc(init, x, p[i]);
        if j < |p| {
          assert p[j] in init;
          FirstIndexSnoc(init, x, p[j]);
        } else {
          FirstIndexOfNew(init, x);
        }
      }
    }
  }

  /** `f` applied to every element, in order. */
  function Project<T, U>(xs: seq<T>, f: T -> U): (r: seq<U>)
    ensures |r| == |xs|
    ensures forall i :: 0 <= i < |xs| ==> r[i] == f(xs[i])
  {
    seq(|xs|, i requires 0 <= i < |xs| => f(xs[i]))
  }

  lemma ProjectSnoc<T, U>(xs: seq<T>, x: T, f: T -> U)
    ensures Project(xs + [x], f) == Project(xs, f) + [f(x)]
  {
  }

  lemma ProjectMember<T(!new), U(!new)>(xs: seq<T>, f: T -> U, y: U)
    ensures y in Project(xs, f) <==> exists x :: x in xs && f(x) == y
  {
    if y in Project(xs, f) {
      var i :| 0 <= i < |xs| && Project(xs, f)[i] == y;
      assert xs[i] in xs;
    }
    if exists x :: x in xs && f(x) == y {
      var x :| x in xs && f(x) == y;
      var i :| 0 <= i < |xs| && xs[i] == x;
      assert Project(xs, f)[i] == y;
    }
  }

  /** The elements whose key is `k`, in input order:
      `xs.filter(d => key(d) === k)`. */
  function Having<T(!new), K(==,!new)>(xs: seq<T>, key: T -> K, k: K): (r: seq<T>)
    ensures forall x :: x in r <==> x in xs && key(x) == k
    ensures |r| <= |xs|
  {
    if |xs| == 0 then []
    else
      assert xs == xs[..|xs| - 1] + [xs[|xs| - 1]];
      var x := xs[|xs| - 1];
      Having(xs[..|xs| - 1], key, k) + (if key(x) == k then [x] else [])
  }

  /** The elements whose key is not `k`, in input order:
      `xs.filter(d => key(d) !== k)`. */
  function Lacking<T(!new), K(==,!new)>(xs: seq<T>, key: T -> K, k: K): (r: seq<T>)
    ensures forall x :: x in r <==> x in xs && key(x) != k
    ensures |r| <= |xs|
  {
    if |xs| == 0 then []
    else
      assert xs == xs[..|xs| - 1] + [xs[|xs| - 1]];
      var x := xs[|xs| - 1];
      Lacking(xs[..|xs| - 1], key, k) + (if key(x) != k then [x] else [])
  }

  lemma HavingSnoc<T(!new), K(!new)>(xs: seq<T>, x: T, key: T -> K, k: K)
    ensures Having(xs + [x], key, k) == Having(xs, key, k) + (if key(x) == k then [x] else [])
  {
    assert (xs + [x])[..|xs|] == xs;
  }

  lemma LackingSnoc<T(!new), K(!new)>(xs: seq<T>, x: T, key: T -> K, k: K)
    ensures Lacking(xs + [x], key, k) == Lacking(xs, key, k) + (if key(x) != k then [x] else [])
  {
    assert (xs + [x])[..|xs|] == xs;
  }

  lemma HavingConcat<T(!new), K(!new)>(a: seq<T>, b: seq<T>, key: T -> K, k: K)
    ensures Having(a + b, key, k) == Having(a, key, k) + Having(b, key, k)
    decreases |b|
  {
    if |b| > 0 {
      var init, x := b[..|b| - 1], b[|b| - 1];
      assert b == init + [x];
      assert a + b == (a + init) + [x];
      HavingConcat(a, init, key, k);
      HavingSnoc(a + init, x, key, k);
      HavingSnoc(init, x, key, k);
    } else {
      assert a + b == a;
    }
  }

  /** No element has key `k` exactly when the filter for `k` is empty. */
  lemma HavingEmpty<T(!new), K(!new)>(xs: seq<T>, key: T -> K, k: K)
    ensures Having(xs, key, k) == [] <==> k !in Project(xs, key)
  {
    var r := Having(xs, key, k);
    if k in Project(xs, key) {
      var i :| 0 <= i < |xs| && Project(xs, key)[i] == k;
      assert xs[i] in r;
    }
    if r != [] {
      assert r[0] in r;
      var i :| 0 <= i < |xs| && xs[i] == r[0];
      assert Project(xs, key)[i] == k;
    }
  }

  /** A filter that every element passes keeps the whole sequence. */
  lemma {:induction false} HavingAll<T(!new), K(!new)>(xs: seq<T>, key: T -> K, k: K)
    requires forall i :: 0 <= i < |xs| ==> key(xs[i]) == k
    ensures Having(xs, key, k) == xs
  {
    if |xs| > 0 {
      assert xs == xs[..|xs| - 1] + [xs[|xs| - 1]];
      HavingAll(xs[..|xs| - 1], key, k);
    }
  }

  /** A filter on a sequence whose elements all share one key keeps all or nothing. */
  lemma HavingUniform<T(!new), K(!new)>(xs: seq<T>, key: T -> K, e: K, k: K)
    requires forall i :: 0 <= i < |xs| ==> key(xs[i]) == e
    ensures Having(xs, key, k) == if e == k then xs else []
  {
    if e == k {
      HavingAll(xs, key, k);
    } else {
      HavingEmpty(xs, key, k);
    }
  }

  /** Filtering twice on two keys gives the same result in either order. */
  lemma {:induction false} HavingLackingCommute<T(!new), K(!new), L(!new)>(xs: seq<T>, key: T -> K, k: K, other: T -> L, l: L)
    ensures Having(Lacking(xs, other, l), key, k) == Lacking(Having(xs, key, k), other, l)
  {
    if |xs| > 0 {
      var init, x := xs[..|xs| - 1], xs[|xs| - 1];
      assert xs == init + [x];
      HavingLackingCommute(init, key, k, other, l);
      HavingLackingStep(init, x, key, k, other, l);
    }
  }

  lemma HavingLackingStep<T(!new), K(!new), L(!new)>(init: seq<T>, x: T, key: T -> K, k: K, other: T -> L, l: L)
    requires Having(Lacking(init, other, l), key, k) == Lacking(Having(init, key, k), other, l)
    ensures Having(Lacking(init + [x], other, l), key, k) == Lacking(Having(init + [x], key, k), other, l)
  {
    var a, b := Lacking(init, other, l), Having(init, key, k);
    LackingSnoc(init, x, other, l);
    HavingSnoc(init, x, key, k);
    if other(x) != l {
      HavingSnoc(a, x, key, k);
    } else {
      assert Lacking(init + [x], other, l) == a;
    }
    if key(x) == k {
      LackingSnoc(b, x, other, l);
    } else {
      assert Having(init + [x], key, k) == b;
    }
  }

  /** `a` keeps some of `b`'s elements in `b`'s order. */
  ghost predicate Subsequence<T(!new)>(a: seq<T>, b: seq<T>)
    decreases |b|
  {
    if |a| == 0 then true
    else if |b| == 0 then false
    else (a[|a| - 1] == b[|b| - 1] && Subsequence(a[..|a| - 1], b[..|b| - 1]))
         || Subsequence(a, b[..|b| - 1])
  }

  /** A key filter keeps the surviving elements in input order. */
  lemma {:induction false} HavingIsSubsequence<T(!new), K(!new)>(xs: seq<T>, key: T -> K, k: K)
    ensures Subsequence(Having(xs, key, k), xs)
  {
    if |xs| > 0 {
      var init, x := xs[..|xs| - 1], xs[|xs| - 1];
      HavingIsSubsequence(init, key, k);
      var r := Having(xs, key, k);
      if key(x) == k {
        assert r[..|r| - 1] == Having(init, key, k);
      } else {
        assert r == Having(init, key, k);
      }
    }
  }

  /** The complementary filter keeps its elements in input order too. */
  lemma {:induction false} LackingIsSubsequence<T(!new), K(!new)>(xs: seq<T>, key: T -> K, k: K)
    ensures Subsequence(Lacking(xs, key, k), xs)
  {
    if |xs| > 0 {
      var init, x := xs[..|xs| - 1], xs[|xs| - 1];
      LackingIsSubsequence(init, key, k);
      var r := Lacking(xs, key, k);
      if key(x) != k {
        assert r[..|r| - 1] == Lacking(init, key, k);
      } else {
        assert r == Lacking(init, key, k);
      }
    }
  }

  /** The two filters for one key split the input: every occurrence of
      every element lands in exactly one of them. */
  lemma {:induction false} HavingLackingPartition<T(!new), K(!new)>(xs: seq<T>, key: T -> K, k: K)
    ensures multiset(Having(xs, key, k)) + multiset(Lacking(xs, key, k)) == multiset(xs)
  {
    if |xs| > 0 {
      var init, x := xs[..|xs| - 1], xs[|xs| - 1];
      assert xs == init + [x];
      HavingLackingPartition(init, key, k);
    }
  }

  /** The filter keeps every copy of each element with key `k`, and no
      copy of any other. */
  lemma HavingCounts<T(!new), K(!new)>(xs: seq<T>, key: T -> K, k: K)
    ensures forall x :: multiset(Having(xs, key, k))[x] == if key(x) == k then multiset(xs)[x] else 0
  {
    HavingLackingPartition(xs, key, k);
    forall x ensures multiset(Having(xs, key, k))[x] == if key(x) == k then multiset(xs)[x] else 0 {
      if key(x) == k {
        assert x !in Lacking(xs, key, k);
      } else {
        assert x !in Having(xs, key, k);
      }
    }
  }

  /** Sum of `val` over `xs`, accumulated in input order. */
  function Total<T(!new)>(xs: seq<T>, val: T -> int): int
  {
    if |xs| == 0 then 0 else Total(xs[..|xs| - 1], val) + val(xs[|xs| - 1])
  }

  lemma TotalSnoc<T(!new)>(xs: seq<T>, x: T, val: T -> int)
    ensures Total(xs + [x], val) == Total(xs, val) + val(x)
  {
    assert (xs + [x])[..|xs|] == xs;
  }

  lemma {:induction false} TotalConcat<T(!new)>(a: seq<T>, b: seq<T>, val: T -> int)
    ensures Total(a + b, val) == Total(a, val) + Total(b, val)
    decreases |b|
  {
    if |b| == 0 {
      assert a + b == a;
    } else {
      var init, x := b[..|b| - 1], b[|b| - 1];
      assert b == init + [x];
      assert a + b == (a + init) + [x];
      TotalConcat(a, init, val);
      TotalSnoc(a + init, x, val);
    }
  }

  /** The two filters for one key split the total. */
  lemma {:induction false} TotalPartition<T(!new), K(!new)>(xs: seq<T>, key: T -> K, k: K, val: T -> int)
    ensures Total(Having(xs, key, k), val) + Total(Lacking(xs, key, k), val) == Total(xs, val)
  {
    if |xs| > 0 {
      var init, x := xs[..|xs| - 1], xs[|xs| - 1];
      assert xs == init + [x];
      TotalPartition(init, key, k, val);
      HavingSnoc(init, x, key, k);
      LackingSnoc(init, x, key, k);
      TotalSnoc(init, x, val);
      if key(x) == k {
        TotalSnoc(Having(init, key, k), x, val);
        assert Lacking(xs, key, k) == Lacking(init, key, k);
      } else {
        TotalSnoc(Lacking(init, key, k), x, val);
        assert Having(xs, key, k) == Having(init, key, k);
      }
    }
  }

  /** Sum, over the keys `ks`, of each key's filtered total. */
  function KeyTotals<T(!new), K(==,!new)>(xs: seq<T>, key: T -> K, val: T -> int, ks: seq<K>): int
  {
    if |ks| == 0 then 0
    else KeyTotals(xs, key, val, ks[..|ks| - 1]) + Total(Having(xs, key, ks[|ks| - 1]), val)
  }

  lemma {:induction false} KeyTotalsSnocElement<T(!new), K(!new)>(xs: seq<T>, x: T, key: T -> K, val: T -> int, ks: seq<K>)
    requires Distinct(ks)
    ensures KeyTotals(xs + [x], key, val, ks)
         == KeyTotals(xs, key, val, ks) + (if key(x) in ks then val(x) else 0)
  {
    if |ks| > 0 {
      var init, c := ks[..|ks| - 1], ks[|ks| - 1];
      assert ks == init + [c];
      KeyTotalsSnocElement(xs, x, key, val, init);
      HavingSnoc(xs, x, key, c);
      if key(x) == c {
        TotalSnoc(Having(xs, key, c), x, val);
        assert key(x) !in init;
        assert Total(Having(xs + [x], key, c), val) == Total(Having(xs, key, c), val) + val(x);
      } else {
        assert Having(xs + [x], key, c) == Having(xs, key, c);
        assert key(x) in ks <==> key(x) in init;
      }
    }
  }

  /** Summing each distinct key's group gives back the grand total: grouping
      neither loses nor double-counts an amount. */
  lemma {:induction false} TotalByKeys<T(!new), K(!new)>(xs: seq<T>, key: T -> K, val: T -> int)
    ensures KeyTotals(xs, key, val, Dedup(Project(xs, key))) == Total(xs, val)
  {
    if |xs| > 0 {
      var init, x := xs[..|xs| - 1], xs[|xs| - 1];
      assert xs == init + [x];
      TotalByKeys(init, key, val);
      TotalByKeysStep(init, x, key, val);
    }
  }

  lemma TotalByKeysStep<T(!new), K(!new)>(init: seq<T>, x: T, key: T -> K, val: T -> int)
    requires KeyTotals(init, key, val, Dedup(Project(init, key))) == Total(init, val)
    ensures KeyTotals(init + [x], key, val, Dedup(Project(init + [x], key))) == Total(init + [x], val)
  {
    var d := Dedup(Project(init, key));
    ProjectSnoc(init, x, key);
    DedupSnoc(Project(init, key), key(x));
    KeyTotalsSnocElement(init, x, key, val, d);
    TotalSnoc(init, x, val);
    if key(x) !in d {
      NewKeyTotal(init, x, key, val, d);
    }
  }

  lemma NewKeyTotal<T(!new), K(!new)>(init: seq<T>, x: T, key: T -> K, val: T -> int, d: seq<K>)
    requires d == Dedup(Project(init, key)) && key(x) !in d
    ensures KeyTotals(init + [x], key, val, d + [key(x)])
         == KeyTotals(init + [x], key, val, d) + val(x)
  {
    var d' := d + [key(x)];
    assert d'[..|d'| - 1] == d;
    HavingEmpty(init, key, key(x));
    HavingSnoc(init, x, key, key(x));
    assert Having(init + [x], key, key(x)) == [x];
    assert Total([x], val) == val(x) by {
      assert [x][..0] == [];
    }
  }
}
