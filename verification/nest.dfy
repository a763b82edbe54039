/** The grouping step of `d3.nest().key(f).entries(xs)`: one bucket per
    distinct key, buckets in the order their key is first met, each bucket
    holding its elements in input order. Modelled as the left fold the
    library performs: look the key up, append to its bucket or open a new
    one at the end. */
module Nest {

  import opened Seqs

  datatype Bucket<K, T> = Bucket(key: K, members: seq<T>)

  /** Index of the bucket for `k`, or `|gs|` when there is none. */
  function FindKey<K(==), T>(gs: seq<Bucket<K, T>>, k: K): (i: nat)
    ensures i <= |gs|
    ensures i < |gs| ==> gs[i].key == k
    ensures forall j :: 0 <= j < i ==> gs[j].key != k
  {
    if |gs| == 0 then 0
    else if gs[0].key == k then 0
    else 1 + FindKey(gs[1..], k)
  }

  /** One step of the fold: file `x` under key `k`. */
  function Insert<K(==), T>(gs: seq<Bucket<K, T>>, k: K, x: T): seq<Bucket<K, T>>
  {
    var i := FindKey(gs, k);
    if i < |gs| then gs[i := Bucket(k, gs[i].members + [x])]
    else gs + [Bucket(k, [x])]
  }

  /** `gs` is the grouping of `xs` by `key`: its keys are the distinct keys
      of `xs` in first-seen order and each bucket holds exactly the elements
      with that key, in input order. */
  ghost predicate Grouped<T(!new), K(!new)>(xs: seq<T>, key: T -> K, gs: seq<Bucket<K, T>>)
  {
    var ks := Dedup(Project(xs, key));
    && |gs| == |ks|
    && forall i :: 0 <= i < |gs| ==> gs[i].key == ks[i] && gs[i].members == Having(xs, key, ks[i])
  }

  lemma InsertKeepsGrouped<T(!new), K(!new)>(xs: seq<T>, x: T, key: T -> K, gs: seq<Bucket<K, T>>)
    requires Grouped(xs, key, gs)
    ensures Grouped(xs + [x], key, Insert(gs, key(x), x))
  {
    ProjectSnoc(xs, x, key);
    DedupSnoc(Project(xs, key), key(x));
    if FindKey(gs, key(x)) < |gs| {
      InsertIntoBucket(xs, x, key, gs);
    } else {
      InsertNewBucket(xs, x, key, gs);
    }
  }

  lemma InsertIntoBucket<T(!new), K(!new)>(xs: seq<T>, x: T, key: T -> K, gs: seq<Bucket<K, T>>)
    requires Grouped(xs, key, gs)
    requires FindKey(gs, key(x)) < |gs|
    requires Dedup(Project(xs + [x], key)) == Dedup(Project(xs, key))
    ensures Grouped(xs + [x], key, Insert(gs, key(x), x))
  {
    var ks := Dedup(Project(xs, key));
    var i := FindKey(gs, key(x));
    var gs' := Insert(gs, key(x), x);
    forall j | 0 <= j < |gs'|
      ensures gs'[j].members == Having(xs + [x], key, ks[j])
    {
      HavingSnoc(xs, x, key, ks[j]);
      if j != i {
        assert ks[j] != ks[i];
      }
    }
  }

  lemma InsertNewBucket<T(!new), K(!new)>(xs: seq<T>, x: T, key: T -> K, gs: seq<Bucket<K, T>>)
    requires Grouped(xs, key, gs)
    requires FindKey(gs, key(x)) == |gs|
    requires Dedup(Project(xs + [x], key)) ==
      if key(x) in Dedup(Project(xs, key)) then Dedup(Project(xs, key)) else Dedup(Project(xs, key)) + [key(x)]
    ensures Grouped(xs + [x], key, Insert(gs, key(x), x))
  {
    var ks := Dedup(Project(xs, key));
    assert key(x) !in ks;
    HavingEmpty(xs, key, key(x));
    HavingSnoc(xs, x, key, key(x));
    var gs' := Insert(gs, key(x), x);
    forall j | 0 <= j < |gs|
      ensures gs'[j].members == Having(xs + [x], key, ks[j])
    {
      HavingSnoc(xs, x, key, ks[j]);
    }
  }

  /** `d3.nest().key(key).entries(xs)` before any rollup. */
  function GroupBy<T(!new), K(==,!new)>(xs: seq<T>, key: T -> K): (gs: seq<Bucket<K, T>>)
    ensures Grouped(xs, key, gs)
  {
    if |xs| == 0 then []
    else
      var init, x := xs[..|xs| - 1], xs[|xs| - 1];
      assert xs == init + [x];
      var gs := GroupBy(init, key);
      InsertKeepsGrouped(init, x, key, gs);
      Insert(gs, key(x), x)
  }
}
