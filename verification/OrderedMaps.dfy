/** Insertion-ordered maps, the part of a JavaScript `Map` the models rely on: setting a
    present key keeps its position, setting an absent key appends it, and deleting a key
    closes the gap. */
module OrderedMaps {

  /** The elements of xs that lie in keep, in their order. */
  function Select<T(==, !new)>(xs: seq<T>, keep: set<T>): (r: seq<T>)
    ensures forall x :: x in r <==> x in xs && x in keep
  {
    if xs == [] then []
    else
      var front := Select(xs[..|xs| - 1], keep);
      var last := xs[|xs| - 1];
      if last in keep then front + [last] else front
  }

  function At<T>(xs: seq<T>, i: int): T
    requires 0 <= i < |xs|
  {
    xs[i]
  }

  /** No element occurs twice. */
  ghost predicate Distinct<T>(xs: seq<T>) {
    forall i, j {:trigger At(xs, i), At(xs, j)} :: 0 <= i < j < |xs| ==> At(xs, i) != At(xs, j)
  }

  lemma DistinctAt<T>(xs: seq<T>, i: int, j: int)
    requires Distinct(xs) && 0 <= i < |xs| && 0 <= j < |xs| && xs[i] == xs[j]
    ensures i == j
  {
    assert At(xs, i) == At(xs, j);
  }

  lemma DistinctPrefix<T>(xs: seq<T>, n: nat)
    requires Distinct(xs) && n <= |xs|
    ensures Distinct(xs[..n])
    ensures n < |xs| ==> xs[n] !in xs[..n]
  {
    forall i, j | 0 <= i < j < n ensures At(xs[..n], i) != At(xs[..n], j) {
      assert At(xs, i) != At(xs, j);
    }
    if n < |xs| && xs[n] in xs[..n] {
      var i :| 0 <= i < n && xs[i] == xs[n];
      DistinctAt(xs, i, n);
    }
  }

  lemma DistinctAppend<T>(xs: seq<T>, x: T)
    requires Distinct(xs) && x !in xs
    ensures Distinct(xs + [x])
  {
    forall i, j | 0 <= i < j < |xs + [x]| ensures At(xs + [x], i) != At(xs + [x], j) {
      if j < |xs| {
        assert At(xs, i) != At(xs, j);
      }
    }
  }

  lemma {:induction false} SelectDistinct<T(!new)>(xs: seq<T>, keep: set<T>)
    requires Distinct(xs)
    ensures Distinct(Select(xs, keep))
  {
    if xs != [] {
      DistinctPrefix(xs, |xs| - 1);
      SelectDistinct(xs[..|xs| - 1], keep);
      if xs[|xs| - 1] in keep {
        DistinctAppend(Select(xs[..|xs| - 1], keep), xs[|xs| - 1]);
      }
    }
  }

  lemma {:induction false} SelectAll<T(!new)>(xs: seq<T>, keep: set<T>)
    requires forall x :: x in xs ==> x in keep
    ensures Select(xs, keep) == xs
  {
    if xs != [] {
      SelectAll(xs[..|xs| - 1], keep);
    }
  }

  lemma {:induction false} SelectTwice<T(!new)>(xs: seq<T>, a: set<T>, b: set<T>)
    ensures Select(Select(xs, a), b) == Select(xs, a * b)
  {
    if xs != [] {
      var front, last := xs[..|xs| - 1], xs[|xs| - 1];
      SelectTwice(front, a, b);
      if last in a {
        assert Select(xs, a)[..|Select(xs, a)| - 1] == Select(front, a);
      }
    }
  }

  lemma {:induction false} SelectSame<T(!new)>(xs: seq<T>, a: set<T>, b: set<T>)
    requires forall x :: x in xs ==> (x in a <==> x in b)
    ensures Select(xs, a) == Select(xs, b)
  {
    if xs != [] {
      SelectSame(xs[..|xs| - 1], a, b);
    }
  }

  datatype OrderedMap<K(==, !new), V> = OrderedMap(keys: seq<K>, m: map<K, V>) {

    /** The keys listed are the keys mapped. */
    ghost predicate Matched() {
      forall k :: k in keys <==> k in m
    }

    ghost predicate Valid() {
      Distinct(keys) && Matched()
    }

    function Set(k: K, v: V): OrderedMap<K, V> {
      OrderedMap(if k in m then keys else keys + [k], m[k := v])
    }

    /** The entries whose keys lie in keep. */
    function Restrict(keep: set<K>): OrderedMap<K, V> {
      OrderedMap(Select(keys, keep), map k | k in m && k in keep :: m[k])
    }

    function Delete(k: K): OrderedMap<K, V> {
      OrderedMap(Select(keys, m.Keys - {k}), m - {k})
    }

    lemma SetValid(k: K, v: V)
      requires Valid()
      ensures Set(k, v).Valid()
    {
      if k !in m {
        DistinctAppend(keys, k);
      }
    }

    lemma RestrictValid(keep: set<K>)
      requires Valid()
      ensures Restrict(keep).Valid()
    {
      SelectDistinct(keys, keep);
    }

    lemma DeleteValid(k: K)
      requires Valid()
      ensures Delete(k).Valid()
    {
      SelectDistinct(keys, m.Keys - {k});
    }

    lemma RestrictDelete(keep: set<K>, k: K)
      requires Matched()
      ensures Restrict(keep).Delete(k) == Restrict(keep - {k})
    {
      var known := Restrict(keep).m.Keys - {k};
      assert Restrict(keep).m - {k} == Restrict(keep - {k}).m;
      SelectTwice(keys, keep, known);
      SelectSame(keys, keep * known, keep - {k});
    }

    lemma RestrictAll(keep: set<K>)
      requires Matched() && m.Keys <= keep
      ensures Restrict(keep) == this
    {
      SelectAll(keys, keep);
      assert Restrict(keep).m == m;
    }
  }

  function Empty<K(==, !new), V>(): OrderedMap<K, V> {
    OrderedMap([], map[])
  }
}
