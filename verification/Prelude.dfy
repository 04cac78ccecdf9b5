/** Datatypes and small facts shared by the other modules. */
module Prelude {

  type byte = n: int | 0 <= n < 256

  type Bytes = seq<byte>

  datatype Option<+T> = None | Some(value: T)

  /** The elements of `xs` that belong to `keep`, in their order. */
  function Filter<T(==)>(xs: seq<T>, keep: set<T>): seq<T> {
    if xs == [] then []
    else (if xs[0] in keep then [xs[0]] else []) + Filter(xs[1..], keep)
  }

  ghost predicate NoDuplicates<T>(xs: seq<T>) {
    forall i, j :: 0 <= i < j < |xs| ==> xs[i] != xs[j]
  }

  lemma {:induction false} FilterMembers<T>(xs: seq<T>, keep: set<T>)
    ensures forall x :: x in Filter(xs, keep) <==> x in xs && x in keep
    ensures NoDuplicates(xs) ==> NoDuplicates(Filter(xs, keep))
  {
    if xs != [] {
      FilterMembers(xs[1..], keep);
      assert xs == [xs[0]] + xs[1..];
      if NoDuplicates(xs) {
        assert NoDuplicates(xs[1..]);
        assert xs[0] !in xs[1..];
      }
    }
  }

  lemma FilterCons<T>(x: T, xs: seq<T>, keep: set<T>)
    ensures Filter([x] + xs, keep) == (if x in keep then [x] else []) + Filter(xs, keep)
  {
    assert ([x] + xs)[1..] == xs;
  }

  lemma {:induction false} FilterConcat<T>(xs: seq<T>, ys: seq<T>, keep: set<T>)
    ensures Filter(xs + ys, keep) == Filter(xs, keep) + Filter(ys, keep)
  {
    if xs == [] {
      assert xs + ys == ys;
    } else {
      FilterConcat(xs[1..], ys, keep);
      FilterCons(xs[0], xs[1..], keep);
      FilterCons(xs[0], xs[1..] + ys, keep);
      assert xs == [xs[0]] + xs[1..];
      assert xs + ys == [xs[0]] + (xs[1..] + ys);
    }
  }

  /** Filtering twice keeps what both sets keep. */
  lemma {:induction false} FilterFilter<T>(xs: seq<T>, first: set<T>, second: set<T>)
    ensures Filter(Filter(xs, first), second) == Filter(xs, first * second)
  {
    if xs != [] {
      FilterFilter(xs[1..], first, second);
      var head := if xs[0] in first then [xs[0]] else [];
      FilterConcat(head, Filter(xs[1..], first), second);
    }
  }

  /** Only the part of `keep` that occurs in `xs` matters. */
  lemma {:induction false} FilterCong<T>(xs: seq<T>, a: set<T>, b: set<T>)
    requires forall x :: x in xs ==> (x in a <==> x in b)
    ensures Filter(xs, a) == Filter(xs, b)
  {
    if xs != [] {
      forall x | x in xs[1..] ensures x in xs {}
      FilterCong(xs[1..], a, b);
      assert xs[0] in xs;
    }
  }

  lemma {:induction false} FilterAll<T>(xs: seq<T>, keep: set<T>)
    requires forall x :: x in xs ==> x in keep
    ensures Filter(xs, keep) == xs
  {
    if xs != [] {
      forall x | x in xs[1..] ensures x in xs {}
      FilterAll(xs[1..], keep);
      assert xs[0] in xs;
    }
  }

  lemma SubsetSize<T>(a: set<T>, b: set<T>)
    requires a <= b
    ensures |a| <= |b|
  {
    assert a + (b - a) == b;
  }

  lemma SomeMember<T>(xs: set<T>)
    requires |xs| > 0
    ensures exists x :: x in xs
  {
    assert xs != {};
  }

  /** The total of a finite map of sizes. */
  ghost function Total<K(!new)>(m: map<K, nat>): nat
    decreases |m|
  {
    if m == map[] then 0
    else
      var k :| k in m;
      assert |m - {k}| < |m| by { RemoveShrinks(m, k); }
      m[k] + Total(m - {k})
  }

  lemma RemoveShrinks<K, V>(m: map<K, V>, k: K)
    requires k in m
    ensures |m - {k}| == |m| - 1
  {
    assert (m - {k}).Keys == m.Keys - {k};
  }

  lemma {:induction false} TotalRemove<K(!new)>(m: map<K, nat>, k: K)
    requires k in m
    ensures Total(m) == m[k] + Total(m - {k})
    decreases |m|
  {
    var j :| j in m && Total(m) == m[j] + Total(m - {j});
    if j != k {
      RemoveShrinks(m, j);
      RemoveShrinks(m, k);
      TotalRemove(m - {j}, k);
      TotalRemove(m - {k}, j);
      assert m - {j} - {k} == m - {k} - {j};
    }
  }

  lemma TotalInsert<K(!new)>(m: map<K, nat>, k: K, n: nat)
    requires k !in m
    ensures Total(m[k := n]) == Total(m) + n
  {
    TotalRemove(m[k := n], k);
    assert m[k := n] - {k} == m;
  }
}
