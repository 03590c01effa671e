/** Lists without repetition and the sets of their elements. */
module Sequences {

  predicate Differ(values: seq<string>, i: int, j: int)
    requires 0 <= i < j < |values|
  {
    values[i] != values[j]
  }

  predicate Distinct(values: seq<string>) {
    forall i, j :: 0 <= i < j < |values| ==> Differ(values, i, j)
  }

  function Members(values: seq<string>): set<string> {
    set v | v in values
  }

  lemma DistinctAppend(values: seq<string>, v: string)
    requires Distinct(values) && v !in values
    ensures Distinct(values + [v])
  {
    forall i, j | 0 <= i < j <= |values| ensures Differ(values + [v], i, j) {
      if j < |values| { assert Differ(values, i, j); }
    }
  }

  lemma SubsetSize<T>(a: set<T>, b: set<T>)
    requires a <= b
    ensures |a| <= |b|
    ensures |a| == |b| ==> a == b
  {
    assert b == a + (b - a);
  }

  /** A list without repetition has as many members as elements. */
  lemma {:induction false} DistinctSize(values: seq<string>)
    requires Distinct(values)
    ensures |Members(values)| == |values|
  {
    if values != [] {
      var n := |values| - 1;
      forall i, j | 0 <= i < j < n ensures Differ(values[..n], i, j) { assert Differ(values, i, j); }
      forall i | 0 <= i < n ensures values[i] != values[n] { assert Differ(values, i, n); }
      DistinctSize(values[..n]);
      assert Members(values) == Members(values[..n]) + {values[n]};
    }
  }
}
