// Duplicate-free sequences and the sets of their elements.
module Sequences {
  ghost predicate Distinct<T>(list: seq<T>) {
    forall i, j :: 0 <= i < j < |list| ==> list[i] != list[j]
  }

  ghost function Members<T>(list: seq<T>): set<T> {
    set x | x in list
  }

  lemma {:induction false} DistinctSize<T>(list: seq<T>)
    requires Distinct(list)
    ensures |Members(list)| == |list|
  {
    if list != [] {
      var n := |list| - 1;
      DistinctSize(list[..n]);
      assert Members(list) == Members(list[..n]) + {list[n]};
    }
  }

  lemma {:induction false} SubsetSize<T>(a: set<T>, b: set<T>)
    requires a <= b
    ensures |a| <= |b|
  {
    if a != {} {
      var x :| x in a;
      SubsetSize(a - {x}, b - {x});
    }
  }
}
