/** Iterating over sets, whose order is not known. */
module Sets {
  method Pick<T(==)>(s: set<T>) returns (x: T)
    requires s != {}
    ensures x in s
  {
    x :| x in s;
  }

  /** A list of the set, in whatever order the set yields. */
  method ListOf<T(==)>(s: set<T>) returns (list: seq<T>)
    ensures forall x :: x in list <==> x in s
    ensures forall i, k :: 0 <= i < k < |list| ==> list[i] != list[k]
  {
    list := [];
    var rest := s;
    while rest != {}
      invariant rest <= s && forall x :: x in list <==> x in s - rest
      invariant forall i, k :: 0 <= i < k < |list| ==> list[i] != list[k]
      decreases |rest|
    {
      var x := Pick(rest);
      assert x !in list;
      list, rest := list + [x], rest - {x};
    }
  }

  lemma SubsetSize<T>(a: set<T>, b: set<T>)
    requires a <= b
    ensures |b - a| == |b| - |a|
    ensures |a| <= |b| && (a != b ==> |a| < |b|)
  {}
}
