/** Sizes of sets. */
module Sets {
  lemma {:induction false} SubsetSize<T>(a: set<T>, b: set<T>)
    requires a <= b
    ensures |a| <= |b|
    ensures |a| == |b| ==> a == b
  {
    if a != {} {
      var y :| y in a;
      SubsetSize(a - {y}, b - {y});
      assert a == (a - {y}) + {y} && b == (b - {y}) + {y};
    }
  }
}
