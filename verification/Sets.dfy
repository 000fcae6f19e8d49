/** Finite sets. */
module Sets {
  lemma {:induction false} SubsetSize<T>(a: set<T>, b: set<T>)
    requires a <= b
    ensures |a| <= |b|
  {
    if |a| != 0 {
      var x :| x in a;
      SubsetSize(a - {x}, b - {x});
    }
  }
}
