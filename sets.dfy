// Facts about finite sets used by the counting arguments of the model.
module Sets {
  /** A subset is no larger than its superset. */
  lemma {:induction false} SubsetCard<T>(x: set<T>, y: set<T>)
    requires x <= y
    ensures |x| <= |y|
    decreases |y|
  {
    if x != {} {
      var e :| e in x;
      SubsetCard(x - {e}, y - {e});
    }
  }
}
