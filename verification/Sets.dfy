/** Sizes of finite sets. */
module Sets {
  lemma CardinalityLess<T>(a: set<T>, c: set<T>, x: T)
    requires a <= c - {x} && x in c
    ensures |a| + 1 <= |c|
  {
    SubsetCardinality(a, c - {x});
  }

  lemma {:induction false} SubsetCardinality<T>(a: set<T>, c: set<T>)
    requires a <= c
    ensures |a| <= |c|
  {
    if a != {} {
      var x :| x in a;
      SubsetCardinality(a - {x}, c - {x});
    }
  }
}
