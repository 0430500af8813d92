/** Sizes of sets and repeats in lists. */
module Collections {
  lemma SubsetSize<T>(a: set<T>, b: set<T>)
    requires a <= b
    ensures |a| <= |b|
  {
    assert b == a + (b - a);
  }

  predicate Distinct<T(==)>(xs: seq<T>) {
    forall i, j :: 0 <= i < j < |xs| ==> xs[i] != xs[j]
  }

  function Elements<T>(xs: seq<T>): set<T> {
    set x | x in xs
  }

  /** len(set(xs)) == len(xs) */
  lemma {:induction false} SizeTellsDistinct<T>(xs: seq<T>)
    ensures |Elements(xs)| <= |xs| && (|Elements(xs)| == |xs| <==> Distinct(xs))
    decreases |xs|
  {
    if xs == [] {
      assert Elements(xs) == {};
    } else {
      var front, last := xs[..|xs| - 1], xs[|xs| - 1];
      SizeTellsDistinct(front);
      assert xs == front + [last];
      assert Elements(xs) == Elements(front) + {last};
      assert last in front <==> exists i :: 0 <= i < |front| && xs[i] == last;
    }
  }
}
