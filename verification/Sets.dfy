/** Finite sets. */
module Sets {

  /** The elements of a sequence. */
  function Elements<T(==)>(s: seq<T>): set<T> { set x | x in s }

  lemma {:induction false} SubsetSize<T>(a: set<T>, b: set<T>)
    requires a <= b
    ensures |a| <= |b|
  {
    assert b == a + (b - a);
  }

  lemma {:induction false} AtMostOne<T>(s: set<T>)
    requires forall x, y :: x in s && y in s ==> x == y
    ensures |s| <= 1
  {
    if x :| x in s { assert s == {x}; }
  }

  /** Sets that differ within `s` only. */
  lemma {:induction false} SameBut<T>(a: set<T>, b: set<T>, s: set<T>, bound: set<T>)
    requires b - s == a - s && a <= bound
    ensures b <= bound + s && b - s <= bound - s
  {
    forall x | x in b && x !in s ensures x in bound { assert x in b - s; }
  }
}
