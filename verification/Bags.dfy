/** Laws of multiset sums. */
module Bags {

  lemma Cancel<T>(x: multiset<T>, y: multiset<T>, z: multiset<T>, w: multiset<T>)
    requires x + y == z + (y + w)
    ensures x == z + w
  {
    forall t ensures x[t] == (z + w)[t] {
      assert (x + y)[t] == (z + (y + w))[t];
    }
  }

  lemma CancelSame<T>(x: multiset<T>, y: multiset<T>, z: multiset<T>)
    requires x + y == z + y
    ensures x == z
  {
    forall t ensures x[t] == z[t] {
      assert (x + y)[t] == (z + y)[t];
    }
  }

  /** An exchange behind `first`. */
  lemma Behind<T>(first: multiset<T>, x: multiset<T>, a: multiset<T>, y: multiset<T>, b: multiset<T>)
    requires x + a == y + b
    ensures (first + x) + a == (first + y) + b
  {
    assert (first + x) + a == first + (x + a);
    assert (first + y) + b == first + (y + b);
  }

  lemma Associate<T>(x: multiset<T>, y: multiset<T>, z: multiset<T>)
    ensures (x + y) + z == x + (y + z)
  {
  }

  lemma Rotate<T>(a: multiset<T>, rest: multiset<T>, b: multiset<T>)
    ensures (a + rest) + b == (b + rest) + a
  {
  }

  lemma Interchange<T>(a: multiset<T>, b: multiset<T>, c: multiset<T>, d: multiset<T>)
    ensures (a + b) + (c + d) == (a + c) + (b + d)
  {
  }

  /** Moving the elements of `a` from one side of a sum to the other. */
  lemma Move<T>(x: multiset<T>, y: multiset<T>, a: multiset<T>, x': multiset<T>, y': multiset<T>)
    requires x' == x + a && y == y' + a
    ensures x' + y' == x + y
  {
  }
}
