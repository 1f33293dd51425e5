/** Optional values, and arbitrary elements of sets. */
module Collections {

  datatype Option<T> = None | Some(value: T)

  method PickAny<T(==)>(s: set<T>) returns (x: T)
    requires s != {}
    ensures x in s
  {
    x :| x in s;
  }

  ghost function AnyOf<T>(s: set<T>): (x: T)
    requires s != {}
    ensures x in s
  {
    var x :| x in s;
    x
  }

  lemma ProperSubsetIsSmaller<T>(a: set<T>, b: set<T>)
    requires a <= b && a != b
    ensures |a| < |b|
  {
    assert b == a + (b - a);
    assert b - a != {};
  }
}
