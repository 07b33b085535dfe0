/** Turning a set into a list, in whatever order a hash table happens to hold it. */
module Enumeration {

  /** `order` lists the elements of `s`, each once: one possible hash-map iteration order. */
  predicate Enumerates<T(==)>(order: seq<T>, s: set<T>) {
    && (forall x :: x in order ==> x in s)
    && (forall x :: x in s ==> x in order)
    && (forall i, j :: 0 <= i < j < |order| ==> order[i] != order[j])
  }

  lemma {:induction false} EnumerationLength<T>(order: seq<T>, s: set<T>)
    requires Enumerates(order, s)
    ensures |order| == |s|
  {
    if order == [] {
      assert s == {};
    } else {
      var x := order[|order| - 1];
      var rest := order[..|order| - 1];
      forall y ensures y in rest <==> y in s - {x} {
        if y in s - {x} { assert y in order; var k :| 0 <= k < |order| && order[k] == y; assert rest[k] == y; }
        if y in rest { assert y in order; }
      }
      EnumerationLength(rest, s - {x});
      assert x in order;
    }
  }
}
