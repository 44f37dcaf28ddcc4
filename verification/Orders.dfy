/**
 Iteration orders. A `HashMap` hands out its entries in some order that nothing in the
 program fixes; it is modelled as an arbitrary duplicate-free sequence of the keys, and
 every result holds for each of them.
 */
module Orders {
  ghost predicate Distinct<T>(order: seq<T>) {
    forall i, j :: 0 <= i < j < |order| ==> order[i] != order[j]
  }

  ghost predicate IsOrder<T(!new)>(order: seq<T>, keys: set<T>) {
    Distinct(order) && forall k :: k in order <==> k in keys
  }

  /** Iterating a hash map: some order of its keys. */
  method Iterate<T(==, !new)>(keys: set<T>) returns (order: seq<T>)
    ensures IsOrder(order, keys)
  {
    order := [];
    var remaining := keys;
    while remaining != {}
      invariant remaining <= keys
      invariant IsOrder(order, keys - remaining)
      decreases remaining
    {
      var k :| k in remaining;
      order := order + [k];
      remaining := remaining - {k};
    }
  }

  lemma OrderExists<T(!new)>(keys: set<T>)
    ensures exists order :: IsOrder(order, keys)
  {
    if keys == {} {
      assert IsOrder([], keys);
    } else {
      var k :| k in keys;
      OrderExists(keys - {k});
      var order :| IsOrder(order, keys - {k});
      assert IsOrder(order + [k], keys);
    }
  }

  lemma {:induction false} OrderLength<T(!new)>(order: seq<T>, keys: set<T>)
    requires IsOrder(order, keys)
    ensures |order| == |keys|
  {
    if order == [] {
      assert keys == {};
    } else {
      var last := order[|order| - 1];
      OrderLength(order[..|order| - 1], keys - {last});
    }
  }
}
