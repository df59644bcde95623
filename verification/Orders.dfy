// Sorting distinct things by a strict order.
module Orders {

  /** On these items the order is strict and total. */
  ghost predicate Orders<T(!new)>(less: (T, T) -> bool, items: set<T>) {
    && (forall a :: a in items ==> !less(a, a))
    && (forall a, b :: a in items && b in items ==> a == b || less(a, b) || less(b, a))
    && (forall a, b, c :: a in items && b in items && c in items && less(a, b) && less(b, c) ==> less(a, c))
  }

  predicate IsFirst<T>(less: (T, T) -> bool, first: T, items: set<T>) {
    first in items && forall other :: other in items ==> other == first || less(first, other)
  }

  lemma {:induction false} FirstExists<T(!new)>(less: (T, T) -> bool, items: set<T>)
    requires Orders(less, items) && items != {}
    ensures exists first :: IsFirst(less, first, items)
    decreases |items|
  {
    var item :| item in items;
    var rest := items - {item};
    if rest == {} {
      assert items == rest + {item};
      assert IsFirst(less, item, items);
    } else {
      FirstExists(less, rest);
      var first :| IsFirst(less, first, rest);
      assert IsFirst(less, if less(first, item) then first else item, items);
    }
  }

  lemma FirstIsUnique<T(!new)>(less: (T, T) -> bool, items: set<T>, a: T, b: T)
    requires Orders(less, items) && IsFirst(less, a, items) && IsFirst(less, b, items)
    ensures a == b
  {}

  function First<T(!new)>(less: (T, T) -> bool, items: set<T>): (first: T)
    requires Orders(less, items) && items != {}
    ensures IsFirst(less, first, items)
  {
    FirstExists(less, items);
    var first :| first in items && IsFirst(less, first, items);
    first
  }

  function Sorted<T(!new)>(less: (T, T) -> bool, items: set<T>): seq<T>
    requires Orders(less, items)
  {
    if items == {} then []
    else
      var first := First(less, items);
      [first] + Sorted(less, items - {first})
  }

  lemma {:induction false} SortedHoldsAll<T(!new)>(less: (T, T) -> bool, items: set<T>)
    requires Orders(less, items)
    ensures forall x :: x in Sorted(less, items) <==> x in items
    ensures |Sorted(less, items)| == |items|
  {
    if items != {} { SortedHoldsAll(less, items - {First(less, items)}); }
  }

  lemma {:induction false} SortedIsInOrder<T(!new)>(less: (T, T) -> bool, items: set<T>)
    requires Orders(less, items)
    ensures forall i, j :: 0 <= i < j < |Sorted(less, items)| ==> less(Sorted(less, items)[i], Sorted(less, items)[j])
  {
    if items != {} {
      SortedIsInOrder(less, items - {First(less, items)});
      SortedHoldsAll(less, items - {First(less, items)});
    }
  }
}
