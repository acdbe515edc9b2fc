/** Sizes of sets, and of the sets sequences hold. */
module Sets {
  lemma SubsetSize<T>(a: set<T>, b: set<T>)
    requires a <= b
    ensures |a| <= |b|
    ensures a != b ==> |a| < |b|
  {
    assert b == a + (b - a);
    if |b - a| == 0 {
      assert b - a == {};
    }
  }

  ghost function Elements<T>(items: seq<T>): set<T> { set i | 0 <= i < |items| :: items[i] }

  ghost predicate NoRepeat<T>(items: seq<T>) {
    forall i, j :: 0 <= i < j < |items| ==> items[i] != items[j]
  }

  lemma ElementsSnoc<T>(items: seq<T>)
    requires items != []
    ensures Elements(items) == Elements(items[..|items| - 1]) + {items[|items| - 1]}
  {
    var n := |items| - 1;
    forall x | x in Elements(items) ensures x in Elements(items[..n]) + {items[n]} {
      var i :| 0 <= i < |items| && items[i] == x;
      assert i < n ==> items[..n][i] == x;
    }
    forall x | x in Elements(items[..n]) ensures x in Elements(items) {
      var i :| 0 <= i < n && items[..n][i] == x;
      assert items[i] == x;
    }
  }

  lemma {:induction false} DistinctSize<T>(items: seq<T>)
    requires NoRepeat(items)
    ensures |Elements(items)| == |items|
  {
    if items == [] {
      assert Elements(items) == {};
    } else {
      var n := |items| - 1;
      DistinctSize(items[..n]);
      ElementsSnoc(items);
      assert items[n] !in Elements(items[..n]);
      hide Elements;
    }
  }

  ghost function Image<A, B>(items: set<A>, f: A -> B): set<B> { set x | x in items :: f(x) }

  /** An image has at most as many elements as the set, and as many exactly when
      no two elements share one. */
  lemma {:induction false} ImageSize<A, B>(items: set<A>, f: A -> B)
    ensures |Image(items, f)| <= |items|
    ensures |Image(items, f)| == |items| <==> forall x, y :: x in items && y in items && f(x) == f(y) ==> x == y
    decreases |items|
  {
    if items == {} {
      assert Image(items, f) == {};
    } else {
      var x :| x in items;
      var rest := items - {x};
      ImageSize(rest, f);
      if f(x) in Image(rest, f) {
        var y :| y in rest && f(y) == f(x);
        assert Image(items, f) == Image(rest, f);
        assert x in items && y in items && f(x) == f(y) && x != y;
      } else {
        assert Image(items, f) == Image(rest, f) + {f(x)};
        assert forall y :: y in rest ==> f(y) in Image(rest, f);
      }
    }
  }
}
