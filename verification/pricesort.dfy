/**
 * The price sort of sortProduct: the array sort of JavaScript with the
 * comparator `a.price - b.price` ('low-high') or `b.price - a.price`
 * ('high-low'). That sort is stable, so it is modelled as a stable insertion
 * sort, and the lemmas below show that every sorted, stable reordering of a
 * list is the one this sort produces.
 */
module PriceSort {
  import opened Seqs
  import opened Shop

  /** The comparator handed to the array sort: negative when `a` goes first, zero on a tie. */
  function Compare(a: Product, b: Product, descending: bool): int
  {
    if descending then b.price - a.price else a.price - b.price
  }

  /**
   * The comparator ties exactly the products of equal price, and puts the
   * cheaper product first for 'low-high' and the dearer one for 'high-low'.
   */
  lemma CompareSign(a: Product, b: Product, descending: bool)
    ensures Compare(a, b, descending) == 0 <==> a.price == b.price
    ensures Compare(a, b, descending) < 0 <==> if descending then a.price > b.price else a.price < b.price
    ensures Compare(a, b, descending) == -Compare(b, a, descending)
  {
  }

  /** No pair of products is out of order for the comparator. */
  ghost predicate Sorted(s: seq<Product>, descending: bool)
  {
    forall i, j :: 0 <= i < j < |s| ==> Compare(s[i], s[j], descending) <= 0
  }

  /** The filter predicate "costs exactly `price`". */
  function PricedAt(price: int): Product -> bool
  {
    (p: Product) => p.price == price
  }

  /**
   * Stability: products of equal price appear in the same relative order in
   * `r` as in `s`, and the same products have each price.
   */
  ghost predicate SamePriceOrder(r: seq<Product>, s: seq<Product>)
  {
    forall price :: Filter(r, PricedAt(price)) == Filter(s, PricedAt(price))
  }

  /**
   * Inserts `x` into `s` behind every product that the comparator does not
   * put after `x`, scanning from the back.
   */
  function Insert(s: seq<Product>, x: Product, descending: bool): seq<Product>
  {
    if s == [] || Compare(s[|s| - 1], x, descending) <= 0 then s + [x]
    else Insert(s[..|s| - 1], x, descending) + [s[|s| - 1]]
  }

  /** `s` sorted by price, stably: the insertion sort of its elements from left to right. */
  function SortByPrice(s: seq<Product>, descending: bool): seq<Product>
  {
    if s == [] then []
    else Insert(SortByPrice(s[..|s| - 1], descending), s[|s| - 1], descending)
  }

  /** Insertion adds exactly `x`. */
  lemma {:induction false} InsertPermutes(s: seq<Product>, x: Product, descending: bool)
    ensures multiset(Insert(s, x, descending)) == multiset(s) + multiset{x}
    decreases |s|
  {
    if s != [] && Compare(s[|s| - 1], x, descending) > 0 {
      assert s == s[..|s| - 1] + [s[|s| - 1]];
      InsertPermutes(s[..|s| - 1], x, descending);
    }
  }

  /** The sort is a permutation: it neither adds, drops nor duplicates a product. */
  lemma {:induction false} SortByPricePermutes(s: seq<Product>, descending: bool)
    ensures multiset(SortByPrice(s, descending)) == multiset(s)
    decreases |s|
  {
    if s != [] {
      assert s == s[..|s| - 1] + [s[|s| - 1]];
      SortByPricePermutes(s[..|s| - 1], descending);
      InsertPermutes(SortByPrice(s[..|s| - 1], descending), s[|s| - 1], descending);
    }
  }

  /**
   * Appending a product of another price than `x` after a list whose price
   * filter puts `x` last moves `x` behind it in that filter.
   */
  lemma StableStep(u: seq<Product>, init: seq<Product>, x: Product, last: Product, price: int)
    requires x.price != last.price
    requires Filter(u, PricedAt(price)) == Filter(init, PricedAt(price)) + Filter([x], PricedAt(price))
    ensures Filter(u + [last], PricedAt(price)) ==
            Filter(init + [last], PricedAt(price)) + Filter([x], PricedAt(price))
  {
    FilterSnoc(u, last, PricedAt(price));
    FilterSnoc(init, last, PricedAt(price));
  }

  /** Inserting into a sorted list keeps it sorted. */
  lemma {:induction false} InsertSorted(s: seq<Product>, x: Product, descending: bool)
    requires Sorted(s, descending)
    ensures Sorted(Insert(s, x, descending), descending)
    decreases |s|
  {
    if s != [] && Compare(s[|s| - 1], x, descending) > 0 {
      var init, last := s[..|s| - 1], s[|s| - 1];
      InsertSorted(init, x, descending);
      InsertPermutes(init, x, descending);
      var u := Insert(init, x, descending);
      forall e | e in u ensures Compare(e, last, descending) <= 0 {
        assert e in multiset(init) + multiset{x};
        if e != x {
          var i :| 0 <= i < |init| && init[i] == e;
        }
      }
      var r := u + [last];
      forall i, j | 0 <= i < j < |r| ensures Compare(r[i], r[j], descending) <= 0 {
        if j == |u| {
          assert r[i] in u;
        } else {
          assert r[i] == u[i] && r[j] == u[j];
        }
      }
    }
  }

  /** The sort's result is in comparator order. */
  lemma {:induction false} SortByPriceSorted(s: seq<Product>, descending: bool)
    ensures Sorted(SortByPrice(s, descending), descending)
    decreases |s|
  {
    if s != [] {
      SortByPriceSorted(s[..|s| - 1], descending);
      InsertSorted(SortByPrice(s[..|s| - 1], descending), s[|s| - 1], descending);
    }
  }

  /** Insertion puts `x` behind every product of its price. */
  lemma {:induction false} InsertStable(s: seq<Product>, x: Product, descending: bool, price: int)
    ensures Filter(Insert(s, x, descending), PricedAt(price)) ==
            Filter(s, PricedAt(price)) + Filter([x], PricedAt(price))
    decreases |s|
  {
    if s == [] || Compare(s[|s| - 1], x, descending) <= 0 {
      FilterConcat(s, [x], PricedAt(price));
    } else {
      var init, last := s[..|s| - 1], s[|s| - 1];
      assert s == init + [last];
      InsertStable(init, x, descending, price);
      StableStep(Insert(init, x, descending), init, x, last, price);
    }
  }

  /** The sort is stable: products of equal price keep their relative order. */
  lemma {:induction false} SortByPriceStable(s: seq<Product>, descending: bool)
    ensures SamePriceOrder(SortByPrice(s, descending), s)
    decreases |s|
  {
    if s != [] {
      var init, last := s[..|s| - 1], s[|s| - 1];
      assert s == init + [last];
      SortByPriceStable(init, descending);
      forall price
        ensures Filter(SortByPrice(s, descending), PricedAt(price)) == Filter(s, PricedAt(price))
      {
        InsertStable(SortByPrice(init, descending), last, descending, price);
        FilterConcat(init, [last], PricedAt(price));
      }
    }
  }

  /**
   * Sorted, stable reorderings are unique: a list in comparator order whose
   * products of each price are those of `s`, in the order of `s`, is exactly
   * `SortByPrice(s)`. So the model agrees with any stable sort, the array
   * sort of JavaScript included.
   */
  lemma SortByPriceUnique(s: seq<Product>, r: seq<Product>, descending: bool)
    requires Sorted(r, descending)
    requires SamePriceOrder(r, s)
    ensures r == SortByPrice(s, descending)
  {
    var u := SortByPrice(s, descending);
    SortByPriceSorted(s, descending);
    SortByPriceStable(s, descending);
    SortedStableEqual(r, u, descending);
  }

  /**
   * Lists that agree on each price's products sort to the same list, so
   * re-sorting a price-sorted list gives the sort of the list it came from.
   */
  lemma SortAgrees(r: seq<Product>, s: seq<Product>, descending: bool)
    requires SamePriceOrder(r, s)
    ensures SortByPrice(r, descending) == SortByPrice(s, descending)
  {
    var u := SortByPrice(r, descending);
    SortByPriceSorted(r, descending);
    SortByPriceStable(r, descending);
    assert SamePriceOrder(u, s);
    SortByPriceUnique(s, u, descending);
  }

  /** Two lists in comparator order that agree on each price's products are equal. */
  lemma {:induction false} SortedStableEqual(r: seq<Product>, u: seq<Product>, descending: bool)
    requires Sorted(r, descending) && Sorted(u, descending)
    requires SamePriceOrder(r, u)
    ensures r == u
    decreases |r|
  {
    if r == [] || u == [] {
      SamePriceOrderEmpty(r, u);
    } else {
      LastSamePrice(r, u, descending);
      SamePriceOrderDropLast(r, u);
      SortedStableEqual(r[..|r| - 1], u[..|u| - 1], descending);
      assert r == r[..|r| - 1] + [r[|r| - 1]] && u == u[..|u| - 1] + [u[|u| - 1]];
    }
  }

  /** A list that agrees on each price's products with the empty list is empty. */
  lemma SamePriceOrderEmpty(r: seq<Product>, u: seq<Product>)
    requires SamePriceOrder(r, u)
    requires r == [] || u == []
    ensures r == u
  {
    if r != [] {
      PricedIn(r, r[0]);
      assert false;
    } else if u != [] {
      PricedIn(u, u[0]);
      assert false;
    }
  }

  /** A product of a list is kept by the filter for its own price. */
  lemma PricedIn(s: seq<Product>, e: Product)
    requires e in s
    ensures e in Filter(s, PricedAt(e.price))
  {
  }

  /** In comparator order, the last product is not put before any other. */
  lemma SortedLast(r: seq<Product>, e: Product, descending: bool)
    requires Sorted(r, descending)
    requires e in r
    ensures Compare(e, r[|r| - 1], descending) <= 0
  {
    var i :| 0 <= i < |r| && r[i] == e;
    if i < |r| - 1 {
      assert Compare(r[i], r[|r| - 1], descending) <= 0;
    }
  }

  /** Two sorted lists that agree on each price's products end on the same price. */
  lemma LastSamePrice(r: seq<Product>, u: seq<Product>, descending: bool)
    requires Sorted(r, descending) && Sorted(u, descending)
    requires SamePriceOrder(r, u)
    requires r != [] && u != []
    ensures r[|r| - 1].price == u[|u| - 1].price
  {
    var lr, lu := r[|r| - 1], u[|u| - 1];
    assert Filter(r, PricedAt(lu.price)) == Filter(u, PricedAt(lu.price));
    assert lu in Filter(u, PricedAt(lu.price));
    SortedLast(r, lu, descending);
    assert Filter(r, PricedAt(lr.price)) == Filter(u, PricedAt(lr.price));
    assert lr in Filter(r, PricedAt(lr.price));
    SortedLast(u, lr, descending);
  }

  /**
   * Two lists that agree on each price's products and end on the same price
   * end on the same product, and agree without it.
   */
  lemma SamePriceOrderDropLast(r: seq<Product>, u: seq<Product>)
    requires SamePriceOrder(r, u)
    requires r != [] && u != [] && r[|r| - 1].price == u[|u| - 1].price
    ensures r[|r| - 1] == u[|u| - 1]
    ensures SamePriceOrder(r[..|r| - 1], u[..|u| - 1])
  {
    var r', lr := r[..|r| - 1], r[|r| - 1];
    var u', lu := u[..|u| - 1], u[|u| - 1];
    assert r == r' + [lr] && u == u' + [lu];
    forall price ensures Filter(r', PricedAt(price)) == Filter(u', PricedAt(price)) {
      DropLastAt(r', lr, u', lu, price);
    }
    DropLastAt(r', lr, u', lu, lr.price);
  }

  /** The price-`price` filters of two lists that agree, and end in products of one price, agree without those. */
  lemma DropLastAt(r: seq<Product>, lr: Product, u: seq<Product>, lu: Product, price: int)
    requires lr.price == lu.price
    requires Filter(r + [lr], PricedAt(price)) == Filter(u + [lu], PricedAt(price))
    ensures Filter(r, PricedAt(price)) == Filter(u, PricedAt(price))
    ensures price == lr.price ==> lr == lu
  {
    var same := PricedAt(price);
    FilterSnoc(r, lr, same);
    FilterSnoc(u, lu, same);
    if price == lr.price {
      var fr, fu := Filter(r, same), Filter(u, same);
      assert fr + [lr] == fu + [lu];
      assert (fr + [lr])[..|fr|] == fr && (fu + [lu])[..|fu|] == fu;
      assert (fr + [lr])[|fr|] == lr && (fu + [lu])[|fu|] == lu;
    }
  }

  /** Sorting one more element is inserting it into the sorted prefix. */
  lemma SortByPriceStep(s: seq<Product>, i: int, descending: bool)
    requires 0 <= i < |s|
    ensures SortByPrice(s[..i + 1], descending) == Insert(SortByPrice(s[..i], descending), s[i], descending)
  {
    assert s[..i + 1][..i] == s[..i];
  }

  /** The prices of a list, in list order. */
  function Prices(s: seq<Product>): (r: seq<int>)
    ensures |r| == |s|
    ensures forall i :: 0 <= i < |s| ==> r[i] == s[i].price
  {
    if s == [] then [] else [s[0].price] + Prices(s[1..])
  }

  /** A list of numbers read from the back. */
  function Reverse(x: seq<int>): (r: seq<int>)
    ensures |r| == |x|
    ensures forall i :: 0 <= i < |x| ==> r[i] == x[|x| - 1 - i]
  {
    if x == [] then [] else Reverse(x[1..]) + [x[0]]
  }

  /** No number is smaller than one after it. */
  ghost predicate Nonincreasing(x: seq<int>)
  {
    forall i, j :: 0 <= i < j < |x| ==> x[i] >= x[j]
  }

  /** A list holds as many products of a price as its price filter keeps. */
  lemma {:induction false} PricesCount(s: seq<Product>, price: int)
    ensures multiset(Prices(s))[price] == |Filter(s, PricedAt(price))|
  {
    if s != [] {
      assert Prices(s) == [s[0].price] + Prices(s[1..]);
      PricesCount(s[1..], price);
    }
  }

  /** Reading a list from the back keeps its multiset. */
  lemma {:induction false} ReversePermutes(x: seq<int>)
    ensures multiset(Reverse(x)) == multiset(x)
  {
    if x != [] {
      assert x == [x[0]] + x[1..];
      ReversePermutes(x[1..]);
    }
  }

  /** Two nonincreasing lists of the same numbers are equal. */
  lemma {:induction false} NonincreasingUnique(x: seq<int>, y: seq<int>)
    requires Nonincreasing(x) && Nonincreasing(y)
    requires multiset(x) == multiset(y)
    ensures x == y
    decreases |x|
  {
    if x != [] && y != [] {
      LargestFirst(x, y);
      LargestFirst(y, x);
      DropFirst(x, y);
      NonincreasingUnique(x[1..], y[1..]);
      assert x == [x[0]] + x[1..] && y == [y[0]] + y[1..];
    }
  }

  /** The first number of a nonincreasing list is at least every number of a list with the same numbers. */
  lemma LargestFirst(x: seq<int>, y: seq<int>)
    requires Nonincreasing(x) && x != [] && y != []
    requires multiset(x) == multiset(y)
    ensures x[0] >= y[0]
  {
    assert y[0] in multiset(y);
    var i :| 0 <= i < |x| && x[i] == y[0];
  }

  /** Removing equal first numbers from lists with the same numbers leaves lists with the same numbers. */
  lemma DropFirst(x: seq<int>, y: seq<int>)
    requires x != [] && y != [] && x[0] == y[0]
    requires multiset(x) == multiset(y)
    ensures multiset(x[1..]) == multiset(y[1..])
  {
    assert x == [x[0]] + x[1..] && y == [y[0]] + y[1..];
    assert multiset(x) == multiset{x[0]} + multiset(x[1..]);
    assert multiset(y) == multiset{y[0]} + multiset(y[1..]);
    forall v ensures multiset(x[1..])[v] == multiset(y[1..])[v] {
      assert multiset(x)[v] == multiset{x[0]}[v] + multiset(x[1..])[v];
      assert multiset(y)[v] == multiset{y[0]}[v] + multiset(y[1..])[v];
    }
  }

  /**
   * Choosing 'high-low' while the list is sorted 'low-high' sorts the sorted
   * list again: its prices come out as the ascending prices read backwards
   * (products of equal price keep their order, so the products themselves
   * are not simply reversed).
   */
  lemma HighLowAfterLowHigh(s: seq<Product>)
    ensures Prices(SortByPrice(SortByPrice(s, false), true)) == Reverse(Prices(SortByPrice(s, false)))
  {
    var t := SortByPrice(s, false);
    var u := SortByPrice(t, true);
    SortByPriceSorted(s, false);
    SortByPriceSorted(t, true);
    SortByPriceStable(t, true);
    forall price ensures multiset(Prices(u))[price] == multiset(Prices(t))[price] {
      PricesCount(u, price);
      PricesCount(t, price);
    }
    assert multiset(Prices(u)) == multiset(Prices(t));
    ReversePermutes(Prices(t));
    NonincreasingUnique(Prices(u), Reverse(Prices(t)));
  }

  /**
   * The in-place sort of sortProduct on a copied array: insertion sort from
   * left to right.
   */
  method SortInPlace(a: array<Product>, descending: bool)
    modifies a
    ensures a[..] == SortByPrice(old(a[..]), descending)
  {
    ghost var s := a[..];
    var i := 0;
    while i < a.Length
      invariant 0 <= i <= a.Length
      invariant a[..i] == SortByPrice(s[..i], descending)
      invariant a[i..] == s[i..]
    {
      InsertInPlace(a, i, descending);
      SortByPriceStep(s, i, descending);
      i := i + 1;
    }
    assert a[..] == a[..a.Length] && s == s[..a.Length];
  }

  /**
   * One pass of the insertion sort: moves `a[i]` left past every product the
   * comparator puts after it, shifting those one slot right.
   */
  method InsertInPlace(a: array<Product>, i: int, descending: bool)
    requires 0 <= i < a.Length
    modifies a
    ensures a[..i + 1] == Insert(old(a[..i]), old(a[i]), descending)
    ensures a[i + 1..] == old(a[i + 1..])
  {
    var x := a[i];
    ghost var sorted := a[..i];
    var j := i;
    while j > 0 && Compare(a[j - 1], x, descending) > 0
      invariant 0 <= j <= i
      invariant forall k :: 0 <= k < j ==> a[k] == sorted[k]
      invariant forall k :: j < k <= i ==> a[k] == sorted[k - 1]
      invariant forall k :: i < k < a.Length ==> a[k] == old(a[k])
      invariant forall k :: j <= k < i ==> Compare(sorted[k], x, descending) > 0
    {
      a[j] := a[j - 1];
      j := j - 1;
    }
    a[j] := x;
    InsertAt(sorted, x, descending, j);
    Placed(a[..i + 1], sorted, x, j);
    assert a[i + 1..] == old(a[i + 1..]);
  }

  /** A list that holds `sorted` with `x` at index `j` is `sorted` split there around `x`. */
  lemma Placed(b: seq<Product>, sorted: seq<Product>, x: Product, j: int)
    requires 0 <= j <= |sorted| && |b| == |sorted| + 1
    requires forall k :: 0 <= k < j ==> b[k] == sorted[k]
    requires b[j] == x
    requires forall k :: j < k < |b| ==> b[k] == sorted[k - 1]
    ensures b == sorted[..j] + [x] + sorted[j..]
  {
  }

  /**
   * Insertion places `x` at index `j` when the comparator puts every product
   * from `j` on after `x`, and not the one before `j`.
   */
  lemma {:induction false} InsertAt(sorted: seq<Product>, x: Product, descending: bool, j: int)
    requires 0 <= j <= |sorted|
    requires j == 0 || Compare(sorted[j - 1], x, descending) <= 0
    requires forall k :: j <= k < |sorted| ==> Compare(sorted[k], x, descending) > 0
    ensures Insert(sorted, x, descending) == sorted[..j] + [x] + sorted[j..]
    decreases |sorted|
  {
    if j < |sorted| {
      var init := sorted[..|sorted| - 1];
      assert init[..j] == sorted[..j];
      InsertAt(init, x, descending, j);
      assert sorted[j..] == init[j..] + [sorted[|sorted| - 1]];
    }
  }
}
