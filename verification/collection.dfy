/**
 * The Collection page component: its state cells and the events that
 * change them. React re-runs applyFilter after every change of the ticked
 * categories, the ticked subcategories, the search text or the search-bar
 * flag, and re-runs sortProduct after every change of the sort mode; here
 * each event method makes those calls itself.
 */
module CollectionPage {
  import opened Seqs
  import opened Shop
  import opened Selection
  import opened Filters
  import opened PriceSort

  /** The sort mode the page starts in (spelled as in the page; no option has this value). */
  const InitialSortType := "relavent"
  /** The sort option for ascending prices. */
  const LowHigh := "low-high"
  /** The sort option for descending prices. */
  const HighLow := "high-low"

  class Collection {
    /** The shop context as of the last render; set by the constructor and by `ShopChanged` only. */
    var shop: ShopState
    /** Ticked category values. */
    var category: seq<string>
    /** Ticked subcategory values. */
    var subCategory: seq<string>
    /** The selected sort option. */
    var sortType: string
    /** The displayed product list. */
    var filterProducts: seq<Product>
    /** The catalog that the last applyFilter read. */
    ghost var filteredFrom: seq<Product>

    /** What applyFilter would display now. */
    function CurrentView(): seq<Product>
      reads this
    {
      View(shop.products, shop.search, shop.showSearch, category, subCategory)
    }

    /** What the last applyFilter displayed, under the current selections and search. */
    ghost function LastView(): seq<Product>
      reads this
    {
      View(filteredFrom, shop.search, shop.showSearch, category, subCategory)
    }

    /**
     * The selections hold no duplicates, and the displayed list is the last
     * applyFilter result or its ascending or descending price sort; in each
     * case it holds the same products, with the products of each price in
     * the filtered order. This holds between a change of the sort option and
     * the sortProduct run that follows it.
     */
    ghost predicate Derived()
      reads this
    {
      && NoDup(category)
      && NoDup(subCategory)
      && multiset(filterProducts) == multiset(LastView())
      && SamePriceOrder(filterProducts, LastView())
      && (|| filterProducts == LastView()
          || filterProducts == SortByPrice(LastView(), false)
          || filterProducts == SortByPrice(LastView(), true))
    }

    /**
     * `Derived`, with a price-sorted list shown only under its own sort
     * option: 'low-high' for the ascending sort, 'high-low' for the
     * descending one. Any option may show the unsorted applyFilter result,
     * since a toggle or a search change drops the sort.
     */
    ghost predicate Valid()
      reads this
    {
      && Derived()
      && (|| filterProducts == LastView()
          || (sortType == LowHigh && filterProducts == SortByPrice(LastView(), false))
          || (sortType == HighLow && filterProducts == SortByPrice(LastView(), true)))
    }

    /**
     * Mounting the page: the state cells start empty with the initial sort
     * mode, then both effects run once, applyFilter first and then
     * sortProduct, which falls back to applyFilter.
     */
    constructor (s: ShopState)
      ensures Valid()
      ensures shop == s && category == [] && subCategory == [] && sortType == InitialSortType
      ensures filterProducts == CurrentView()
    {
      shop := s;
      category := [];
      subCategory := [];
      sortType := InitialSortType;
      filterProducts := [];
      filteredFrom := [];
      new;
      ApplyFilter();
      assert sortType[0] == 'r' && LowHigh[0] == 'l' && HighLow[0] == 'h';
      SortProduct();
    }

    /**
     * applyFilter: copies the catalog and narrows the copy by the search
     * text, then by the ticked categories, then by the ticked subcategories,
     * skipping each filter that is off. The result is the single-pass view.
     */
    method ApplyFilter()
      requires NoDup(category) && NoDup(subCategory)
      modifies this`filterProducts, this`filteredFrom
      ensures Valid()
      ensures filterProducts == CurrentView()
      ensures filteredFrom == shop.products
    {
      var productsCopy := shop.products;
      SearchStage(shop.products, shop.search, shop.showSearch);
      if SearchOn(shop.search, shop.showSearch) {
        productsCopy := Filter(productsCopy, MatchesSearch(shop.search));
      }
      CategoryStage(shop.products, shop.search, shop.showSearch, category);
      if |category| > 0 {
        productsCopy := Filter(productsCopy, InCategories(category));
      }
      SubCategoryStage(shop.products, shop.search, shop.showSearch, category, subCategory);
      if |subCategory| > 0 {
        productsCopy := Filter(productsCopy, InSubCategories(subCategory));
      }
      filterProducts := productsCopy;
      filteredFrom := shop.products;
    }

    /**
     * sortProduct: sorts a copy of the displayed list by price for the two
     * price options; any other option re-runs applyFilter instead.
     */
    method SortProduct()
      requires Derived()
      modifies this`filterProducts, this`filteredFrom
      ensures Valid()
      ensures sortType == LowHigh ==> filterProducts == SortByPrice(old(filterProducts), false)
      ensures sortType == HighLow ==> filterProducts == SortByPrice(old(filterProducts), true)
      ensures sortType != LowHigh && sortType != HighLow ==> filterProducts == CurrentView()
    {
      var current := filterProducts;
      ghost var filtered := LastView();
      var fpCopy := new Product[|current|](k requires 0 <= k < |current| => current[k]);
      assert fpCopy[..] == current;
      if sortType == LowHigh || sortType == HighLow {
        var descending := sortType == HighLow;
        SortInPlace(fpCopy, descending);
        Resorted(current, filtered, descending);
        filterProducts := fpCopy[..];
        assert LastView() == filtered;
      } else {
        ApplyFilter();
      }
    }

    /** Ticking or unticking a category box; the list is filtered afresh, unsorted. */
    method ToggleCategory(value: string)
      requires Valid()
      modifies this`category, this`filterProducts, this`filteredFrom
      ensures Valid()
      ensures category == Toggle(old(category), value)
      ensures filterProducts == CurrentView()
    {
      ToggleNoDup(category, value);
      category := Toggle(category, value);
      ApplyFilter();
    }

    /** Ticking or unticking a subcategory box; the list is filtered afresh, unsorted. */
    method ToggleSubCategory(value: string)
      requires Valid()
      modifies this`subCategory, this`filterProducts, this`filteredFrom
      ensures Valid()
      ensures subCategory == Toggle(old(subCategory), value)
      ensures filterProducts == CurrentView()
    {
      ToggleNoDup(subCategory, value);
      subCategory := Toggle(subCategory, value);
      ApplyFilter();
    }

    /**
     * Choosing a sort option. Re-selecting the current option changes
     * nothing; a new option re-runs sortProduct on the displayed list.
     */
    method SetSortType(value: string)
      requires Valid()
      modifies this`sortType, this`filterProducts, this`filteredFrom
      ensures Valid()
      ensures sortType == value
      ensures value == old(sortType) ==> filterProducts == old(filterProducts)
      ensures value != old(sortType) && value == LowHigh ==>
                filterProducts == SortByPrice(old(filterProducts), false)
      ensures value != old(sortType) && value == HighLow ==>
                filterProducts == SortByPrice(old(filterProducts), true)
      ensures value != old(sortType) && value != LowHigh && value != HighLow ==>
                filterProducts == CurrentView()
    {
      if value != sortType {
        sortType := value;
        SortProduct();
      }
    }

    /**
     * The shop context changes. Only a change of the search text or of the
     * search-bar flag re-runs applyFilter; a new catalog alone leaves the
     * displayed list as it was.
     */
    method ShopChanged(s: ShopState)
      requires Valid()
      modifies this`shop, this`filterProducts, this`filteredFrom
      ensures Valid()
      ensures shop == s
      ensures s.search != old(shop.search) || s.showSearch != old(shop.showSearch) ==>
                filterProducts == CurrentView()
      ensures s.search == old(shop.search) && s.showSearch == old(shop.showSearch) ==>
                filterProducts == old(filterProducts)
    {
      var rerun := s.search != shop.search || s.showSearch != shop.showSearch;
      shop := s;
      if rerun {
        ApplyFilter();
      }
    }
  }

  /**
   * Price-sorting a list that holds the filtered products, each price's in
   * filtered order, gives the price sort of the filtered list itself.
   */
  lemma Resorted(current: seq<Product>, filtered: seq<Product>, descending: bool)
    requires multiset(current) == multiset(filtered)
    requires SamePriceOrder(current, filtered)
    ensures multiset(SortByPrice(current, descending)) == multiset(filtered)
    ensures SamePriceOrder(SortByPrice(current, descending), filtered)
    ensures SortByPrice(current, descending) == SortByPrice(filtered, descending)
  {
    SortByPricePermutes(current, descending);
    SortByPriceStable(current, descending);
    SortAgrees(current, filtered, descending);
  }

  /** Two catalog entries for the sessions below. */
  const Shirt := Product("1", "Shirt", 20, "Men", "Topwear", "shirt.png")
  const Dress := Product("2", "Dress", 50, "Women", "Topwear", "dress.png")

  /** Ticking "Women" over the two-product catalog keeps only the dress. */
  lemma WomenOnly()
    ensures View([Shirt, Dress], "", false, ["Women"], []) == [Dress]
  {
    var women := Keep("", false, ["Women"], []);
    assert !women(Shirt) && women(Dress);
    assert [Shirt, Dress][1..] == [Dress] && [Dress][1..] == [];
  }

  /** Ticking "Topwear" over the two-product catalog keeps both, in catalog order. */
  lemma TopwearKeepsBoth()
    ensures View([Shirt, Dress], "", false, [], ["Topwear"]) == [Shirt, Dress]
  {
    FilterAll([Shirt, Dress], Keep("", false, [], ["Topwear"]));
  }

  /** The two price sorts of the two-product catalog. */
  lemma BothSorts()
    ensures SortByPrice([Shirt, Dress], false) == [Shirt, Dress]
    ensures SortByPrice([Shirt, Dress], true) == [Dress, Shirt]
  {
    var both := [Shirt, Dress];
    assert both[..1] == [Shirt] && [Shirt][..0] == [];
    assert SortByPrice([Shirt], false) == [Shirt] && SortByPrice([Shirt], true) == [Shirt];
    assert Insert([Shirt], Dress, false) == [Shirt, Dress];
    assert [Shirt][..0] == [];
    assert Insert([Shirt], Dress, true) == Insert([], Dress, true) + [Shirt];
  }

  /**
   * A page session over a two-product catalog: ticking "Women" shows the
   * dress alone, unticking it shows both again, and the two price sorts
   * order them both ways.
   */
  method TwoProductSession()
  {
    var page := new Collection(ShopState([Shirt, Dress], "", false));
    ViewAllOff([Shirt, Dress], "", false);
    assert page.filterProducts == [Shirt, Dress];
    page.ToggleCategory("Women");
    WomenOnly();
    assert page.filterProducts == [Dress];
    page.ToggleCategory("Women");
    assert page.filterProducts == [Shirt, Dress];
    page.SetSortType(LowHigh);
    BothSorts();
    assert page.filterProducts == [Shirt, Dress];
    page.SetSortType(HighLow);
    assert page.filterProducts == [Dress, Shirt];
  }

  /**
   * Ticking a box drops an active price sort: with 'high-low' selected (which
   * shows [Dress, Shirt], as in the session above), the list is back in
   * catalog order.
   */
  method SortDropped()
  {
    var page := new Collection(ShopState([Shirt, Dress], "", false));
    page.SetSortType(HighLow);
    page.ToggleSubCategory("Topwear");
    TopwearKeepsBoth();
    assert page.sortType == HighLow && page.filterProducts == [Shirt, Dress];
  }

  /** A new catalog with the same search leaves the displayed list as it was. */
  method CatalogIgnored()
  {
    var page := new Collection(ShopState([Shirt, Dress], "", false));
    ViewAllOff([Shirt, Dress], "", false);
    page.ShopChanged(ShopState([Dress], "", false));
    assert page.filterProducts == [Shirt, Dress];
  }
}
