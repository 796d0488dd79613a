/**
 * The three product filters of applyFilter and the single predicate they
 * add up to. Each filter is switched off by an empty input: the search
 * filter when the search bar is hidden or its text is empty, the category
 * and subcategory filters when nothing is ticked.
 */
module Filters {
  import opened Seqs
  import opened Shop

  /** The search filter is on only when the search bar is shown and its text is non-empty. */
  predicate SearchOn(search: string, showSearch: bool)
  {
    showSearch && search != ""
  }

  /** Predicate of the search filter stage. */
  function MatchesSearch(search: string): Product -> bool
  {
    (p: Product) => NameMatches(p.name, search)
  }

  /** Predicate of the category filter stage. */
  function InCategories(category: seq<string>): Product -> bool
  {
    (p: Product) => p.category in category
  }

  /** Predicate of the subcategory filter stage. */
  function InSubCategories(subCategory: seq<string>): Product -> bool
  {
    (p: Product) => p.subCategory in subCategory
  }

  /**
   * The product survives all three stages: each condition holds or its
   * filter is switched off.
   */
  predicate Shown(search: string, showSearch: bool, category: seq<string>,
                  subCategory: seq<string>, p: Product)
  {
    && (SearchOn(search, showSearch) ==> NameMatches(p.name, search))
    && (|category| > 0 ==> p.category in category)
    && (|subCategory| > 0 ==> p.subCategory in subCategory)
  }

  /** `Shown` as a filter predicate. */
  function Keep(search: string, showSearch: bool, category: seq<string>,
                subCategory: seq<string>): Product -> bool
  {
    (p: Product) => Shown(search, showSearch, category, subCategory, p)
  }

  /** The list applyFilter derives: the catalog products that are `Shown`, in catalog order. */
  function View(products: seq<Product>, search: string, showSearch: bool,
                category: seq<string>, subCategory: seq<string>): seq<Product>
  {
    Filter(products, Keep(search, showSearch, category, subCategory))
  }

  /**
   * The view is an order-preserving subsequence of the catalog that holds
   * every copy of each shown product and no copy of any other.
   */
  lemma ViewSpec(products: seq<Product>, search: string, showSearch: bool,
                 category: seq<string>, subCategory: seq<string>)
    ensures Subseq(View(products, search, showSearch, category, subCategory), products)
    ensures forall p ::
      multiset(View(products, search, showSearch, category, subCategory))[p] ==
      if Shown(search, showSearch, category, subCategory, p) then multiset(products)[p] else 0
  {
    FilterSpec(products, Keep(search, showSearch, category, subCategory));
  }

  /** With all three filters off the view is the whole catalog in catalog order. */
  lemma ViewAllOff(products: seq<Product>, search: string, showSearch: bool)
    requires !SearchOn(search, showSearch)
    ensures View(products, search, showSearch, [], []) == products
  {
    FilterAll(products, Keep(search, showSearch, [], []));
  }

  /**
   * Ticking exactly one category keeps exactly the products of that
   * category (the other filters being off).
   */
  lemma ViewOneCategory(products: seq<Product>, search: string, showSearch: bool, c: string)
    requires !SearchOn(search, showSearch)
    ensures View(products, search, showSearch, [c], []) == Filter(products, InCategories([c]))
    ensures forall p :: p in View(products, search, showSearch, [c], []) <==>
            p in products && p.category == c
  {
    FilterExt(products, Keep(search, showSearch, [c], []), InCategories([c]));
  }

  /**
   * The first stage of applyFilter: the name search, or nothing when the
   * search filter is off, gives the view with no box ticked.
   */
  lemma SearchStage(products: seq<Product>, search: string, showSearch: bool)
    ensures View(products, search, showSearch, [], []) ==
            if SearchOn(search, showSearch) then Filter(products, MatchesSearch(search)) else products
  {
    if SearchOn(search, showSearch) {
      FilterExt(products, Keep(search, showSearch, [], []), MatchesSearch(search));
    } else {
      FilterAll(products, Keep(search, showSearch, [], []));
    }
  }

  /**
   * The second stage: filtering the search result by category, or nothing
   * when no category is ticked, gives the view with the categories ticked.
   */
  lemma CategoryStage(products: seq<Product>, search: string, showSearch: bool, category: seq<string>)
    ensures View(products, search, showSearch, category, []) ==
            if |category| > 0 then Filter(View(products, search, showSearch, [], []), InCategories(category))
            else View(products, search, showSearch, [], [])
  {
    if |category| > 0 {
      FilterFilter(products, Keep(search, showSearch, [], []), InCategories(category),
                   Keep(search, showSearch, category, []));
    } else {
      FilterExt(products, Keep(search, showSearch, category, []), Keep(search, showSearch, [], []));
    }
  }

  /**
   * The third stage: filtering by subcategory, or nothing when no subcategory
   * is ticked, completes the view.
   */
  lemma SubCategoryStage(products: seq<Product>, search: string, showSearch: bool,
                         category: seq<string>, subCategory: seq<string>)
    ensures View(products, search, showSearch, category, subCategory) ==
            if |subCategory| > 0
            then Filter(View(products, search, showSearch, category, []), InSubCategories(subCategory))
            else View(products, search, showSearch, category, [])
  {
    if |subCategory| > 0 {
      FilterFilter(products, Keep(search, showSearch, category, []), InSubCategories(subCategory),
                   Keep(search, showSearch, category, subCategory));
    } else {
      FilterExt(products, Keep(search, showSearch, category, subCategory), Keep(search, showSearch, category, []));
    }
  }
}
