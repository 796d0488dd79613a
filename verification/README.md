# Collection page: filter and sort reconciliation

This project models the logic of the `Collection` page of a React storefront.
The page shows the shop catalog as a grid. Three filters narrow the grid:
a case-insensitive name search, ticked categories and ticked subcategories.
A sort option orders the grid by price.

The page keeps four state cells:

- `category`: the ticked category values;
- `subCategory`: the ticked subcategory values;
- `sortType`: the selected sort option;
- `filterProducts`: the displayed list.

It reads three values from the shop context: the catalog `products`, the
search text `search` and the search-bar flag `showSearch`.

The model is split into these modules:

- `Seqs` (`seqs.dfy`): the array `filter` of JavaScript (`Filter`) and the
  facts about it. Its result is an order-preserving subsequence. It keeps
  every copy of each accepted value and drops every copy of a rejected one.
  Filtering twice is filtering once by the conjunction. It keeps a
  duplicate-free list duplicate-free.
- `Shop` (`shop.dfy`): the `Product` record and the shop context
  (`ShopState`). Also the name match of the search filter: ASCII
  lower-casing of both strings, then the string `includes` of JavaScript.
- `Selection` (`selection.dfy`): the state updater shared by
  `toggleCategory` and `toggleSubCategory`.
- `Filters` (`filters.dfy`): the three filter stages of `applyFilter`. Also
  the single predicate `Shown` they add up to, and the resulting `View`.
- `PriceSort` (`pricesort.dfy`): the comparators of `sortProduct` and a
  stable insertion sort, both as a specification function (`SortByPrice`)
  and as an in-place method on an array. The sort is shown to be a
  permutation, ordered and stable. It is also shown to be the only ordered,
  stable reordering, so it agrees with the stable array sort of JavaScript
  (ECMA-262, section 23.1.3.30).
- `CollectionPage` (`collection.dfy`): the component as a class. Its fields
  are the state cells. Its event methods make the calls that React's two
  effects make: every toggle and every change of the search text or flag
  runs `ApplyFilter`, and every change of the sort option runs `SortProduct`.
  The constructor is the mount: it runs both effects once.

Two behaviours of the source are kept as written:

- `products` is not a dependency of the filter effect. The effect that
  would copy the catalog on mount is commented out. So a new catalog alone
  does not change the displayed list (`ShopChanged`).
- `applyFilter` never sorts. A toggle while a price sort is active shows the
  filtered list in catalog order again (`ToggleCategory`,
  `ToggleSubCategory`).

The class invariant `Valid` says two things:

- neither selection list holds a value twice;
- the displayed list is the last `applyFilter` result, under any sort
  option; or its 'low-high' price sort, while the option is 'low-high'; or
  its 'high-low' price sort, while the option is 'high-low'. So it has the
  same products as that result, and the products of each price stay in their
  filtered order.

`SortProduct` needs only the weaker `Derived`, which drops the tie to the
sort option: `SetSortType` changes the option just before it runs.

Three points where a reader might expect other behaviour; the model follows the code:

- The filters are not re-applied when only the catalog changes. The
  dependency list (`src/Pages/Collection.jsx:83`) leaves the catalog out.
- The selections are arrays, not sets. Unticking removes every copy of a
  value, and ticking appends the value at the end.
- Products of equal price keep their prior order. The array sort is stable.

## Model

| member | source | states |
|---|---|---|
| `Seqs.Filter` | src/Pages/Collection.jsx:37-47 | A value is in the filtered list exactly when it is in the input and passes the predicate; the result is never longer than the input |
| `Seqs.FilterSpec` | src/Pages/Collection.jsx:42 | The filtered list is an order-preserving subsequence of the input. It holds every copy of each accepted value and no copy of a rejected one |
| `Seqs.FilterUnique` | src/Pages/Collection.jsx:42 | Any subsequence with those copies is the filtered list, so the facts above pin the filter down completely |
| `Seqs.FilterFilter` | src/Pages/Collection.jsx:36-48 | Two filters applied in turn equal one filter by their conjunction |
| `Seqs.FilterNoDup` | src/Pages/Collection.jsx:19 | Filtering a duplicate-free list leaves it duplicate-free |
| `Shop.ToLower` | src/Pages/Collection.jsx:37 | Lower-casing keeps the length and maps each character through the ASCII lower-case map |
| `Shop.Includes` | src/Pages/Collection.jsx:37 | The definition of the string `includes` test: the needle is a prefix of the string or of one of its suffixes, scanned from the left; `IncludesAt` characterises it |
| `Shop.NameMatches` | src/Pages/Collection.jsx:37 | The definition of the search test: the lower-cased search text is included in the lower-cased name |
| `Shop.IncludesAt` | src/Pages/Collection.jsx:37 | The left-to-right `includes` scan succeeds exactly when the needle occurs at some position of the string |
| `Shop.NameMatchesIgnoresCase` | src/Pages/Collection.jsx:37 | The search test holds exactly when the lower-cased search text occurs in the lower-cased name; lower-casing either side first changes nothing |
| `Selection.Without` | src/Pages/Collection.jsx:19 | The definition of the test of the removal branch: a value is kept unless it is the toggled one |
| `Selection.Toggle` | src/Pages/Collection.jsx:16-29 | Toggling flips the value's membership and leaves every other value's membership alone. An absent value is appended at the end with the old list as prefix |
| `Selection.ToggleRemoves` | src/Pages/Collection.jsx:19 | Unticking removes every copy of the value. The rest keep their relative order and their copies |
| `Selection.ToggleNoDup` | src/Pages/Collection.jsx:27 | A toggle keeps a duplicate-free selection duplicate-free |
| `Selection.ToggleTwice` | src/Pages/Collection.jsx:19 | Toggling the same value twice restores the selected set; if the value was absent, it restores the list itself |
| `Selection.ToggleAllNoDup` | src/Pages/Collection.jsx:18-20 | Any run of toggles from a duplicate-free list ends duplicate-free |
| `Selection.TogglesFromNothingNoDup` | src/Pages/Collection.jsx:11-12 | A selection built only by toggles from the initial empty list has no duplicates |
| `Filters.MatchesSearch` | src/Pages/Collection.jsx:37 | The definition of the search stage's test: the product's name matches the search text (`NameMatches`) |
| `Filters.InCategories` | src/Pages/Collection.jsx:42 | The definition of the category stage's test: the product's category is one of the ticked values |
| `Filters.InSubCategories` | src/Pages/Collection.jsx:47 | The definition of the subcategory stage's test: the product's subcategory is one of the ticked values |
| `Filters.SearchOn` | src/Pages/Collection.jsx:36 | The definition of the guard of the search stage: the search bar is shown and the search text is non-empty |
| `Filters.Shown` | src/Pages/Collection.jsx:36-48 | The definition of what survives the three stages: each of the name, category and subcategory conditions holds or its filter is off |
| `Filters.View` | src/Pages/Collection.jsx:32-51 | The definition of the applyFilter result: the catalog filtered by `Shown`, in catalog order; `ViewSpec` and the stage lemmas characterise it |
| `Filters.ViewSpec` | src/Pages/Collection.jsx:32-51 | The applyFilter result is an order-preserving subsequence of the catalog. A product is kept, with all its copies, exactly when it passes the search, category and subcategory conditions together, each condition counting only when its filter is on |
| `Filters.ViewAllOff` | src/Pages/Collection.jsx:36-48 | With the search off and no box ticked, the result is the catalog unchanged |
| `Filters.ViewOneCategory` | src/Pages/Collection.jsx:41-43 | With the search off and no subcategory ticked, ticking exactly one category keeps exactly the products of that category, in catalog order |
| `Filters.SearchStage` | src/Pages/Collection.jsx:36-38 | The search stage filters by the name match only when the bar is shown and the text is non-empty; otherwise it leaves the catalog alone |
| `Filters.CategoryStage` | src/Pages/Collection.jsx:41-43 | The category stage narrows the search result to ticked categories, or leaves it alone when none is ticked |
| `Filters.SubCategoryStage` | src/Pages/Collection.jsx:46-48 | The subcategory stage narrows the previous result to ticked subcategories, or leaves it alone when none is ticked; category and subcategory filters intersect |
| `PriceSort.CompareSign` | src/Pages/Collection.jsx:61-65 | The two comparators (`Compare`): the result is zero exactly for equal prices, and negative exactly when the first product has the lower price ('low-high') or the higher price ('high-low'); swapping the products negates it |
| `PriceSort.Insert` | src/Pages/Collection.jsx:61 | The definition of one insertion step: the product goes behind the last product the comparator does not put after it; `InsertAt`, `InsertPermutes`, `InsertSorted` and `InsertStable` characterise it |
| `PriceSort.SortByPrice` | src/Pages/Collection.jsx:61-65 | The definition of the price sort used for `fpCopy.sort(...)`: insertion of each product in turn; the lemmas below show it permutes, orders and is stable, and is the only such reordering |
| `PriceSort.SortAgrees` | src/Pages/Collection.jsx:59-66 | Lists that agree on each price's products sort to the same list, so choosing a price sort while the other is shown gives the price sort of the filtered list |
| `PriceSort.InsertPermutes` | src/Pages/Collection.jsx:61 | One insertion step adds exactly the inserted product |
| `PriceSort.SortByPricePermutes` | src/Pages/Collection.jsx:57-65 | The price sort is a permutation of the displayed list |
| `PriceSort.InsertSorted` | src/Pages/Collection.jsx:61 | Inserting into a list in comparator order keeps it in comparator order |
| `PriceSort.SortByPriceSorted` | src/Pages/Collection.jsx:60-66 | The result is ordered by price: nondecreasing for 'low-high', nonincreasing for 'high-low' |
| `PriceSort.InsertStable` | src/Pages/Collection.jsx:65 | An inserted product goes behind every product of its own price |
| `PriceSort.SortByPriceStable` | src/Pages/Collection.jsx:61-65 | The sort is stable: for every price, the products of that price appear in the same order as before |
| `PriceSort.SortByPriceUnique` | src/Pages/Collection.jsx:61-65 | Any ordered list with, for each price, the same products in the same order is the sort's result, so every stable sort agrees with it |
| `PriceSort.SortedStableEqual` | src/Pages/Collection.jsx:61-65 | Two lists in comparator order that agree on each price's products are equal |
| `PriceSort.HighLowAfterLowHigh` | src/Pages/Collection.jsx:59-66 | Sorting 'high-low' right after 'low-high' yields the ascending prices in reverse |
| `PriceSort.SortInPlace` | src/Pages/Collection.jsx:57-65 | The in-place sort of the copied array leaves the array equal to the price sort of its old contents |
| `PriceSort.InsertAt` | src/Pages/Collection.jsx:61 | An insertion puts the product right after the last product the comparator does not put after it, with every later product shifted behind it |
| `PriceSort.InsertInPlace` | src/Pages/Collection.jsx:61 | One pass places the next product into the sorted prefix and leaves the rest of the array alone |
| `CollectionPage.Collection.constructor` | src/Pages/Collection.jsx:10-13 | On mount the selections are empty and the sort option is 'relavent'. Both effects then run, so the displayed list is the applyFilter result |
| `CollectionPage.Collection.ApplyFilter` | src/Pages/Collection.jsx:32-51 | The stage-by-stage narrowing of the catalog copy yields the single-pass view, which the invariant then describes |
| `CollectionPage.Collection.SortProduct` | src/Pages/Collection.jsx:56-73 | 'low-high' and 'high-low' replace the displayed list by its price sort. Any other option replaces it by the applyFilter result. From `Derived` alone it establishes `Valid`: the list shown is the filtered list, or its price sort in the direction of the current option |
| `CollectionPage.Collection.ToggleCategory` | src/Pages/Collection.jsx:16-21 | The category list is toggled, then the list is the applyFilter result whatever the sort option, so a price sort is dropped |
| `CollectionPage.Collection.ToggleSubCategory` | src/Pages/Collection.jsx:24-29 | The same for the subcategory list |
| `CollectionPage.Collection.SetSortType` | src/Pages/Collection.jsx:86-88 | A new sort option re-runs sortProduct on the displayed list. Re-selecting the current option changes nothing |
| `CollectionPage.Collection.ShopChanged` | src/Pages/Collection.jsx:81-83 | A change of search text or flag re-runs applyFilter. A new catalog alone leaves the displayed list unchanged |
| `CollectionPage.Resorted` | src/Pages/Collection.jsx:57-65 | Price-sorting the copy of a displayed list that holds the filtered products, each price's in filtered order, gives the price sort of the filtered list itself; this keeps the displayed list one of the three lists the invariant allows |
| `CollectionPage.WomenOnly` | src/Pages/Collection.jsx:41-43 | Ticking "Women" over a shirt and a dress keeps only the dress |
| `CollectionPage.TopwearKeepsBoth` | src/Pages/Collection.jsx:46-48 | Ticking "Topwear", which both products have, keeps both in catalog order |
| `CollectionPage.BothSorts` | src/Pages/Collection.jsx:60-66 | The two price sorts of the shirt (20) and the dress (50) |

## Left out

- Rendering: the JSX markup, `Title`, `ProductItem`, the dropdown icon and the `showFilter` show/hide toggle (`src/Pages/Collection.jsx:9`, `90-175`). They only display state.
- The `ShopContext` provider (`src/Pages/Collection.jsx:8`). Its three values are a plain input (`ShopState`), set by the constructor and by `ShopChanged` only. The provider is not part of this model.
- React's scheduling of state updates, re-renders and effects. Each event method calls `ApplyFilter` or `SortProduct` itself, as the two effects would after the re-render. The checkbox and select events become plain value parameters.
- `Shop.ToLower`: only ASCII capitals are lowered. JavaScript's `toLowerCase` maps all of Unicode, and that mapping is not modelled.
- Prices are whole numbers. Floating-point prices, and a comparator that returns `NaN`, are not modelled.
- `PriceSort.SortInPlace`: the engine's own sort algorithm is not modelled. An insertion sort stands in for it. `SortByPriceUnique` shows that every stable sort with the same comparator gives the same result.
- `Product.id` and `Product.image` are carried but never read: only the rendering reads them.
