/** The product listing page: a category filter, an inclusive price filter
    and a sort, run in that order by an effect whenever one of its inputs
    changes, then cut into pages of twelve with Previous / Next buttons. */
module ProductsPage {
  import opened Optional
  import opened Catalog
  import JsArray
  import JsString
  import Cart

  const ProductsPerPage: nat := 12
  const MinPrice: int := 0
  const MaxPrice: int := 100000
  /** The radio value that means "no category filter". */
  const AllCategories: string := "all"

  // ---------------------------------------------------------------- the filter stages

  function InCategory(selected: string): Product -> bool
  {
    (p: Product) => p.category == selected
  }

  function InPriceRange(range: (int, int)): Product -> bool
  {
    (p: Product) => p.price >= range.0 && p.price <= range.1
  }

  /** The category stage: every product for `'all'`, otherwise the products
      whose category equals the selection exactly (case matters). */
  function CategoryStage(products: seq<Product>, selected: string): seq<Product>
  {
    if selected != AllCategories then JsArray.Filter(products, InCategory(selected)) else products
  }

  /** The price stage; both bounds are inclusive. */
  function PriceStage(products: seq<Product>, range: (int, int)): seq<Product>
  {
    JsArray.Filter(products, InPriceRange(range))
  }

  /** What the effect stores in `filteredProducts`. */
  function Listing(products: seq<Product>, selected: string, range: (int, int), sortBy: string): seq<Product>
  {
    SortBy(ParseSortKey(sortBy), PriceStage(CategoryStage(products, selected), range))
  }

  /** Whether a product survives both filters. */
  predicate Passes(p: Product, selected: string, range: (int, int))
  {
    (selected == AllCategories || p.category == selected) && range.0 <= p.price <= range.1
  }

  /** The listing holds exactly the catalog's products that pass both
      filters, each as often as in the catalog, ordered by the sort key. */
  lemma ListingSpec(products: seq<Product>, selected: string, range: (int, int), sortBy: string)
    ensures forall p :: multiset(Listing(products, selected, range, sortBy))[p]
                     == if Passes(p, selected, range) then multiset(products)[p] else 0
    ensures forall p :: p in Listing(products, selected, range, sortBy)
                     <==> p in products && Passes(p, selected, range)
    ensures Sorted(ParseSortKey(sortBy), Listing(products, selected, range, sortBy))
  {
    var filtered := PriceStage(CategoryStage(products, selected), range);
    FilterStagesCount(products, selected, range);
    forall p ensures p in Listing(products, selected, range, sortBy) <==> p in products && Passes(p, selected, range) {
      assert p in filtered <==> multiset(filtered)[p] > 0;
      assert p in products <==> multiset(products)[p] > 0;
    }
  }

  /** The two filter stages together keep each passing product as often
      as the catalog holds it and drop every other one. */
  lemma FilterStagesCount(products: seq<Product>, selected: string, range: (int, int))
    ensures forall p :: multiset(PriceStage(CategoryStage(products, selected), range))[p]
                     == if Passes(p, selected, range) then multiset(products)[p] else 0
  {
    var stage := CategoryStage(products, selected);
    forall p: Product
      ensures multiset(stage)[p] == if selected == AllCategories || p.category == selected then multiset(products)[p] else 0
    {
      if selected != AllCategories {
        assert InCategory(selected)(p) == (p.category == selected);
      }
    }
    forall p: Product
      ensures multiset(PriceStage(stage, range))[p] == if Passes(p, selected, range) then multiset(products)[p] else 0
    {
      assert InPriceRange(range)(p) == (range.0 <= p.price <= range.1);
    }
  }

  // ---------------------------------------------------------------- pages

  /** `Math.ceil(n / productsPerPage)`. */
  function TotalPages(n: nat): (pages: nat)
    ensures n <= pages * ProductsPerPage
    ensures pages == 0 || (pages - 1) * ProductsPerPage < n
  {
    (n + ProductsPerPage - 1) / ProductsPerPage
  }

  /** `filteredProducts.slice(startIndex, endIndex)` for the current page. */
  function PageItems(list: seq<Product>, page: int): seq<Product>
  {
    var startIndex := (page - 1) * ProductsPerPage;
    JsArray.Slice(list, startIndex, startIndex + ProductsPerPage)
  }

  /** Page `p` (counting from 1) is the run of at most twelve products
      starting at `(p - 1) * 12`; every page up to `TotalPages` is non-empty,
      every page after it is empty, and only the last may be short. */
  lemma PageItemsSpec(list: seq<Product>, page: int)
    requires page >= 1
    ensures var start := (page - 1) * ProductsPerPage;
      && PageItems(list, page) == list[JsArray.Min(start, |list|)..JsArray.Min(start + ProductsPerPage, |list|)]
      && |PageItems(list, page)| <= ProductsPerPage
      && (page <= TotalPages(|list|) <==> PageItems(list, page) != [])
      && (page < TotalPages(|list|) ==> |PageItems(list, page)| == ProductsPerPage)
  {
    var start := (page - 1) * ProductsPerPage;
    JsArray.SliceFromNonNegative(list, start, start + ProductsPerPage);
    if page <= TotalPages(|list|) {
      assert start < |list|;
    }
    if page < TotalPages(|list|) {
      assert start + ProductsPerPage <= (TotalPages(|list|) - 1) * ProductsPerPage;
    }
  }

  /** Every listed product appears on exactly the page its index gives, and
      that page is one the pagination offers. */
  lemma EveryProductHasAPage(list: seq<Product>, i: nat)
    requires i < |list|
    ensures 1 <= i / ProductsPerPage + 1 <= TotalPages(|list|)
    ensures |PageItems(list, i / ProductsPerPage + 1)| > i % ProductsPerPage
    ensures PageItems(list, i / ProductsPerPage + 1)[i % ProductsPerPage] == list[i]
  {
    var page := i / ProductsPerPage + 1;
    var start := (page - 1) * ProductsPerPage;
    assert start == i - i % ProductsPerPage;
    PageItemsSpec(list, page);
  }

  /** Thirty listed products make three pages, the last holding six, and a
      fourth page is empty. */
  lemma ThirtyProducts(list: seq<Product>)
    requires |list| == 30
    ensures TotalPages(|list|) == 3
    ensures |PageItems(list, 3)| == 6 && PageItems(list, 4) == []
  {
    PageItemsSpec(list, 3);
    PageItemsSpec(list, 4);
  }

  /** The Previous button: `Math.max(1, currentPage - 1)`. */
  function PreviousPageNumber(current: int): int
  {
    JsArray.Max(1, current - 1)
  }

  /** The Next button: `Math.min(totalPages, currentPage + 1)`. */
  function NextPageNumber(current: int, totalPages: int): int
  {
    JsArray.Min(totalPages, current + 1)
  }

  /** From any page in range, Previous never goes below page 1 and Next
      never past the last page; each moves by at most one page. */
  lemma PagingStaysInRange(current: int, totalPages: int)
    requires 1 <= current <= totalPages
    ensures 1 <= PreviousPageNumber(current) <= current
    ensures current <= NextPageNumber(current, totalPages) <= totalPages
    ensures current - PreviousPageNumber(current) <= 1 && NextPageNumber(current, totalPages) - current <= 1
    ensures current > 1 ==> PreviousPageNumber(current) == current - 1
    ensures current < totalPages ==> NextPageNumber(current, totalPages) == current + 1
  {
  }

  // ---------------------------------------------------------------- the price slider

  /** `[minPrice, parseInt(value) || maxPrice]`: `NaN` and 0 are both
      falsy, so either falls back to the top price. */
  function SliderRange(value: string): (int, int)
  {
    var upper := match JsString.ParseInt(value)
      case None => MaxPrice
      case Some(v) => if v == 0 then MaxPrice else v;
    (MinPrice, upper)
  }

  /** At slider position `n` the range is `[0, n]`, except that position 0
      gives the full range `[0, 100000]` rather than `[0, 0]`. */
  lemma SliderPositions(n: nat)
    ensures SliderRange(JsString.DecimalString(n)) == (0, if n == 0 then 100000 else n)
  {
    JsString.ParseIntDecimalString(n);
  }

  /** With the slider at 0 the price stage lets through every product priced
      from 0 to 100000 cents. */
  lemma SliderAtZeroKeepsAll(products: seq<Product>)
    requires forall k :: 0 <= k < |products| ==> 0 <= products[k].price <= MaxPrice
    ensures PriceStage(products, SliderRange(JsString.DecimalString(0))) == products
  {
    SliderPositions(0);
    JsArray.FilterKeepsAll(products, InPriceRange((0, MaxPrice)));
  }

  // ---------------------------------------------------------------- add to cart

  /** The fields of a product that an "Add to cart" button hands the store. */
  function CartEntry(p: Product): Cart.ItemInfo
  {
    Cart.ItemInfo(p.id, p.name, p.price, p.image)
  }

  /** An "Add to cart" button: one unit of the product. */
  method AddProductToCart(store: Cart.CartStore, p: Product)
    requires store.Valid()
    modifies store
    ensures store.Valid()
    ensures store.items == Cart.AddedLines(old(store.items), CartEntry(p), 1)
    ensures Cart.LineQuantity(store.items, p.id) == Cart.LineQuantity(old(store.items), p.id) + 1
  {
    Cart.AddRaisesLineQuantity(store.items, CartEntry(p), 1);
    store.AddToCart(CartEntry(p), 1);
  }

  // ---------------------------------------------------------------- the page state

  /** The page's state hooks. The listing effect re-runs when `products`,
      `selectedCategory`, `sortBy` or `priceRange` changes. A string state
      set to its current value does not change, so it does not re-run;
      `priceRange` is a fresh array on every slide, so it always does. */
  class ProductsPage {
    var products: seq<Product>
    var filteredProducts: seq<Product>
    var categories: seq<string>
    var selectedCategory: string
    var sortBy: string
    var priceRange: (int, int)
    var currentPage: int

    ghost predicate Valid()
      reads this
    {
      && filteredProducts == Listing(products, selectedCategory, priceRange, sortBy)
      && 1 <= currentPage <= JsArray.Max(1, TotalPages(|filteredProducts|))
    }

    /** The initial state of every hook. */
    constructor ()
      ensures Valid()
      ensures products == [] && filteredProducts == [] && categories == []
      ensures selectedCategory == AllCategories && sortBy == "name"
      ensures priceRange == (MinPrice, MaxPrice) && currentPage == 1
    {
      products := [];
      filteredProducts := [];
      categories := [];
      selectedCategory := AllCategories;
      sortBy := "name";
      priceRange := (MinPrice, MaxPrice);
      currentPage := 1;
    }

    /** The listing effect: filter by category, then by price, then sort,
      store the result and go back to page 1. */
    method RefreshListing()
      modifies this
      ensures Valid()
      ensures filteredProducts == Listing(products, selectedCategory, priceRange, sortBy)
      ensures currentPage == 1
      ensures products == old(products) && categories == old(categories)
      ensures selectedCategory == old(selectedCategory) && sortBy == old(sortBy)
      ensures priceRange == old(priceRange)
    {
      var filtered := products;
      if selectedCategory != AllCategories {
        filtered := JsArray.Filter(filtered, InCategory(selectedCategory));
      }
      filtered := JsArray.Filter(filtered, InPriceRange(priceRange));
      filtered := SortBy(ParseSortKey(sortBy), filtered);
      filteredProducts := filtered;
      currentPage := 1;
    }

    /** The mount effect loads the catalog and its category list; the new
      `products` then triggers the listing effect. */
    method Mount(catalog: seq<Product>)
      modifies this
      ensures Valid()
      ensures products == catalog && categories == UniqueCategories(catalog)
      ensures filteredProducts == Listing(catalog, selectedCategory, priceRange, sortBy)
      ensures currentPage == 1
      ensures selectedCategory == old(selectedCategory) && sortBy == old(sortBy)
      ensures priceRange == old(priceRange)
    {
      products := catalog;
      categories := UniqueCategories(catalog);
      RefreshListing();
    }

    /** A category radio button (or "All Categories") is chosen. */
    method SelectCategory(category: string)
      requires Valid()
      modifies this
      ensures Valid()
      ensures selectedCategory == category
      ensures old(selectedCategory) != category ==> currentPage == 1
      ensures old(selectedCategory) == category ==> currentPage == old(currentPage)
      ensures products == old(products) && categories == old(categories)
      ensures sortBy == old(sortBy) && priceRange == old(priceRange)
    {
      if category != selectedCategory {
        selectedCategory := category;
        RefreshListing();
      }
    }

    /** A sort option is chosen. */
    method SelectSort(value: string)
      requires Valid()
      modifies this
      ensures Valid()
      ensures sortBy == value
      ensures old(sortBy) != value ==> currentPage == 1
      ensures old(sortBy) == value ==> currentPage == old(currentPage)
      ensures products == old(products) && categories == old(categories)
      ensures selectedCategory == old(selectedCategory) && priceRange == old(priceRange)
    {
      if value != sortBy {
        sortBy := value;
        RefreshListing();
      }
    }

    /** The price slider reports `value`. */
    method SlidePrice(value: string)
      modifies this
      ensures Valid()
      ensures priceRange == SliderRange(value) && currentPage == 1
      ensures products == old(products) && categories == old(categories)
      ensures selectedCategory == old(selectedCategory) && sortBy == old(sortBy)
    {
      priceRange := SliderRange(value);
      RefreshListing();
    }

    /** The Previous button; the pagination bar exists only when there is
      more than one page. */
    method ClickPrevious()
      requires Valid() && TotalPages(|filteredProducts|) > 1
      modifies this`currentPage
      ensures Valid()
      ensures currentPage == PreviousPageNumber(old(currentPage))
    {
      currentPage := JsArray.Max(1, currentPage - 1);
    }

    /** The Next button. */
    method ClickNext()
      requires Valid() && TotalPages(|filteredProducts|) > 1
      modifies this`currentPage
      ensures Valid()
      ensures currentPage == NextPageNumber(old(currentPage), TotalPages(|filteredProducts|))
    {
      currentPage := JsArray.Min(TotalPages(|filteredProducts|), currentPage + 1);
    }

    /** A numbered page button; the bar shows buttons 1 to `totalPages`. */
    method ClickPage(page: int)
      requires Valid() && 1 <= page <= TotalPages(|filteredProducts|)
      modifies this`currentPage
      ensures Valid() && currentPage == page
    {
      currentPage := page;
    }

    /** `currentProducts`: the page on screen. In every reachable state it
      holds at most twelve products, all of which pass the filters. */
    function CurrentProducts(): (shown: seq<Product>)
      reads this
      requires Valid()
      ensures |shown| <= ProductsPerPage
      ensures forall p :: p in shown ==> p in products && Passes(p, selectedCategory, priceRange)
    {
      PageItemsSpec(filteredProducts, currentPage);
      ListingSpec(products, selectedCategory, priceRange, sortBy);
      PageItems(filteredProducts, currentPage)
    }
  }
}
