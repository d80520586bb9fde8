# Storefront model

A Dafny model of the client-side core of a small Next.js storefront. The
model covers the following parts:

- **Cart store** (`Cart`). A single mutable list of cart lines, replaced as a whole by four actions:
  - `addToCart`, which merges into an existing line or appends a new one;
  - `removeFromCart`, which filters out a product;
  - `updateQuantity`, which clamps the quantity to at least 1;
  - `clearCart`.

  The store is the class `Cart.CartStore`. Its methods install the new list, which is computed by pure functions. Every action keeps the invariant "at most one line per product id".
- **Cart page** (`CartPage`).
  - The price summary: a subtotal of price × quantity, shipping that is free strictly above 5000 cents and 999 cents otherwise, a 10 % coupon discount, and the total.
  - The coupon form (class `CouponForm`), whose applied flag is monotone.
  - The minus and plus buttons of each line.
  - The header that counts lines.
- **Catalog and listing** (`Catalog`, `ProductsPage`).
  - The listing pipeline run by the products page's effect: a category filter, an inclusive price filter, and then a sort by name, by price in either direction, or by rating.
  - Pages of twelve with Previous / Next clamping.
  - The price slider, whose `parseInt(v) || 100000` turns position 0 into the full range.
  - The page's state hooks, as the class `ProductsPage.ProductsPage`. Every input change re-runs the listing and resets the page to 1.
- **Home page** (`HomePage`): the eight best-rated products and the lower-cased category link. Its de-duplicated category list is `Catalog.UniqueCategories`, which the products page shares.
- **Navigation** (`Navigation`): the cart badge, which counts units, and the active-link tests.

The JavaScript built-ins the code relies on are modelled in `JsArray` and
`JsString`:

- `filter`;
- `reduce` as a left-to-right sum;
- `slice` with its negative-index and clamping rules;
- `[...new Set(xs)]`, which keeps the first occurrence of each value;
- `trim` with the ECMAScript white-space set;
- `toLowerCase`;
- `startsWith`;
- `parseInt` without a radix;
- `String(n)`.

Prices and quantities are unbounded integers, prices in cents. The product catalog is an
arbitrary input sequence. The contents of `@/data/products.json` are not
part of this model.

Each React state hook becomes a field. Each handler or effect becomes a method, whose contract gives the state after it has run. The model records three facts about React's scheduling:

- A string state set to its current value does not re-run the listing effect.
- `priceRange` is a fresh array on every slide, so a slide always re-runs it.
- The pagination bar, and so Previous / Next, exists only while there is more than one page (`src/app/products/page.tsx:377`).

## Model

| member | source | states |
|---|---|---|
| Cart.CartStore.constructor | src/app/components/cartStore.ts:19-20 | the store starts with no lines (and so with at most one line per id) |
| Cart.CartStore.AddToCart | src/app/components/cartStore.ts:21-33 | the new list is the old one with the item merged in, for quantity 1 when none is given; one line per id is kept |
| Cart.CartStore.RemoveFromCart | src/app/components/cartStore.ts:34-36 | the new list is the old one without the product's lines; one line per id is kept |
| Cart.CartStore.UpdateQuantity | src/app/components/cartStore.ts:37-41 | the new list is the old one with the product's quantity set to max(1, quantity); one line per id is kept |
| Cart.CartStore.ClearCart | src/app/components/cartStore.ts:42 | the list is empty afterwards, whatever it held |
| Cart.AddedLines | src/app/components/cartStore.ts:21-33 | the list `addToCart` installs; its meaning is stated by AddToExistingLine, AddNewLine, AddKeepsUniqueIds and AddRaisesLineQuantity |
| Cart.RemovedLines | src/app/components/cartStore.ts:34-36 | the list `removeFromCart` installs; its meaning is stated by RemoveKeepsOtherLines, RemoveUniqueLine and RemoveKeepsUniqueIds |
| Cart.QuantityUpdated | src/app/components/cartStore.ts:37-41 | the list `updateQuantity` installs; its meaning is stated by UpdateUniqueLine and UpdateKeepsIdsAndClamps |
| Cart.FindLine | src/app/components/cartStore.ts:22 | finds a line carrying the id exactly when the cart has one |
| Cart.WithQuantity | src/app/components/cartStore.ts:25-27 | same length and order; exactly the lines with the id get the new quantity, with their other fields kept; all other lines are unchanged |
| Cart.AddToExistingLine | src/app/components/cartStore.ts:23-28 | adding a product already present raises that one line's quantity by the amount and changes nothing else (length, order, its name/price/image, other lines) |
| Cart.AddNewLine | src/app/components/cartStore.ts:30-32 | adding a product not present appends exactly one line with the given fields and quantity, earlier lines untouched |
| Cart.AddKeepsUniqueIds | src/app/components/cartStore.ts:21-33 | adding keeps at most one line per id, and the product is in the cart afterwards |
| Cart.AddRaisesLineQuantity | src/app/components/cartStore.ts:21-33 | one add raises the product's line quantity (0 when absent) by exactly the amount |
| Cart.RepeatedAddsMerge | src/app/components/cartStore.ts:21-33 | any series of adds of one product leaves a single line whose quantity is the old one plus the sum of the amounts |
| Cart.RemoveKeepsOtherLines | src/app/components/cartStore.ts:35 | removal keeps exactly the lines of other products, each as often as before, and no line of the removed id |
| Cart.RemoveUniqueLine | src/app/components/cartStore.ts:35 | with one line per id, removal cuts out exactly that line and keeps the rest in order |
| Cart.RemoveAbsentIsNoOp | src/app/components/cartStore.ts:35 | removing an id not in the cart returns the cart unchanged |
| Cart.RemoveIdempotent | src/app/components/cartStore.ts:35 | removing the same id twice equals removing it once |
| Cart.RemoveKeepsUniqueIds | src/app/components/cartStore.ts:34-36 | removal keeps at most one line per id |
| Cart.UpdateUniqueLine | src/app/components/cartStore.ts:38-40 | with one line per id, an update sets that line's quantity to max(1, quantity) and changes nothing else |
| Cart.UpdateAbsentIsNoOp | src/app/components/cartStore.ts:38-40 | updating an id not in the cart changes nothing |
| Cart.UpdateKeepsIdsAndClamps | src/app/components/cartStore.ts:37-41 | an update keeps one line per id, never leaves the updated line below 1, and repeating it changes nothing |
| Cart.ActionsKeepQuantitiesPositive | src/app/components/cartStore.ts:21-41 | adding a positive quantity, removing and updating all keep every quantity at 1 or more |
| JsArray.SumOf | src/app/cart/page.tsx:28 | `reduce` with a sum, left to right from 0; SumOfAppend, SumOfUpdate, SumOfRemove and SumOfAtLeast state how it follows changes to the sequence |
| JsArray.Slice | src/app/products/page.tsx:84 | `slice` with negative-index and clamping rules; SliceFromNonNegative states the case the pages use |
| JsArray.Filter | src/app/components/cartStore.ts:35 | `filter` keeps each passing element as often as the input holds it and no other; it is never longer than its input |
| JsArray.FilterDropsOne | src/app/components/cartStore.ts:35 | when only the element at k fails the test, `filter` cuts out exactly position k |
| JsArray.FilterIdempotent | src/app/components/cartStore.ts:35 | filtering twice with one test equals filtering once |
| JsArray.SliceFromNonNegative | src/app/products/page.tsx:84 | for non-negative bounds `slice` is the clamped sub-sequence: at most end - start elements, empty when it starts past the end |
| JsArray.Distinct | src/app/products/page.tsx:38 | `[...new Set(xs)]` has no repeats and holds exactly the values of xs |
| JsArray.DistinctFirstSeenOrder | src/app/page.tsx:30 | the de-duplicated values come in the order of their first occurrence (Set insertion order) |
| JsString.Trim | src/app/cart/page.tsx:23 | `trim` as TrimStart then TrimEnd; TrimEmptyIffBlank states when the result is empty |
| JsString.TrimStart | src/app/cart/page.tsx:23 | drops exactly the longest white-space prefix |
| JsString.TrimEnd | src/app/cart/page.tsx:23 | drops exactly the longest white-space suffix |
| JsString.TrimEmptyIffBlank | src/app/cart/page.tsx:23 | the trimmed code is empty (falsy) exactly when the code is all white space |
| JsString.ToLowerCase | src/app/page.tsx:102 | same length; each character is mapped by the letter-case rule |
| JsString.ToLowerCaseIdempotent | src/app/page.tsx:102 | lower-casing twice is lower-casing once |
| JsString.StartsWith | src/app/components/navigation.tsx:19 | `startsWith` holds exactly when the prefix is a prefix of the path |
| JsString.DecimalString | src/app/cart/page.tsx:75 | `String(n)` is a non-empty run of decimal digits |
| JsString.ParseInt | src/app/products/page.tsx:170 | `parseInt` without a radix: optional white space, sign and `0x` prefix, then the longest digit run, else NaN (None); ParseIntDecimalString states its read-back |
| JsString.ParseIntDecimalString | src/app/products/page.tsx:170 | `parseInt` reads back the number that `String(n)` writes |
| JsString.ParseIntLeadingNumber | src/app/cart/page.tsx:75 | `parseInt` reads the number `String(n)` writes back from the head of a text that goes on with a space |
| Catalog.ParseSortKey | src/app/products/page.tsx:57-67 | 'price-low', 'price-high' and 'rating' pick their comparators; every other value, 'name' included, falls to the name order |
| Catalog.NameAtMost | src/app/products/page.tsx:66 | lexicographic order on code points, standing in for `a.localeCompare(b) <= 0`; NameAtMostTotal and NameAtMostTransitive make it a total preorder |
| Catalog.NameAtMostTotal | src/app/products/page.tsx:66 | the stand-in name order relates every two names |
| Catalog.NameAtMostTransitive | src/app/products/page.tsx:66 | the stand-in name order is transitive |
| Catalog.InOrder | src/app/products/page.tsx:56-67 | the comparator `switch`: `a` may precede `b` when the comparator gives at most 0; InOrderTotalPreorder and SortedByKeyMeans state its meaning per key |
| Catalog.InOrderTotalPreorder | src/app/products/page.tsx:56-68 | each of the four comparators is total and transitive |
| Catalog.SortBy | src/app/products/page.tsx:56-68 | the sorted listing is a permutation of its input, ordered by the chosen comparator |
| Catalog.SortedByKeyMeans | src/app/products/page.tsx:58-66 | the order means ascending price, descending price, descending rating, or ascending name |
| Catalog.SortedPermutationUnique | src/app/products/page.tsx:56-68 | without ties, only one ordering of the products is sorted, so the result does not depend on the input order |
| Catalog.PriceOrdersAreReverse | src/app/products/page.tsx:58-61 | with distinct prices, "price high to low" is exactly the reverse of "price low to high" |
| Catalog.Categories | src/app/products/page.tsx:38 | the `map(p => p.category)` step; UniqueCategoriesSpec states that its values are exactly the catalog's categories |
| Catalog.UniqueCategories | src/app/products/page.tsx:38 | `[...new Set(products.map(p => p.category))]`, shared with the home page (src/app/page.tsx:30); stated by UniqueCategoriesSpec |
| Catalog.UniqueCategoriesSpec | src/app/products/page.tsx:38 | the category list (`map` to categories, then `new Set`) has no repeats, holds exactly the catalog's categories, and lists them in order of first appearance |
| ProductsPage.Listing | src/app/products/page.tsx:42-70 | the effect's pipeline: category stage, price stage, sort; stated by ListingSpec |
| ProductsPage.CategoryStage | src/app/products/page.tsx:46-48 | the category filter, skipped for 'all'; stated by ListingSpec |
| ProductsPage.PriceStage | src/app/products/page.tsx:51-53 | the inclusive price filter; stated by ListingSpec |
| ProductsPage.ListingSpec | src/app/products/page.tsx:42-70 | the listing holds exactly the products in the selected category ('all' meaning every one) whose price is within both inclusive bounds, each as often as in the catalog, in the sort key's order |
| ProductsPage.TotalPages | src/app/products/page.tsx:81 | the page count is the ceiling of n / 12 |
| ProductsPage.PageItems | src/app/products/page.tsx:82-84 | `filteredProducts.slice(startIndex, endIndex)` for the current page; stated by PageItemsSpec and EveryProductHasAPage |
| ProductsPage.PageItemsSpec | src/app/products/page.tsx:82-84 | page p is the slice from (p-1)*12, at most twelve products; it is non-empty exactly up to the last page and full before the last |
| ProductsPage.EveryProductHasAPage | src/app/products/page.tsx:81-84 | the product at index i shows on page i/12+1, at position i%12, and that page is offered |
| ProductsPage.ThirtyProducts | src/app/products/page.tsx:81-84 | thirty products make three pages, the third holding six, and a fourth page is empty |
| ProductsPage.PreviousPageNumber | src/app/products/page.tsx:386 | `Math.max(1, currentPage - 1)`; stated by PagingStaysInRange |
| ProductsPage.NextPageNumber | src/app/products/page.tsx:406 | `Math.min(totalPages, currentPage + 1)`; stated by PagingStaysInRange |
| ProductsPage.PagingStaysInRange | src/app/products/page.tsx:386-406 | Previous never goes below 1, Next never above the last page, and each moves by at most one page |
| ProductsPage.SliderRange | src/app/products/page.tsx:170 | `[minPrice, parseInt(v) \|\| maxPrice]`; stated by SliderPositions and SliderAtZeroKeepsAll |
| ProductsPage.SliderPositions | src/app/products/page.tsx:170 | slider position n gives the range [0, n], except 0, which gives [0, 100000] |
| ProductsPage.SliderAtZeroKeepsAll | src/app/products/page.tsx:170 | with the slider at 0 every product priced 0 to 100000 passes the price stage |
| ProductsPage.CartEntry | src/app/products/page.tsx:281 | the `{ id, name, price, image }` literal both "Add to cart" buttons (lines 281 and 361) hand the store; stated by AddProductToCart |
| ProductsPage.AddProductToCart | src/app/products/page.tsx:361 | an "Add to cart" button adds one unit of the product to the store |
| ProductsPage.ProductsPage.constructor | src/app/products/page.tsx:22-29 | initial state: no products, category 'all', sort 'name', range [0, 100000], page 1 |
| ProductsPage.ProductsPage.RefreshListing | src/app/products/page.tsx:42-72 | the effect stores the category/price/sort pipeline's result and resets the page to 1, leaving the inputs alone |
| ProductsPage.ProductsPage.Mount | src/app/products/page.tsx:36-40 | loading stores the catalog and its de-duplicated categories, then the listing is recomputed and the page is 1 |
| ProductsPage.ProductsPage.SelectCategory | src/app/products/page.tsx:137 | choosing a new category re-filters and resets the page to 1; re-choosing the current one changes nothing |
| ProductsPage.ProductsPage.SelectSort | src/app/products/page.tsx:180 | choosing a new sort re-sorts and resets the page to 1; re-choosing the current one changes nothing |
| ProductsPage.ProductsPage.SlidePrice | src/app/products/page.tsx:170 | a slide sets the range from the slider value, re-filters and resets the page to 1 |
| ProductsPage.ProductsPage.ClickPrevious | src/app/products/page.tsx:386 | the page becomes max(1, page - 1) and stays within range |
| ProductsPage.ProductsPage.ClickNext | src/app/products/page.tsx:406 | the page becomes min(totalPages, page + 1) and stays within range |
| ProductsPage.ProductsPage.ClickPage | src/app/products/page.tsx:395 | a numbered button moves to that page |
| ProductsPage.ProductsPage.CurrentProducts | src/app/products/page.tsx:84 | the visible page holds at most twelve products, each in the catalog and passing both filters |
| HomePage.FeaturedProducts | src/app/page.tsx:26-27 | the first eight of the catalog sorted by rating; stated by FeaturedSpec and LargeCatalogFeaturesEight |
| HomePage.FeaturedSpec | src/app/page.tsx:26-27 | min(8, n) products are featured, best rating first; featured and non-featured together are a permutation of the catalog; no non-featured product is rated above a featured one |
| HomePage.LargeCatalogFeaturesEight | src/app/page.tsx:27 | a catalog of more than eight products features exactly eight and leaves some out |
| HomePage.CategoryHref | src/app/page.tsx:102 | `/category/` followed by the lower-cased category; stated by CategoryHrefSpec |
| HomePage.CategoryHrefSpec | src/app/page.tsx:102 | a category link is "/category/" plus one character per character of the category, entirely lower case; categories equal up to case share a link |
| CartPage.Subtotal | src/app/cart/page.tsx:28 | the sum of price × quantity over the lines; stated by SubtotalNonNegative and SubtotalAfterAdd/Remove/Update |
| CartPage.Total | src/app/cart/page.tsx:31 | subtotal + shipping - discount; stated by TotalBounds, CouponNeverRaisesTotal and WorkedTotals |
| CartPage.Shipping | src/app/cart/page.tsx:29 | shipping is 0 exactly when the subtotal is above 5000, otherwise 999 |
| CartPage.Discount | src/app/cart/page.tsx:30 | the discount is a tenth of the subtotal with the coupon, else 0 |
| CartPage.SubtotalNonNegative | src/app/cart/page.tsx:28 | with no negative prices or quantities the subtotal is not negative, and an empty cart's is 0 |
| CartPage.ShippingNonIncreasing | src/app/cart/page.tsx:29 | a larger subtotal never pays more shipping |
| CartPage.TotalBounds | src/app/cart/page.tsx:28-31 | the total of a non-negative subtotal is positive and at most subtotal + 999 |
| CartPage.CouponNeverRaisesTotal | src/app/cart/page.tsx:30-31 | the coupon lowers the total by exactly a tenth of the subtotal, never raising it |
| CartPage.WorkedTotals | src/app/cart/page.tsx:28-31 | a cart of two units at 2000 costs 4999; two units at 3000 with the coupon cost 5400; a subtotal of 5000 still pays shipping (5999) while 5001 costs 5001 |
| CartPage.SubtotalAfterAdd | src/app/cart/page.tsx:28 | after an add the subtotal grows by the line's own price (or the new product's) times the quantity |
| CartPage.SubtotalAfterRemove | src/app/cart/page.tsx:28 | after a removal the subtotal drops by that line's total; removing an absent id leaves it |
| CartPage.SubtotalAfterUpdate | src/app/cart/page.tsx:28 | after an update the line's total becomes its price times max(1, quantity); an absent id leaves it |
| CartPage.CouponForm.constructor | src/app/cart/page.tsx:12-13 | the code starts empty and no coupon is applied |
| CartPage.CouponForm.ChangeCode | src/app/cart/page.tsx:163 | typing replaces the code and leaves the applied flag |
| CartPage.CouponForm.ApplyCoupon | src/app/cart/page.tsx:22-26 | the coupon is applied afterwards exactly when it already was or the code is not blank; an applied coupon stays applied |
| CartPage.CouponForm.ApplyEnabled | src/app/cart/page.tsx:168 | the Apply button is enabled exactly when the code is not blank and no coupon is applied |
| CartPage.CouponSession | src/app/cart/page.tsx:22-26 | any sequence of typing and applying never turns an applied coupon off |
| CartPage.DecreaseQuantity | src/app/cart/page.tsx:114 | the minus button sets the line's quantity to max(1, quantity - 1) through the store |
| CartPage.IncreaseQuantity | src/app/cart/page.tsx:123 | the plus button sets the line's quantity to quantity + 1 through the store |
| CartPage.QuantityButtons | src/app/cart/page.tsx:114-123 | minus lowers a line by one but never below 1 (at 1 the cart is unchanged), plus raises it by one, and all quantities stay at least 1 |
| CartPage.HeaderText | src/app/cart/page.tsx:35-75 | the count line of the non-empty cart branch, absent for an empty cart; stated by HeaderCountsLines and HeaderNumberIsLineCount |
| CartPage.HeaderCountsLines | src/app/cart/page.tsx:35-75 | the count line exists exactly when the cart has a line (an empty cart shows "Your cart is empty" instead); it says "1 item" for exactly one line and "n items" for more |
| CartPage.HeaderNumberIsLineCount | src/app/cart/page.tsx:75 | the number at the head of the count line reads back as the number of lines, not of units |
| Navigation.CartItemCount | src/app/components/navigation.tsx:10 | the sum of the lines' quantities; stated by BadgeShownIffNonEmpty, CountAfterAdd and CountAfterRemove |
| Navigation.BadgeVisible | src/app/components/navigation.tsx:26 | the badge shows when the count is above 0; stated by BadgeShownIffNonEmpty |
| Navigation.BadgeShownIffNonEmpty | src/app/components/navigation.tsx:26 | with quantities of at least 1, the count is at least the number of lines, 0 for an empty cart, and the badge shows exactly when the cart has a line |
| Navigation.CountAfterAdd | src/app/components/navigation.tsx:10 | after any add, from any cart including an empty one, the badge count (sum of quantities) rises by exactly the amount added |
| Navigation.CountAfterRemove | src/app/components/navigation.tsx:10 | after removing a product the badge count falls by that line's quantity |
| Navigation.HomeActive | src/app/components/navigation.tsx:14 | Home is highlighted when the path is exactly `/`; stated by ActiveLinks |
| Navigation.ProductsActive | src/app/components/navigation.tsx:19 | Products is highlighted when the path starts with `/products`; stated by ActiveLinks |
| Navigation.ActiveLinks | src/app/components/navigation.tsx:14-19 | Home and Products are never both active; Products is active exactly on paths beginning with "/products", including longer words such as "/products-sale" |

## Left out

- JSX rendering, Tailwind classes, framer-motion animation, the grid/list view toggle, the star rendering from `Math.floor(rating)` and the image URL built with `encodeURIComponent`. These are presentation only.
- `formatPrice` / `Intl.NumberFormat` currency formatting is locale formatting by a library. Amounts stay in integer cents.
- CartPage.Discount: the discount is an exact tenth, a real number. JavaScript's floating-point `subtotal * 0.1` and its rounding are not modelled.
- Catalog.NameAtMost: plain lexicographic order on code points stands in for `localeCompare`, whose collation depends on the locale. The proofs use only that it is a total preorder.
- Catalog.SortBy: `Array.prototype.sort` works in place on the fresh copy `filtered` (or `[...products]`). It is modelled as a function returning the sorted sequence, so the update in place and its aliasing are not captured. The copy makes them unobservable. The model is an insertion sort that keeps equal elements in input order, but stability is not stated as a property. Only the permutation, the order and uniqueness without ties are proved.
- JsString.ToLowerCase: maps only the ASCII letters A–Z. Unicode case mappings beyond ASCII are not modelled.
- Prices and quantities (`price` and `quantity` at `src/app/components/cartStore.ts:6,8`) are unbounded integers. Fractional values, NaN (`Math.max(1, NaN)` at `src/app/components/cartStore.ts:39` stays NaN) and the loss of precision beyond 2^53 in the `reduce` sums at `src/app/cart/page.tsx:28` and `src/app/components/navigation.tsx:10` are not modelled.
- JsString.ParseInt: integers are unbounded. The model leaves out the loss of precision for numbers beyond 2^53 and does not read `Infinity`. Its only stated property is the read-back of `String(n)`, which is the slider's case.
- zustand's `create`/`set` subscription and notification, and React's scheduling of renders and effects. Only the resulting state transitions are modelled. `ProductsPage.ProductsPage.Valid` describes the state once the listing effect has run.
- The disabled state of Previous on page 1 and of Next on the last page is not a separate case. Clicking there would compute the same page anyway.
- The mock-users page (network fetch and a server action), the layout, the authentication widget, the `ProtectedRoute` wrapper, the checkout link and the build configuration are not part of this model.
- The catalog file `@/data/products.json` is not part of this model. The catalog is an arbitrary sequence of products.
