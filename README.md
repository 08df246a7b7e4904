# Storefront cart and catalog, modelled in Dafny

This project models the client-side logic of a small e-commerce storefront
written in plain JavaScript. It covers:

- **the cart store** (`js/cart.js`): an ordered list of line items, at most
  one per product id. Operations add, remove, change the quantity of and
  clear lines. Queries return the item count, the price total and
  individual lines, and the cart page's order summary is computed from
  them.
- **the catalog** (`js/products.js`): the twelve sample products; lookup
  by id; the category filter; the featured and related selections; the
  four sort keys with their identity fallback; the placeholder image URL;
  and the star-rating icons.
- **the cart page** (`js/cart-page.js`): saving the cart for later and
  loading a saved cart back, clearing the whole cart after confirmation,
  the discount-code check, and the checkout button.
- **the shop page** (`js/shop.js`): which products the grid shows for the
  default listing, a search query or a category, and when it shows the
  "No products found" panel instead.
- **the product page** (`js/product.js`): the wishlist, the quantity
  stepper and how the product's stock configures it, the add-to-cart
  button, and the related-products strip.

Layout, one module per file:

| file | module | contents |
|---|---|---|
| `wrappers.dfy` | `Wrappers` | `Option` |
| `seqs.dfy` | `Seqs` | `filter`, `find`, `findIndex` and `slice(0, n)` on sequences, with their specifications |
| `text.dfy` | `Text` | `trim`, `toLowerCase`, `includes`, rendering integers in decimal, and the order used for titles |
| `products.dfy` | `Catalog` | the product record, the sample data, the catalog queries, sorting, star icons |
| `cart.dfy` | `CartStore` | line items, the cart operations as functions of the current lines, their properties, the order summary, and the class `Cart` |
| `cart_page.dfy` | `CartPage` | saved carts (class `SavedCartStore`), clear-all, checkout, the discount code |
| `shop.dfy` | `Shop` | the grid's view of the catalog (class `ProductsGrid`) |
| `product.dfy` | `ProductPage` | related products, the wishlist (class `Wishlist`), the stepper and the detail controls (class `ProductDetails`) |

How state is modelled:

- Every piece of module state, stored value or page element the scripts
  change becomes a field of a class. The cart's lines are module state
  mirrored in `localStorage`; the saved-cart list and the wishlist are
  `localStorage` entries; the grid and the quantity input are DOM
  elements.
- Each method states its new state as a function of the old one, for
  example `items == Added(catalog, old(items), productId, quantity)`.
- What the source promises is proved about those functions. These are the
  three outcomes of each update, the one-line-per-id invariant, the effect
  on the totals, removal as a cut, and a save followed by a load.
- Money and ratings are exact decimals (`real`). The 8% tax, the 9.99
  shipping fee and the 50 threshold are exact.

## Model

| member | source | states |
|---|---|---|
| `CartStore.Cart.constructor` | js/cart.js:4 | the cart starts as the stored list, or empty when nothing is stored |
| `CartStore.Cart.AddToCart` | js/cart.js:22-43 | the new lines are `Added(old lines, id, quantity)`; at most one line per id is kept; every quantity stays at least 1 when the added quantity is at least 1 |
| `CartStore.AddedCases` | js/cart.js:22-37 | an id the catalog lacks changes nothing; a product not in the cart gets exactly one snapshot line (id, title, price, image, quantity) appended at the end; a product in the cart gets exactly one line with its id raised by the quantity, with length and every other line unchanged |
| `CartStore.AddedKeepsUniqueIds` | js/cart.js:26-37 | adding keeps at most one line per product id |
| `CartStore.AddedKeepsPositive` | js/cart.js:26-37 | adding a quantity of at least 1 keeps every line's quantity at least 1 |
| `CartStore.AddedQuantity` | js/cart.js:26-37 | adding a known product raises its quantity by exactly the added amount, and no other id's quantity changes |
| `CartStore.AddedExistingTotals` | js/cart.js:12-29 | adding to a line already in the cart raises the item count by the quantity and the price total by that many units at the line's snapshot price |
| `CartStore.AddedNewTotals` | js/cart.js:12-37 | adding a new product raises the item count by the quantity and the price total by that many units at the catalog price |
| `CartStore.AddTwiceExample` | js/cart.js:22-43 | adding product 1 once and then twice more gives one line of 3 units; the item count is 3 and the total is 299.97 |
| `CartStore.Cart.RemoveFromCart` | js/cart.js:46-51 | the new lines are `Removed(old lines, id)`; no line with the id remains; at most one line per id is kept |
| `CartStore.RemovedSpec` | js/cart.js:47 | removal keeps exactly the lines with another id, in their original order; it is a no-op when the id is absent; it keeps one line per id |
| `CartStore.RemovedIsCut` | js/cart.js:47 | in a cart with one line per id, removing line i's id is cutting out exactly line i |
| `CartStore.RemovedTotals` | js/cart.js:47 | removal lowers the item count by the removed line's quantity and the price total by its line total (by nothing when absent) |
| `CartStore.Cart.UpdateCartItemQuantity` | js/cart.js:54-65 | the new lines are `WithQuantity(old lines, id, q)`; one line per id and quantities of at least 1 are both preserved |
| `CartStore.WithQuantityCases` | js/cart.js:54-65 | an id not in the cart changes nothing; a quantity of 0 or less is exactly `removeFromCart`; otherwise exactly one line with the id takes the new quantity, with length and every other line unchanged |
| `CartStore.WithQuantityKeepsUniqueIds` | js/cart.js:54-65 | setting a quantity keeps at most one line per id |
| `CartStore.WithQuantityKeepsPositive` | js/cart.js:54-65 | setting a quantity keeps every quantity at least 1, whatever the new value, because 0 or less removes the line |
| `CartStore.WithQuantityQuantity` | js/cart.js:54-65 | afterwards the id's quantity is the new value (0 after a removal or when absent), and every other id's quantity is unchanged |
| `CartStore.WithQuantityTotals` | js/cart.js:54-65 | a positive new quantity moves the item count by the difference and the price total by the difference at the line's price |
| `CartStore.DecrementFromOneRemoves` | js/cart.js:136 | the minus button on a line holding 1 unit removes that line: the cart is one line shorter and no longer holds the id |
| `CartStore.Cart.ClearCart` | js/cart.js:68-72 | the cart is empty, and both totals are 0 |
| `CartStore.GetCartItem` | js/cart.js:75-77 | the result is a line of the cart carrying the id, and one exists exactly when `isInCart` holds |
| `CartStore.IndexOfId` | js/cart.js:75-82 | the position of the first line with the id, which exists exactly when `isInCart` holds |
| `CartStore.GetCartItemUnique` | js/cart.js:75-77 | in a cart with one line per id, `getCartItem` returns the one line carrying the id |
| `CartStore.IsInCart` | js/cart.js:80-82 | `isInCart`; `GetCartItem` finds a line exactly when it holds |
| `CartStore.SumQuantities` | js/cart.js:12-14 | `getCartTotalItems`, the sum of the quantities; its properties are `SumsOfConcat`, `SumQuantitiesAtLeastLines` and the totals lemmas |
| `CartStore.SumPrices` | js/cart.js:17-19 | `getCartTotalPrice`, the sum of price × quantity; its properties are `SumsOfConcat` and the totals lemmas |
| `CartStore.Added` | js/cart.js:22-37 | `addToCart` on the current lines; its outcomes are stated by `AddedCases` |
| `CartStore.Removed` | js/cart.js:47 | `removeFromCart` on the current lines; stated by `RemovedSpec` |
| `CartStore.WithQuantity` | js/cart.js:54-65 | `updateCartItemQuantity` on the current lines; stated by `WithQuantityCases` |
| `CartStore.SumsOfConcat` | js/cart.js:12-19 | item count and price total both add up over a concatenation of carts |
| `CartStore.SumQuantitiesAtLeastLines` | js/cart.js:12-14 | when every quantity is at least 1, the item count is at least the number of lines |
| `CartStore.CartSummary` | js/cart.js:190-194 | shipping is 0 exactly when the subtotal exceeds 50, and 9.99 otherwise; tax is 8%; total = subtotal + shipping + tax = 1.08 × subtotal + shipping; a non-negative subtotal gives a total at least the subtotal |
| `CartStore.ZeroSubtotalSummary` | js/cart.js:190-194 | the summary arithmetic at the subtotal of an empty cart gives shipping 9.99, tax 0, total 9.99 (the page never shows it, see Left out) |
| `CartStore.Cart.HandleCheckout` | js/cart.js:288-302 | an empty cart is refused and left unchanged; otherwise the cart is accepted and emptied |
| `Catalog.CatalogIdsAreIndexes` | js/products.js:2-123 | the sample data has 12 products, numbered 1 to 12 in catalog order |
| `Catalog.CatalogIdsDistinct` | js/products.js:2-123 | no two sample products share an id |
| `Catalog.GetProductById` | js/products.js:126-128 | a product found is in the catalog and has the id; nothing is found exactly when no product has the id |
| `Catalog.GetProductByIdUnique` | js/products.js:126-128 | with distinct ids, the product found is the one product that has the id |
| `Catalog.GetProductByIdIndexed` | js/products.js:2-128 | on the sample data, ids 1 to 12 find the product at position id − 1, and every other id finds nothing |
| `Catalog.GetProductsByCategory` | js/products.js:131-133 | the result holds exactly the catalog products whose category equals the argument, and it is a subsequence of the catalog |
| `Catalog.GetFeaturedProducts` | js/products.js:136-141 | at most 6 products, all from the catalog with rating ≥ 4.3, ratings non-increasing; no qualifying product left out is rated above one kept; fewer than 6 means every qualifying product is included; no product appears more often than among the catalog's qualifying products |
| `Catalog.FeaturedTiesKeepCatalogOrder` | js/products.js:136-141 | among equally rated products the featured ones are the first of that rating among the qualifying products, in catalog order (this decides which tied products survive the cut to six) |
| `Catalog.TiedByRating` | js/products.js:139 | the rating comparator ties exactly the products with equal ratings |
| `Catalog.FeaturedOnSampleData` | js/products.js:136-141 | on the sample data the featured ids are 3, 4, 10, 1, 8, 6 (ties keep catalog order) |
| `Catalog.GetRelatedProducts` | js/products.js:144-148 | at most 4 products, none with the excluded id, all in the category, in catalog order (a subsequence); they are the first ones of the catalog's products of the category with another id; fewer than 4 means every such product is included |
| `Catalog.PrecedesIsStrictWeakOrder` | js/products.js:151-160 | each of the comparators is irreflexive, asymmetric, and has transitive incomparability |
| `Catalog.SortSortsAndPermutes` | js/products.js:151-160 | the sort returns a permutation of its input that is ordered under the comparator |
| `Catalog.InsertStable` | js/products.js:151-160 | inserting an element puts it after every element already there that is tied with it |
| `Catalog.SortIsStable` | js/products.js:151-160 | the sort is stable: for every product x, the products tied with x come out in the order they went in |
| `Catalog.SortProducts` | js/products.js:151-164 | `sortProducts`; what it returns is stated by `SortProductsSpec` |
| `Catalog.LedBeforeLeatherByCodePoint` | js/products.js:154 | under the modelled title order "LED Desk Lamp" precedes "Leather Wallet Brown" (see Left out) |
| `Catalog.SortProductsSpec` | js/products.js:151-164 | the four known keys give a permutation of the input ordered by title or price in the key's direction; any other key returns the input unchanged |
| `Catalog.PriceAscOnSampleData` | js/products.js:157-158 | on the sample data "price-asc" gives ids 8, 7, 3, 6, 4, 5, 12, 9, 10, 1, 11, 2 (89.99 for id 10 comes before 99.99 for id 1, and 119.99 for id 11 before 149.99 for id 2) |
| `Catalog.GetPlaceholderImage` | js/products.js:167-169 | the picsum.photos URL with the id in decimal; see `PlaceholderImageInjective` |
| `Catalog.PlaceholderImageInjective` | js/products.js:167-169 | different ids get different placeholder URLs |
| `Catalog.Ceil` | js/products.js:193 | `Math.ceil(x)` is the integer c with x ≤ c < x + 1 |
| `Catalog.GetStarRating` | js/products.js:180-199 | the two loops emit floor(r) full stars, a half star when r has a fractional part, then 5 − ceil(r) empty stars |
| `Catalog.StarIconsForValidRating` | js/products.js:180-199 | for 0 ≤ r ≤ 5 there are exactly 5 icons: floor(r) full, one half exactly when r is not whole, and 5 − ceil(r) empty |
| `CartPage.SavedCartStore.constructor` | js/cart-page.js:155 | the saved-cart list is the stored one, or empty when nothing is stored |
| `CartPage.SavedCartStore.SaveCartForLater` | js/cart-page.js:149-167 | an empty cart saves nothing; otherwise one record is appended; naming by position is kept; the cart itself is outside the method's frame, so it is never changed |
| `CartPage.WithSaved` | js/cart-page.js:149-163 | `saveCartForLater` on the saved list; stated by `WithSavedSpec` |
| `CartPage.WithSavedSpec` | js/cart-page.js:149-163 | an empty cart leaves the list unchanged; otherwise exactly one record is appended at the end, earlier records are unchanged, and the new record is (clock reading, the cart's lines, the ISO date, "Saved Cart n+1") for a list of n records, whatever it held before; in a position-named list that name differs from every earlier one, and position naming is preserved |
| `CartPage.SavedCartNameInjective` | js/cart-page.js:160 | different counts give different saved-cart names |
| `CartPage.NamedByPositionDistinct` | js/cart-page.js:160 | in a list named by position, no two saved carts share a name |
| `CartPage.FindSavedCart` | js/cart-page.js:172 | a record found is in the list and has the id, and no earlier record has it; nothing is found exactly when no record has the id |
| `CartPage.Loaded` | js/cart-page.js:170-183 | `loadSavedCart` on the cart's lines; stated by `SaveThenLoad` and `LoadUnknownKeeps` |
| `CartPage.SavedCartStore.LoadSavedCart` | js/cart-page.js:170-183 | with a record for the id, the cart's lines become that record's lines and the method reports success; otherwise the cart is unchanged |
| `CartPage.SaveThenLoad` | js/cart-page.js:149-183 | saving a non-empty cart and loading it by its new (fresh) id gives the same lines back |
| `CartPage.LoadUnknownKeeps` | js/cart-page.js:180-182 | an id no record carries leaves the cart unchanged |
| `CartPage.ClearAllCartItems` | js/cart-page.js:116-127 | an empty cart is unchanged, a refused confirmation changes nothing, and a confirmed clear of a non-empty cart empties it |
| `CartPage.Checkout` | js/cart-page.js:61-75 | an empty cart is refused and left unchanged; otherwise it is accepted and emptied |
| `CartPage.ApplyDiscountCode` | js/cart-page.js:130-146 | a missing field or a blank value means no code; exactly the trimmed value "SAVE10" is accepted; anything else is invalid |
| `CartPage.PaddedCodeApplies` | js/cart-page.js:132-140 | "SAVE10" with whitespace around it is accepted |
| `Shop.ShowOrEmpty` | js/shop.js:29-37 | the panel is shown exactly when there is nothing to show; otherwise one card per product, in order |
| `Shop.LoadedView` | js/shop.js:17-38 | `loadProducts`'s grid; stated by `LoadedViewSpec` |
| `Shop.LoadedViewSpec` | js/shop.js:17-38 | the listing shows every catalog product as often as the catalog holds it; the panel appears only for an empty catalog; with no key it is ordered by title A to Z, with a known key in that key's order, and with any other key it is catalog order |
| `Shop.ProductsGrid.constructor` | js/shop.js:3-5 | the page starts with the default listing |
| `Shop.ProductsGrid.LoadProducts` | js/shop.js:17-38 | the grid shows the listing for the given key, "name-asc" when none is given |
| `Shop.IsEmptyQueryIffBlank` | js/shop.js:86 | the fallback test holds exactly for a missing or whitespace-only query |
| `Shop.SearchView` | js/shop.js:85-107 | `searchProducts`'s grid; stated by `SearchViewSpec` |
| `Shop.SearchViewSpec` | js/shop.js:85-107 | a blank query shows the default listing; otherwise a product is shown exactly when its lower-cased title, category or description contains the lower-cased (untrimmed) query; results keep catalog order; the panel appears exactly when nothing matches |
| `Shop.SearchIgnoresQueryCase` | js/shop.js:91-95 | a query and its lower-cased form show the same grid |
| `Shop.SearchFindsTitle` | js/shop.js:91-95 | searching for a catalog product's non-blank title shows that product |
| `Shop.ProductsGrid.SearchProducts` | js/shop.js:85-107 | the grid shows `SearchView(catalog, query)` |
| `Shop.CategoryView` | js/shop.js:139-157 | `filterByCategory`'s grid; stated by `CategoryViewSpec` |
| `Shop.CategoryViewSpec` | js/shop.js:139-157 | a missing or empty category, or "all", shows the default listing; otherwise exactly the products whose category equals it (case-sensitively), in catalog order, with the panel exactly when there are none |
| `Shop.CategoryOfProductShowsIt` | js/shop.js:145 | filtering by a catalog product's category shows that product |
| `Shop.ProductsGrid.FilterByCategory` | js/shop.js:139-157 | the grid shows `CategoryView(catalog, category)` |
| `ProductPage.RelatedFor` | js/product.js:86-87 | at most 4 products, none for an unknown id; for a known id, the first ones, in catalog order, of the catalog's other products in the current product's category, and all of them when there are fewer than 4 |
| `ProductPage.WithWish` | js/product.js:166-167 | `addToWishlist` on the list; stated by `WithWishMembers`, `WithWishIdempotent` and `WithWishKeepsNoDuplicates` |
| `ProductPage.WithWishMembers` | js/product.js:166-167 | after adding, the list holds the id and nothing else new; earlier entries keep their places; at most one entry is added |
| `ProductPage.WithWishIdempotent` | js/product.js:166-172 | adding an id twice is the same as adding it once |
| `ProductPage.WithWishKeepsNoDuplicates` | js/product.js:166-168 | adding never introduces a duplicate |
| `ProductPage.WithWishesSpec` | js/product.js:163-173 | after any series of additions, the list holds exactly the old ids and the added ones, still without duplicates |
| `ProductPage.Wishlist.constructor` | js/product.js:164 | the wishlist is the stored list, or empty when nothing is stored |
| `ProductPage.Wishlist.AddToWishlist` | js/product.js:163-173 | the method reports "added" exactly when the id was new; the id is appended only then; the list then holds it and stays free of duplicates |
| `ProductPage.StepBounds` | js/product.js:144-158 | minus lowers the value by one exactly when it is above 1 and never takes it below 1; plus raises it by one exactly when it is below the bound and never past it |
| `ProductPage.ClicksStayInRange` | js/product.js:144-158 | a value between 1 and the bound stays there after any series of clicks |
| `ProductPage.OutOfStockNeverRises` | js/product.js:152-158 | with the out-of-stock bound of 0, no series of clicks raises the value |
| `ProductPage.OutOfStockRisesAsWritten` | js/product.js:154 | as written, an out-of-stock product's bound reads as 99, so plus takes any value from 0 to 98 one higher, past 0 |
| `ProductPage.StepperMaxAgreesExceptZero` | js/product.js:154 | the bound as written and the intended bound differ only for the attribute 0 |
| `ProductPage.ProductDetails.LoadProductDetails` | js/product.js:19-81 | an unknown id changes none of the controls; otherwise max is 99 in stock and 0 out of stock; the input is disabled exactly when out of stock, which also disables the purchase buttons; the quantity is unchanged |
| `ProductPage.ProductDetails.Decrease` | js/product.js:144-150 | the value becomes `Decreased(old)` and never drops below 1; nothing else changes |
| `ProductPage.ProductDetails.Increase` | js/product.js:152-158 | the value becomes `Increased(old, max)` and never exceeds the bound; nothing else changes |
| `ProductPage.ProductDetails.AddToCartClicked` | js/product.js:49-68 | a disabled button leaves the cart unchanged; otherwise the product is added with the input's quantity, keeping one line per id |
| `Text.Trim` | js/cart-page.js:132 | `String.prototype.trim`; stated by `TrimEmptyIffBlank`, `TrimIsSlice` and `TrimPadded` |
| `Text.ToLower` | js/shop.js:92-94 | `toLowerCase` on A to Z: same length, each character lower-cased |
| `Text.TrimEmptyIffBlank` | js/shop.js:86 | a string trims to "" exactly when it is whitespace only |
| `Text.TrimIsSlice` | js/cart-page.js:132 | `trim` keeps a contiguous piece of its input |
| `Text.TrimPadded` | js/cart-page.js:132 | whitespace around a string that neither starts nor ends with whitespace is exactly what `trim` removes |
| `Text.ToLowerIdempotent` | js/shop.js:92-94 | lower-casing twice is lower-casing once |
| `Text.Includes` | js/shop.js:92-94 | `includes` holds exactly when the needle occurs at some position of the text |
| `Text.IntToDecimalRoundTrip` | js/cart-page.js:160 | the decimal rendering of an integer in a template literal reads back to the same integer |
| `Text.LexLessTransitive` | js/products.js:154 | the title order is transitive |
| `Text.LexLessTotal` | js/products.js:154 | of two different titles, one precedes the other |
| `Seqs.FilterSpec` | js/products.js:132 | `filter` keeps exactly the elements satisfying the test, as often as they occur, in their original order |
| `Seqs.Take` | js/products.js:140 | `slice(0, n)` is the first min(n, length) elements |
| `Seqs.Find` | js/cart.js:76 | `find` returns an element that passes the test with no passing element before it, and nothing exactly when no element passes |
| `Seqs.FirstIndex` | js/cart.js:76 | the position `find` stops at: the element there passes the test, and none before it does |
| `Seqs.FilterOfPrefix` | js/products.js:140 | filtering the first n elements gives a prefix of the filtered whole |

## Left out

- Markup, DOM reads and writes, animations, notifications, `setTimeout`
  delays, navigation, and the image zoom (`setupImageZoom`) are not
  modelled. None of them changes the modelled state. All of `js/main.js`,
  which is event wiring, is not part of this model.
- Storage and JSON are abstracted. `localStorage` reads are constructor
  parameters (`Option` for "nothing stored"). Writes are the class fields
  themselves. JSON round-tripping and cross-tab writes are left out.
- `confirm()` is a boolean parameter of `ClearAllCartItems`.
- `Date.now()` and `toISOString()` are parameters of `SaveCartForLater`.
- Formatting and text handling:
  - `Intl.NumberFormat` currency formatting is left out.
  - `Catalog.Precedes`: `localeCompare` is approximated by lexicographic
    order on code points (`Text.LexLess`), because locale collation is a
    library behaviour. The proved properties (strict weak order,
    stability, sorted permutation) hold for any such order. On the sample
    titles the two orders differ on one pair: code-point order puts "LED
    Desk Lamp" (id 6) before "Leather Wallet Brown" (id 5), as
    `Catalog.LedBeforeLeatherByCodePoint` states, while locale collation
    compares case-insensitively first and puts "Leather" first. The
    modelled default name-asc listing therefore swaps these two products
    compared with the page.
  - `Text.ToLower`: only A to Z are lower-cased, because full Unicode case
    mapping is a library table.
- Numbers:
  - Prices, tax and totals are exact decimals. IEEE double rounding (for
    example, a total that prints as 299.96999999999997) is not modelled.
  - `CartStore.Cart.AddToCart`, `CartStore.Cart.UpdateCartItemQuantity`
    and `ProductPage.ProductDetails.AddToCartClicked` take quantities that
    are already integers. `parseInt` of form values, `NaN` quantities and
    string-versus-number comparisons in the stepper are left out. Every
    caller in the repository passes numeric product ids.
- In-place mutation:
  - `existingItem.quantity += q` and `item.quantity = q` mutate a line
    object in place. The model replaces the element of the sequence.
  - No other holder of that object is observable. Saved records are
    serialized right away, and loaded ones are fresh copies. Aliasing is
    therefore not modelled.
- `CartStore.Cart.AddToCart`: the source's default `quantity = 1` is not
  modelled, and the quantity is always passed. No caller in the
  repository omits it.
- `CartStore.ZeroSubtotalSummary` is the summary arithmetic at subtotal 0.
  The cart page never shows a summary for an empty cart: `loadCartPage`
  returns before `updateCartSummary` when the cart is empty
  (js/cart-page.js:21-28 and 40).
- `CartStore.Cart.HandleCheckout` and `CartPage.Checkout`: the clear runs
  after a delay in the source. Here it happens at once, and events in
  between are not modelled.
- `Shop.ProductsGrid.LoadProducts`: the loading placeholder and the 500 ms
  delay are not modelled. Neither is a page without a grid element, where
  the source returns early or only skips rendering.
- `ProductPage.ProductDetails.LoadProductDetails` models only the
  stock-dependent controls. It leaves out:
  - the text fields and image it fills in;
  - URL parsing and the redirect;
  - a `TypeError` the source raises if the quantity input exists but a
    purchase button does not.
- `ProductPage.ProductDetails.Increase` uses the intended bound (see
  Findings), not the bound as written. The as-written step is
  `ProductPage.IncreasedAsWritten`.
- `ProductPage.RelatedFor`: for an unknown id the source filters on an
  undefined category, which no product has. The model states the same
  empty result directly.
- The stepper is modelled as the handlers `updateQuantityControls`
  installs. None of the scripts in the repository calls
  `updateQuantityControls`, so the handlers only run if a page wires it
  up.

## Findings

| source | as written | input that shows it | evidently intended | confidence | as-written member | corrected member |
|---|---|---|---|---|---|---|
| js/product.js:154 | `parseInt(quantityInput.max) \|\| 99` treats the out-of-stock max "0" as falsy and replaces it with 99 | an out-of-stock product (max set to "0" at js/product.js:73) with quantity 1: the plus button takes it to 2, and on up to 99 | 99 only when the attribute does not parse; a max of 0 keeps the plus button from raising the quantity | not executed | `ProductPage.OutOfStockRisesAsWritten` | `ProductPage.OutOfStockNeverRises` |
