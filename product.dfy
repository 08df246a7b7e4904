/** The product detail page: the quantity stepper and how the product's stock
    configures it, the add-to-cart and buy-now buttons, the related-products
    strip and the wishlist. */
module ProductPage {
  import opened Wrappers
  import opened Seqs
  import opened Catalog
  import opened CartStore

  // ---------------------------------------------------------------------------
  // Related products

  /** `loadRelatedProducts(currentId)`: the related products of the product
      with this id, that is the first four (or fewer) other catalog products
      of its category; none when there is no such product. */
  function RelatedFor(catalog: seq<Product>, currentId: int): (r: seq<Product>)
    ensures |r| <= RelatedCount
    ensures GetProductById(catalog, currentId).None? ==> r == []
    ensures forall p :: p in r ==>
      p in catalog && p.id != currentId && p.category == GetProductById(catalog, currentId).value.category
    ensures IsSubsequence(r, catalog)
    ensures GetProductById(catalog, currentId).Some? ==>
      var related := Filter(catalog, RelatedTo(currentId, GetProductById(catalog, currentId).value.category));
      |r| <= |related| && r == related[..|r|]
    ensures GetProductById(catalog, currentId).Some? && |r| < RelatedCount ==>
      var category := GetProductById(catalog, currentId).value.category;
      forall p :: p in catalog && p.id != currentId && p.category == category ==> p in r
  {
    match GetProductById(catalog, currentId)
    case None => []
    case Some(current) => GetRelatedProducts(catalog, currentId, current.category)
  }

  // ---------------------------------------------------------------------------
  // Wishlist

  /** `addToWishlist`: the id is appended unless the list holds it already. */
  function WithWish(ids: seq<int>, id: int): seq<int> {
    if id in ids then ids else ids + [id]
  }

  predicate NoDuplicates(ids: seq<int>) {
    forall i, j :: 0 <= i < j < |ids| ==> ids[i] != ids[j]
  }

  /** After adding, the list holds the id and nothing else new; the earlier
      entries keep their places; at most one entry is added. */
  lemma WithWishMembers(ids: seq<int>, id: int)
    ensures forall x :: x in WithWish(ids, id) <==> x in ids || x == id
    ensures WithWish(ids, id)[..|ids|] == ids
    ensures |WithWish(ids, id)| == if id in ids then |ids| else |ids| + 1
  {
  }

  /** Adding the same id twice is adding it once. */
  lemma WithWishIdempotent(ids: seq<int>, id: int)
    ensures WithWish(WithWish(ids, id), id) == WithWish(ids, id)
  {
  }

  /** Adding never introduces a duplicate. */
  lemma WithWishKeepsNoDuplicates(ids: seq<int>, id: int)
    requires NoDuplicates(ids)
    ensures NoDuplicates(WithWish(ids, id))
  {
    if id !in ids {
      var r := ids + [id];
      forall i, j | 0 <= i < j < |r| ensures r[i] != r[j] {
        if j == |ids| {
          assert r[i] == ids[i];
        }
      }
    }
  }

  /** Adding a list of ids one at a time: every id ends up in the list, and a
      list without duplicates stays without them. */
  function WithWishes(ids: seq<int>, adds: seq<int>): seq<int>
    decreases |adds|
  {
    if adds == [] then ids else WithWishes(WithWish(ids, adds[0]), adds[1..])
  }

  lemma {:induction false} WithWishesSpec(ids: seq<int>, adds: seq<int>)
    ensures forall x :: x in WithWishes(ids, adds) <==> x in ids || x in adds
    ensures NoDuplicates(ids) ==> NoDuplicates(WithWishes(ids, adds))
    decreases |adds|
  {
    if adds != [] {
      WithWishMembers(ids, adds[0]);
      if NoDuplicates(ids) {
        WithWishKeepsNoDuplicates(ids, adds[0]);
      }
      WithWishesSpec(WithWish(ids, adds[0]), adds[1..]);
      assert forall x :: x in adds <==> x == adds[0] || x in adds[1..];
    }
  }

  /** The wishlist kept under its own storage key. */
  class Wishlist {
    var ids: seq<int>

    /** Reading the stored list, or an empty one when nothing is stored. */
    constructor (stored: Option<seq<int>>)
      ensures ids == if stored.Some? then stored.value else []
    {
      ids := if stored.Some? then stored.value else [];
    }

    /** `addToWishlist`: reports whether the id was new ("Added to wishlist!")
        or present already ("Already in wishlist!"). */
    method AddToWishlist(productId: int) returns (added: bool)
      modifies this
      ensures added <==> productId !in old(ids)
      ensures ids == WithWish(old(ids), productId)
      ensures productId in ids
      ensures NoDuplicates(old(ids)) ==> NoDuplicates(ids)
    {
      if NoDuplicates(ids) {
        WithWishKeepsNoDuplicates(ids, productId);
      }
      if productId !in ids {
        ids := ids + [productId];
        return true;
      }
      return false;
    }
  }

  // ---------------------------------------------------------------------------
  // Quantity stepper

  /** What the page writes into the quantity input's `max` attribute. */
  const InStockMax: int := 99
  const OutOfStockMax: int := 0

  /** The bound the increase button uses when the `max` attribute does not
      read as a number (`None`). */
  const FallbackMax: int := 99

  /** The increase handler's bound as written, `parseInt(max) || 99`: an
      attribute of 0 is falsy and is replaced by 99 like an unreadable one. */
  function StepperMaxAsWritten(maxAttr: Option<int>): int {
    if maxAttr.None? || maxAttr.value == 0 then FallbackMax else maxAttr.value
  }

  /** The bound the handler evidently means: the attribute itself, and 99
      only when it does not read as a number. */
  function StepperMax(maxAttr: Option<int>): int {
    if maxAttr.None? then FallbackMax else maxAttr.value
  }

  /** The decrease button: one less, as long as the value is above 1. */
  function Decreased(value: int): int {
    if value > 1 then value - 1 else value
  }

  /** The increase button as written. */
  function IncreasedAsWritten(value: int, maxAttr: Option<int>): int {
    if value < StepperMaxAsWritten(maxAttr) then value + 1 else value
  }

  /** The increase button with the intended bound. */
  function Increased(value: int, maxAttr: Option<int>): int {
    if value < StepperMax(maxAttr) then value + 1 else value
  }

  /** A click on one of the two stepper buttons. */
  datatype Click = Minus | Plus

  /** The input's value after a series of clicks. */
  function AfterClicks(value: int, maxAttr: Option<int>, clicks: seq<Click>): int
    decreases |clicks|
  {
    if clicks == [] then value
    else
      var next := if clicks[0] == Minus then Decreased(value) else Increased(value, maxAttr);
      AfterClicks(next, maxAttr, clicks[1..])
  }

  /** One click moves the value by at most one; the decrease button never
      takes it below 1 and the increase button never past the bound. */
  lemma StepBounds(value: int, maxAttr: Option<int>)
    ensures Decreased(value) == value - 1 <==> value > 1
    ensures Decreased(value) != value - 1 ==> Decreased(value) == value
    ensures value >= 1 ==> Decreased(value) >= 1
    ensures Increased(value, maxAttr) == value + 1 <==> value < StepperMax(maxAttr)
    ensures Increased(value, maxAttr) != value + 1 ==> Increased(value, maxAttr) == value
    ensures value <= StepperMax(maxAttr) ==> Increased(value, maxAttr) <= StepperMax(maxAttr)
  {
  }

  /** A value between 1 and the bound stays there whatever buttons are
      clicked. */
  lemma {:induction false} ClicksStayInRange(value: int, maxAttr: Option<int>, clicks: seq<Click>)
    requires 1 <= value <= StepperMax(maxAttr)
    ensures 1 <= AfterClicks(value, maxAttr, clicks) <= StepperMax(maxAttr)
    decreases |clicks|
  {
    if clicks != [] {
      StepBounds(value, maxAttr);
      var next := if clicks[0] == Minus then Decreased(value) else Increased(value, maxAttr);
      ClicksStayInRange(next, maxAttr, clicks[1..]);
    }
  }

  /** With the out-of-stock bound of 0 no click ever raises a non-negative
      value. */
  lemma {:induction false} OutOfStockNeverRises(value: int, clicks: seq<Click>)
    requires value >= 0
    ensures AfterClicks(value, Some(OutOfStockMax), clicks) <= value
    decreases |clicks|
  {
    if clicks != [] {
      var next := if clicks[0] == Minus then Decreased(value) else Increased(value, Some(OutOfStockMax));
      assert 0 <= next <= value;
      OutOfStockNeverRises(next, clicks[1..]);
    }
  }

  /** As written, the increase button of an out-of-stock product (whose
      `max` is 0) counts up to 99: from 1 it goes to 2, past the bound of 0. */
  lemma OutOfStockRisesAsWritten(value: int)
    requires 0 <= value < FallbackMax
    ensures StepperMaxAsWritten(Some(OutOfStockMax)) == FallbackMax
    ensures IncreasedAsWritten(value, Some(OutOfStockMax)) == value + 1
    ensures IncreasedAsWritten(value, Some(OutOfStockMax)) > OutOfStockMax
    ensures Increased(value, Some(OutOfStockMax)) == value
  {
  }

  /** The two bounds agree on every attribute except 0. */
  lemma StepperMaxAgreesExceptZero(maxAttr: Option<int>)
    ensures StepperMaxAsWritten(maxAttr) == StepperMax(maxAttr) <==> maxAttr != Some(0)
  {
  }

  /** The controls of the detail page that depend on the product shown. */
  class ProductDetails {
    /** The quantity input: its value, its `max` attribute (`None` while it
        is unset or unreadable) and whether it is disabled. */
    var quantity: int
    var maxAttr: Option<int>
    var quantityDisabled: bool
    /** Whether the add-to-cart and buy-now buttons are disabled. */
    var purchaseDisabled: bool

    /** The page as it arrives: the input holds `initial`, no bound is set and
        nothing is disabled. */
    constructor (initial: int)
      ensures quantity == initial && maxAttr == None
      ensures !quantityDisabled && !purchaseDisabled
    {
      quantity := initial;
      maxAttr := None;
      quantityDisabled := false;
      purchaseDisabled := false;
    }

    /** The stock-dependent part of `loadProductDetails`: an unknown id changes
        none of these controls; otherwise the bound is 99 for a product in
        stock and 0 for one out of stock, the input is disabled exactly when
        it is out of stock, and an out-of-stock product also disables the
        purchase buttons (an in-stock one leaves them as they were). */
    method LoadProductDetails(catalog: seq<Product>, productId: int) returns (found: bool)
      modifies this
      ensures found <==> GetProductById(catalog, productId).Some?
      ensures !found ==> maxAttr == old(maxAttr) && quantityDisabled == old(quantityDisabled)
      ensures !found ==> purchaseDisabled == old(purchaseDisabled)
      ensures found ==>
        var inStock := GetProductById(catalog, productId).value.inStock;
        maxAttr == Some(if inStock then InStockMax else OutOfStockMax) &&
        quantityDisabled == !inStock &&
        purchaseDisabled == (old(purchaseDisabled) || !inStock)
      ensures found ==> StepperMax(maxAttr) == if quantityDisabled then OutOfStockMax else InStockMax
      ensures quantity == old(quantity)
    {
      var product := GetProductById(catalog, productId);
      if product.None? {
        return false;
      }
      var p := product.value;
      maxAttr := Some(if p.inStock then InStockMax else OutOfStockMax);
      quantityDisabled := !p.inStock;
      if !p.inStock {
        purchaseDisabled := true;
      }
      return true;
    }

    /** The decrease button. */
    method Decrease()
      modifies this
      ensures quantity == Decreased(old(quantity))
      ensures old(quantity) >= 1 ==> quantity >= 1
      ensures maxAttr == old(maxAttr) && quantityDisabled == old(quantityDisabled)
      ensures purchaseDisabled == old(purchaseDisabled)
    {
      if quantity > 1 {
        quantity := quantity - 1;
      }
    }

    /** The increase button, with the intended bound. */
    method Increase()
      modifies this
      ensures quantity == Increased(old(quantity), maxAttr)
      ensures old(quantity) <= StepperMax(maxAttr) ==> quantity <= StepperMax(maxAttr)
      ensures maxAttr == old(maxAttr) && quantityDisabled == old(quantityDisabled)
      ensures purchaseDisabled == old(purchaseDisabled)
    {
      var max := StepperMax(maxAttr);
      if quantity < max {
        quantity := quantity + 1;
      }
    }

    /** The add-to-cart button (and the buy-now button, which then leaves for
        the cart page): the shown product is added with the input's quantity;
        a disabled button does nothing. */
    method AddToCartClicked(cart: Cart, productId: int)
      modifies cart
      ensures purchaseDisabled ==> cart.items == old(cart.items)
      ensures !purchaseDisabled ==> cart.items == Added(cart.catalog, old(cart.items), productId, quantity)
      ensures UniqueIds(old(cart.items)) ==> UniqueIds(cart.items)
    {
      if !purchaseDisabled {
        cart.AddToCart(productId, quantity);
      }
    }
  }
}
