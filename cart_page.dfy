/** The cart page: saving the cart for later and loading it back, clearing
    every line after confirmation, the discount-code check and the checkout
    button. */
module CartPage {
  import opened Wrappers
  import opened Seqs
  import opened Text
  import opened CartStore

  // ---------------------------------------------------------------------------
  // Saved carts

  /** A saved cart: an id taken from the clock, a copy of the lines, the
      moment of saving as an ISO 8601 string, and a display name. */
  datatype SavedCart = SavedCart(id: int, items: seq<LineItem>, date: string, name: string)

  const SavedCartPrefix: string := "Saved Cart "

  /** The name a saved cart gets when `count` carts are saved already:
      "Saved Cart " followed by `count + 1` in decimal. */
  function SavedCartName(count: nat): string {
    SavedCartPrefix + IntToDecimal(count + 1)
  }

  /** Different counts give different names. */
  lemma SavedCartNameInjective(a: nat, b: nat)
    requires SavedCartName(a) == SavedCartName(b)
    ensures a == b
  {
    var n := |SavedCartPrefix|;
    assert SavedCartName(a)[n..] == IntToDecimal(a + 1);
    assert SavedCartName(b)[n..] == IntToDecimal(b + 1);
    IntToDecimalInjective(a + 1, b + 1);
  }

  /** Every saved cart is named after its position: the k-th (from 0) is
      "Saved Cart k+1". Saving keeps this true as long as nothing else edits
      the stored list. */
  predicate NamedByPosition(saved: seq<SavedCart>) {
    forall k :: 0 <= k < |saved| ==> saved[k].name == SavedCartName(k)
  }

  /** `saveCartForLater`: nothing is saved from an empty cart; otherwise a
      record holding a copy of the lines is appended. */
  function WithSaved(saved: seq<SavedCart>, items: seq<LineItem>, now: int, isoDate: string): seq<SavedCart> {
    if items == [] then saved
    else saved + [SavedCart(now, items, isoDate, SavedCartName(|saved|))]
  }

  /** Saving a non-empty cart adds exactly one record, at the end: its id is
      the clock reading, its date the ISO string, its lines the cart's and
      its name "Saved Cart n+1" for a list of n records, whatever those
      records are named. In a position-named list no earlier record has that
      name, and the list stays position-named. */
  lemma WithSavedSpec(saved: seq<SavedCart>, items: seq<LineItem>, now: int, isoDate: string)
    ensures items == [] ==> WithSaved(saved, items, now, isoDate) == saved
    ensures items != [] ==>
      |WithSaved(saved, items, now, isoDate)| == |saved| + 1 &&
      WithSaved(saved, items, now, isoDate)[..|saved|] == saved &&
      WithSaved(saved, items, now, isoDate)[|saved|].items == items
    ensures items != [] ==>
      WithSaved(saved, items, now, isoDate)[|saved|] == SavedCart(now, items, isoDate, SavedCartName(|saved|))
    ensures NamedByPosition(saved) ==> NamedByPosition(WithSaved(saved, items, now, isoDate))
    ensures NamedByPosition(saved) && items != [] ==>
      forall k :: 0 <= k < |saved| ==> saved[k].name != WithSaved(saved, items, now, isoDate)[|saved|].name
  {
    if NamedByPosition(saved) && items != [] {
      forall k | 0 <= k < |saved|
        ensures saved[k].name != WithSaved(saved, items, now, isoDate)[|saved|].name
      {
        if saved[k].name == SavedCartName(|saved|) {
          SavedCartNameInjective(k, |saved|);
        }
      }
    }
  }

  /** In a position-named list no two saved carts share a name. */
  lemma NamedByPositionDistinct(saved: seq<SavedCart>)
    requires NamedByPosition(saved)
    ensures forall i, j :: 0 <= i < j < |saved| ==> saved[i].name != saved[j].name
  {
    forall i, j | 0 <= i < j < |saved| ensures saved[i].name != saved[j].name {
      if saved[i].name == saved[j].name {
        SavedCartNameInjective(i, j);
      }
    }
  }

  /** The first saved cart with this id (two carts saved within the same
      millisecond share one). */
  function FindSavedCart(saved: seq<SavedCart>, cartId: int): (r: Option<SavedCart>)
    ensures r.Some? ==> r.value in saved && r.value.id == cartId
    ensures r.Some? ==>
      exists i :: 0 <= i < |saved| && saved[i] == r.value && forall j :: 0 <= j < i ==> saved[j].id != cartId
    ensures r.None? <==> forall s :: s in saved ==> s.id != cartId
  {
    Find(saved, (s: SavedCart) => s.id == cartId)
  }

  /** `loadSavedCart`: the lines of the saved cart with this id, or the
      current lines when there is none. */
  function Loaded(saved: seq<SavedCart>, cartId: int, current: seq<LineItem>): seq<LineItem> {
    match FindSavedCart(saved, cartId)
    case Some(s) => s.items
    case None => current
  }

  /** Saving a non-empty cart and then loading it by its new id gives the
      same lines back, provided no earlier record has that id. */
  lemma SaveThenLoad(saved: seq<SavedCart>, items: seq<LineItem>, now: int, isoDate: string, current: seq<LineItem>)
    requires items != []
    requires forall s :: s in saved ==> s.id != now
    ensures Loaded(WithSaved(saved, items, now, isoDate), now, current) == items
  {
    var after := WithSaved(saved, items, now, isoDate);
    var r := FindSavedCart(after, now);
    assert after[|saved|] in after;
    var k :| 0 <= k < |after| && after[k] == r.value;
    assert k == |saved|;
  }

  /** An id no saved cart carries leaves the cart as it was. */
  lemma LoadUnknownKeeps(saved: seq<SavedCart>, cartId: int, current: seq<LineItem>)
    requires forall s :: s in saved ==> s.id != cartId
    ensures Loaded(saved, cartId, current) == current
  {
  }

  /** The saved-cart list kept under its own storage key. */
  class SavedCartStore {
    var savedCarts: seq<SavedCart>

    /** Reading the stored list, or an empty list when nothing is stored. */
    constructor (stored: Option<seq<SavedCart>>)
      ensures savedCarts == if stored.Some? then stored.value else []
    {
      savedCarts := if stored.Some? then stored.value else [];
    }

    /** `saveCartForLater`, with the clock's `Date.now()` and ISO date passed
        in; the cart itself is not changed. */
    method SaveCartForLater(cart: Cart, now: int, isoDate: string) returns (saved: bool)
      modifies this
      ensures saved <==> cart.items != []
      ensures savedCarts == WithSaved(old(savedCarts), cart.items, now, isoDate)
      ensures NamedByPosition(old(savedCarts)) ==> NamedByPosition(savedCarts)
    {
      WithSavedSpec(savedCarts, cart.items, now, isoDate);
      if cart.items == [] {
        return false;
      }
      var record := SavedCart(now, cart.items, isoDate, SavedCartName(|savedCarts|));
      savedCarts := savedCarts + [record];
      return true;
    }

    /** `loadSavedCart`: replaces the cart's lines with those of the saved
        cart with this id; reports whether there was one. */
    method LoadSavedCart(cart: Cart, cartId: int) returns (found: bool)
      modifies cart
      ensures found <==> FindSavedCart(savedCarts, cartId).Some?
      ensures cart.items == Loaded(savedCarts, cartId, old(cart.items))
    {
      var savedCart := FindSavedCart(savedCarts, cartId);
      if savedCart.Some? {
        cart.items := savedCart.value.items;
        return true;
      }
      return false;
    }
  }

  // ---------------------------------------------------------------------------
  // Clearing, checkout and the discount code

  /** `clearAllCartItems`, with the answer to the confirmation dialog passed
      in: an empty cart is left alone, a refusal changes nothing, and a
      confirmation empties the cart. */
  method ClearAllCartItems(cart: Cart, confirmed: bool) returns (cleared: bool)
    modifies cart
    ensures cleared <==> old(cart.items) != [] && confirmed
    ensures cleared ==> cart.items == []
    ensures !cleared ==> cart.items == old(cart.items)
  {
    if cart.items == [] {
      return false;
    }
    if confirmed {
      cart.ClearCart();
      return true;
    }
    return false;
  }

  /** The cart page's checkout button: refused on an empty cart, which stays
      as it was; otherwise the cart is emptied (after the page's delay). */
  method Checkout(cart: Cart) returns (accepted: bool)
    modifies cart
    ensures accepted <==> old(cart.items) != []
    ensures !accepted ==> cart.items == old(cart.items)
    ensures cart.items == []
  {
    if cart.items == [] {
      return false;
    }
    cart.ClearCart();
    return true;
  }

  /** The one code the page accepts. */
  const AcceptedCode: string := "SAVE10"

  /** What `applyDiscountCode` reports. */
  datatype DiscountOutcome = MissingCode | Applied | InvalidCode

  /** `applyDiscountCode`, given the text field's value (`None` when the page
      has no field): the value is trimmed; nothing left means no code was
      entered; "SAVE10", exactly and case-sensitively, is accepted; anything
      else is invalid. */
  function ApplyDiscountCode(field: Option<string>): (r: DiscountOutcome)
    ensures r == MissingCode <==> field.None? || IsBlank(field.value)
    ensures r == Applied <==> field.Some? && Trim(field.value) == AcceptedCode
  {
    var code := if field.Some? then Trim(field.value) else "";
    TrimEmptyIffBlank(if field.Some? then field.value else "");
    if code == "" then MissingCode
    else if code == AcceptedCode then Applied
    else InvalidCode
  }

  /** Whitespace around the accepted code does not matter. */
  lemma PaddedCodeApplies(before: string, after: string)
    requires IsBlank(before) && IsBlank(after)
    ensures ApplyDiscountCode(Some(before + AcceptedCode + after)) == Applied
  {
    TrimPadded(before, AcceptedCode, after);
  }
}
