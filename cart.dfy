/** The shopping cart: an ordered list of line items, at most one per product
    id, with the operations the storefront performs on it and the order
    summary computed from it. */
module CartStore {
  import opened Wrappers
  import opened Seqs
  import opened Catalog

  /** A cart line: the product's id, title, price and image as they were when
      the product was first added, and a quantity. */
  datatype LineItem = LineItem(id: int, title: string, price: real, image: string, quantity: int)

  /** The line appended for a product that is not in the cart yet. */
  function Snapshot(p: Product, quantity: int): LineItem {
    LineItem(p.id, p.title, p.price, p.image, quantity)
  }

  /** The cart's invariant: no two lines share a product id. */
  predicate UniqueIds(items: seq<LineItem>) {
    forall i, j :: 0 <= i < j < |items| ==> items[i].id != items[j].id
  }

  /** Every line has a quantity of at least one. */
  predicate AllPositive(items: seq<LineItem>) {
    forall i :: 0 <= i < |items| ==> items[i].quantity >= 1
  }

  // ---------------------------------------------------------------------------
  // Queries

  /** `isInCart`: some line carries this id. */
  predicate IsInCart(items: seq<LineItem>, id: int) {
    exists it :: it in items && it.id == id
  }

  /** The test both lookups search with: the line carries this id. */
  function HasId(id: int): LineItem -> bool {
    (it: LineItem) => it.id == id
  }

  /** The position of the first line with this id. */
  function IndexOfId(items: seq<LineItem>, id: int): (r: Option<nat>)
    ensures r.Some? ==> r.value < |items| && items[r.value].id == id
    ensures r.Some? ==> forall j :: 0 <= j < r.value ==> items[j].id != id
    ensures r.None? <==> !IsInCart(items, id)
  {
    FirstIndex(items, HasId(id))
  }

  /** `getCartItem`: the first line with this id; it exists exactly when
      `isInCart` holds. */
  function GetCartItem(items: seq<LineItem>, id: int): (r: Option<LineItem>)
    ensures r.Some? ==> r.value in items && r.value.id == id
    ensures r.Some? <==> IsInCart(items, id)
  {
    Find(items, HasId(id))
  }

  /** `getCartItem` finds the line at the position `IndexOfId` reports, the
      first line with the id. */
  lemma GetCartItemIsFirst(items: seq<LineItem>, id: int)
    requires IsInCart(items, id)
    ensures GetCartItem(items, id) == Some(items[IndexOfId(items, id).value])
  {
  }

  /** In a cart with unique ids, the line found is the only one with that id. */
  lemma GetCartItemUnique(items: seq<LineItem>, k: nat)
    requires UniqueIds(items) && k < |items|
    ensures GetCartItem(items, items[k].id) == Some(items[k])
  {
    var r := GetCartItem(items, items[k].id);
    assert items[k] in items;
    var j :| 0 <= j < |items| && items[j] == r.value;
    assert j == k;
  }

  /** The quantity of the line with this id, 0 when there is none. */
  function QuantityOf(items: seq<LineItem>, id: int): int {
    match GetCartItem(items, id)
    case Some(it) => it.quantity
    case None => 0
  }

  /** `getCartTotalItems`: the sum of the quantities, added up from the left
      like `reduce`. */
  function SumQuantities(items: seq<LineItem>): int
    decreases |items|
  {
    if items == [] then 0 else SumQuantities(items[..|items| - 1]) + items[|items| - 1].quantity
  }

  /** What one line costs: its snapshot price times its quantity. */
  function LineTotal(it: LineItem): real {
    Cost(it.price, it.quantity)
  }

  /** `quantity` units at `price` each. */
  function Cost(price: real, quantity: int): real {
    price * quantity as real
  }

  /** `getCartTotalPrice`: the sum of the line totals. */
  function SumPrices(items: seq<LineItem>): real
    decreases |items|
  {
    if items == [] then 0.0 else SumPrices(items[..|items| - 1]) + LineTotal(items[|items| - 1])
  }

  /** Both totals add up over a concatenation. */
  lemma {:induction false} SumsOfConcat(a: seq<LineItem>, b: seq<LineItem>)
    ensures SumQuantities(a + b) == SumQuantities(a) + SumQuantities(b)
    ensures SumPrices(a + b) == SumPrices(a) + SumPrices(b)
    decreases |b|
  {
    if b == [] {
      assert a + b == a;
    } else {
      var n := |b| - 1;
      assert (a + b)[..|a + b| - 1] == a + b[..n];
      SumsOfConcat(a, b[..n]);
    }
  }

  /** The totals of a single line. */
  lemma SumsOfSingleton(it: LineItem)
    ensures SumQuantities([it]) == it.quantity
    ensures SumPrices([it]) == LineTotal(it)
  {
    assert [it][..0] == [];
  }

  /** Replacing line `i` changes the totals by the difference of the two lines. */
  lemma SumsOfReplaced(items: seq<LineItem>, i: nat, x: LineItem)
    requires i < |items|
    ensures SumQuantities(items[i := x]) == SumQuantities(items) - items[i].quantity + x.quantity
    ensures SumPrices(items[i := x]) == SumPrices(items) - LineTotal(items[i]) + LineTotal(x)
  {
    var before, after := items[..i], items[i + 1..];
    assert items == before + [items[i]] + after;
    assert items[i := x] == before + [x] + after;
    SumsOfConcat(before + [items[i]], after);
    SumsOfConcat(before, [items[i]]);
    SumsOfConcat(before + [x], after);
    SumsOfConcat(before, [x]);
    SumsOfSingleton(items[i]);
    SumsOfSingleton(x);
  }

  /** With positive quantities the item count is at least the number of lines. */
  lemma {:induction false} SumQuantitiesAtLeastLines(items: seq<LineItem>)
    requires AllPositive(items)
    ensures SumQuantities(items) >= |items|
    decreases |items|
  {
    if items != [] {
      SumQuantitiesAtLeastLines(items[..|items| - 1]);
    }
  }

  // ---------------------------------------------------------------------------
  // Updates, as functions of the current lines

  /** `addToCart`: nothing happens for an id the catalog does not know; a line
      already in the cart (the first one with the id) gets `quantity` more;
      otherwise a snapshot of the product is appended (see `AddedCases`). */
  function Added(catalog: seq<Product>, items: seq<LineItem>, id: int, quantity: int): seq<LineItem> {
    match GetProductById(catalog, id)
    case None => items
    case Some(p) =>
      match IndexOfId(items, id)
      case Some(i) => items[i := items[i].(quantity := items[i].quantity + quantity)]
      case None => items + [Snapshot(p, quantity)]
  }

  /** The three outcomes of adding: an unknown id changes nothing; a new
      product gets one line appended at the end; a product already in the
      cart gets exactly one line, one with its id, raised by `quantity`, and
      every other line stays as it was. */
  lemma AddedCases(catalog: seq<Product>, items: seq<LineItem>, id: int, quantity: int)
    ensures GetProductById(catalog, id).None? ==> Added(catalog, items, id, quantity) == items
    ensures GetProductById(catalog, id).Some? && !IsInCart(items, id) ==>
      Added(catalog, items, id, quantity) == items + [Snapshot(GetProductById(catalog, id).value, quantity)]
    ensures GetProductById(catalog, id).Some? && IsInCart(items, id) ==>
      |Added(catalog, items, id, quantity)| == |items| &&
      exists i :: 0 <= i < |items| && items[i].id == id &&
        Added(catalog, items, id, quantity)[i] == items[i].(quantity := items[i].quantity + quantity) &&
        forall j :: 0 <= j < |items| && j != i ==> Added(catalog, items, id, quantity)[j] == items[j]
  {
    if GetProductById(catalog, id).Some? && IsInCart(items, id) {
      var i := IndexOfId(items, id).value;
      assert Added(catalog, items, id, quantity)[i] == items[i].(quantity := items[i].quantity + quantity);
    }
  }

  /** The test `removeFromCart` filters with: the line has another id. */
  function OtherId(id: int): LineItem -> bool {
    (it: LineItem) => it.id != id
  }

  /** `removeFromCart`: the lines with another id, in their original order. */
  function Removed(items: seq<LineItem>, id: int): seq<LineItem> {
    Filter(items, OtherId(id))
  }

  /** `updateCartItemQuantity`: nothing happens when no line has the id; a new
      quantity of zero or less removes the line; otherwise the first line with
      the id takes the new quantity (see `WithQuantityCases`). */
  function WithQuantity(items: seq<LineItem>, id: int, newQuantity: int): seq<LineItem> {
    match IndexOfId(items, id)
    case None => items
    case Some(i) =>
      if newQuantity <= 0 then Removed(items, id) else items[i := items[i].(quantity := newQuantity)]
  }

  /** The three outcomes of setting a quantity: an id not in the cart changes
      nothing; zero or less is a removal; otherwise exactly one line, one with
      the id, takes the new quantity and every other line stays as it was. */
  lemma WithQuantityCases(items: seq<LineItem>, id: int, newQuantity: int)
    ensures !IsInCart(items, id) ==> WithQuantity(items, id, newQuantity) == items
    ensures IsInCart(items, id) && newQuantity <= 0 ==> WithQuantity(items, id, newQuantity) == Removed(items, id)
    ensures IsInCart(items, id) && newQuantity > 0 ==>
      |WithQuantity(items, id, newQuantity)| == |items| &&
      exists i :: 0 <= i < |items| && items[i].id == id &&
        WithQuantity(items, id, newQuantity)[i] == items[i].(quantity := newQuantity) &&
        forall j :: 0 <= j < |items| && j != i ==> WithQuantity(items, id, newQuantity)[j] == items[j]
  {
    if IsInCart(items, id) && newQuantity > 0 {
      var i := IndexOfId(items, id).value;
      assert WithQuantity(items, id, newQuantity)[i] == items[i].(quantity := newQuantity);
    }
  }

  // ---------------------------------------------------------------------------
  // What the updates preserve and what they do to the totals

  /** Changing one line's quantity keeps the ids where they were. */
  lemma ReplacedQuantityKeepsUniqueIds(items: seq<LineItem>, i: nat, q: int)
    requires UniqueIds(items) && i < |items|
    ensures UniqueIds(items[i := items[i].(quantity := q)])
  {
  }

  /** Adding keeps at most one line per id. */
  lemma AddedKeepsUniqueIds(catalog: seq<Product>, items: seq<LineItem>, id: int, quantity: int)
    requires UniqueIds(items)
    ensures UniqueIds(Added(catalog, items, id, quantity))
  {
    var r := Added(catalog, items, id, quantity);
    if GetProductById(catalog, id).Some? && !IsInCart(items, id) {
      forall i, j | 0 <= i < j < |r| ensures r[i].id != r[j].id {
        if j == |items| {
          assert items[i] in items;
        }
      }
    }
  }

  /** Adding a positive quantity keeps every quantity positive. */
  lemma AddedKeepsPositive(catalog: seq<Product>, items: seq<LineItem>, id: int, quantity: int)
    requires AllPositive(items) && quantity >= 1
    ensures AllPositive(Added(catalog, items, id, quantity))
  {
  }

  /** Adding a known product raises its quantity by exactly `quantity`, and
      the quantity of every other id stays as it was. */
  lemma AddedQuantity(catalog: seq<Product>, items: seq<LineItem>, id: int, quantity: int, other: int)
    requires UniqueIds(items) && GetProductById(catalog, id).Some?
    ensures QuantityOf(Added(catalog, items, id, quantity), id) == QuantityOf(items, id) + quantity
    ensures other != id ==> QuantityOf(Added(catalog, items, id, quantity), other) == QuantityOf(items, other)
  {
    if IsInCart(items, id) {
      var i := IndexOfId(items, id).value;
      AddedToLine(catalog, items, id, quantity);
      GetCartItemUnique(items, i);
      SetLineQuantity(items, i, items[i].quantity + quantity, other);
    } else {
      AddedNewLine(catalog, items, id, quantity);
      AppendedQuantity(items, Snapshot(GetProductById(catalog, id).value, quantity), other);
    }
  }

  /** Giving line `i` a new quantity changes the quantity of its id and of no
      other id. */
  lemma SetLineQuantity(items: seq<LineItem>, i: nat, q: int, other: int)
    requires UniqueIds(items) && i < |items|
    ensures QuantityOf(items[i := items[i].(quantity := q)], items[i].id) == q
    ensures other != items[i].id ==>
      QuantityOf(items[i := items[i].(quantity := q)], other) == QuantityOf(items, other)
  {
    var r := items[i := items[i].(quantity := q)];
    ReplacedQuantityKeepsUniqueIds(items, i, q);
    GetCartItemUnique(r, i);
    if other != items[i].id {
      match IndexOfId(items, other)
      case Some(k) =>
        GetCartItemUnique(items, k);
        GetCartItemUnique(r, k);
      case None =>
        assert !IsInCart(r, other) by {
          forall it | it in r ensures it.id != other {
            var k :| 0 <= k < |r| && r[k] == it;
            assert items[k] in items;
          }
        }
    }
  }

  /** Appending a line for an id not in the cart gives that id the line's
      quantity and changes no other id's. */
  lemma AppendedQuantity(items: seq<LineItem>, line: LineItem, other: int)
    requires UniqueIds(items) && !IsInCart(items, line.id)
    ensures QuantityOf(items + [line], line.id) == line.quantity
    ensures other != line.id ==> QuantityOf(items + [line], other) == QuantityOf(items, other)
  {
    var r := items + [line];
    var n := |items|;
    assert UniqueIds(r) by {
      forall i, j | 0 <= i < j < |r| ensures r[i].id != r[j].id {
        if j == n {
          assert items[i] in items;
        }
      }
    }
    GetCartItemUnique(r, n);
    if other != line.id {
      match IndexOfId(items, other)
      case Some(k) =>
        GetCartItemUnique(items, k);
        GetCartItemUnique(r, k);
      case None =>
        assert !IsInCart(r, other) by {
          forall it | it in r ensures it.id != other {
            var k :| 0 <= k < |r| && r[k] == it;
            if k < n {
              assert items[k] in items;
            }
          }
        }
    }
  }

  /** Adding to the line at `i` adds `quantity` units at that line's price. */
  lemma IncrementLineTotals(items: seq<LineItem>, i: nat, quantity: int)
    requires i < |items|
    ensures SumQuantities(items[i := items[i].(quantity := items[i].quantity + quantity)]) ==
      SumQuantities(items) + quantity
    ensures SumPrices(items[i := items[i].(quantity := items[i].quantity + quantity)]) ==
      SumPrices(items) + Cost(items[i].price, quantity)
  {
    var line := items[i].(quantity := items[i].quantity + quantity);
    SumsOfReplaced(items, i, line);
    assert LineTotal(line) == LineTotal(items[i]) + Cost(items[i].price, quantity);
  }

  /** Appending a new line adds its quantity and its line total. */
  lemma NewLineTotals(items: seq<LineItem>, p: Product, quantity: int)
    ensures SumQuantities(items + [Snapshot(p, quantity)]) == SumQuantities(items) + quantity
    ensures SumPrices(items + [Snapshot(p, quantity)]) == SumPrices(items) + Cost(p.price, quantity)
  {
    SumsOfConcat(items, [Snapshot(p, quantity)]);
    SumsOfSingleton(Snapshot(p, quantity));
  }

  /** For a known product already in the cart, `Added` updates its first line. */
  lemma AddedToLine(catalog: seq<Product>, items: seq<LineItem>, id: int, quantity: int)
    requires GetProductById(catalog, id).Some? && IsInCart(items, id)
    ensures var i := IndexOfId(items, id).value;
      Added(catalog, items, id, quantity) == items[i := items[i].(quantity := items[i].quantity + quantity)]
  {
  }

  /** For a known product not yet in the cart, `Added` appends its snapshot. */
  lemma AddedNewLine(catalog: seq<Product>, items: seq<LineItem>, id: int, quantity: int)
    requires GetProductById(catalog, id).Some? && !IsInCart(items, id)
    ensures Added(catalog, items, id, quantity) == items + [Snapshot(GetProductById(catalog, id).value, quantity)]
  {
  }

  /** Adding more of a product already in the cart raises the item count by
      `quantity` and the total by `quantity` units at the price recorded in
      its line (not the catalog's current price). */
  lemma AddedExistingTotals(catalog: seq<Product>, items: seq<LineItem>, id: int, quantity: int)
    requires GetProductById(catalog, id).Some? && IsInCart(items, id)
    ensures SumQuantities(Added(catalog, items, id, quantity)) == SumQuantities(items) + quantity
    ensures SumPrices(Added(catalog, items, id, quantity)) ==
      SumPrices(items) + Cost(GetCartItem(items, id).value.price, quantity)
  {
    AddedToLine(catalog, items, id, quantity);
    IncrementLineTotals(items, IndexOfId(items, id).value, quantity);
    GetCartItemIsFirst(items, id);
  }

  /** Adding a product not yet in the cart raises the item count by
      `quantity` and the total by `quantity` units at the catalog price. */
  lemma AddedNewTotals(catalog: seq<Product>, items: seq<LineItem>, id: int, quantity: int)
    requires GetProductById(catalog, id).Some? && !IsInCart(items, id)
    ensures SumQuantities(Added(catalog, items, id, quantity)) == SumQuantities(items) + quantity
    ensures SumPrices(Added(catalog, items, id, quantity)) ==
      SumPrices(items) + Cost(GetProductById(catalog, id).value.price, quantity)
  {
    var p := GetProductById(catalog, id).value;
    AddedNewLine(catalog, items, id, quantity);
    NewLineTotals(items, p, quantity);
  }

  /** Filtering keeps at most one line per id. */
  lemma {:induction false} FilterKeepsUniqueIds(items: seq<LineItem>, p: LineItem -> bool)
    requires UniqueIds(items)
    ensures UniqueIds(Filter(items, p))
    decreases |items|
  {
    if items != [] {
      FilterKeepsUniqueIds(items[1..], p);
      FilterMembers(items[1..], p);
      var rest := Filter(items[1..], p);
      if p(items[0]) {
        var r := [items[0]] + rest;
        forall i, j | 0 <= i < j < |r| ensures r[i].id != r[j].id {
          if i == 0 {
            assert r[j] in rest;
            var k :| 0 <= k < |items[1..]| && items[1..][k] == r[j];
            assert items[k + 1] == r[j];
          } else {
            assert r[i] == rest[i - 1] && r[j] == rest[j - 1];
          }
        }
      }
    }
  }

  /** Removing an id leaves no line with it, keeps every other line in its
      order, changes nothing when the id is absent, and keeps ids unique. */
  lemma RemovedSpec(items: seq<LineItem>, id: int)
    ensures !IsInCart(Removed(items, id), id)
    ensures forall it :: it in Removed(items, id) <==> it in items && it.id != id
    ensures IsSubsequence(Removed(items, id), items)
    ensures !IsInCart(items, id) ==> Removed(items, id) == items
    ensures UniqueIds(items) ==> UniqueIds(Removed(items, id))
  {
    var p := OtherId(id);
    FilterMembers(items, p);
    FilterSubsequence(items, p);
    if !IsInCart(items, id) {
      forall k | 0 <= k < |items| ensures p(items[k]) {
        assert items[k] in items;
      }
      FilterAll(items, p);
    }
    if UniqueIds(items) {
      FilterKeepsUniqueIds(items, p);
    }
  }

  /** Removing the line at `i` of a cart with unique ids is cutting it out. */
  lemma RemovedIsCut(items: seq<LineItem>, i: nat)
    requires UniqueIds(items) && i < |items|
    ensures Removed(items, items[i].id) == items[..i] + items[i + 1..]
  {
    var p := OtherId(items[i].id);
    var before, after := items[..i], items[i + 1..];
    assert items == before + ([items[i]] + after);
    FilterConcat(before, [items[i]] + after, p);
    FilterConcat([items[i]], after, p);
    OtherLinesKept(items, i, 0, i);
    assert items[0..i] == before;
    OtherLinesKept(items, i, i + 1, |items|);
    assert items[i + 1..|items|] == after;
    assert Filter([items[i]], p) == [];
  }

  /** In a cart with unique ids, a stretch of lines that leaves out line `i`
      survives removing line `i`'s id. */
  lemma OtherLinesKept(items: seq<LineItem>, i: nat, lo: nat, hi: nat)
    requires UniqueIds(items) && i < |items|
    requires lo <= hi <= |items| && !(lo <= i < hi)
    ensures Filter(items[lo..hi], OtherId(items[i].id)) == items[lo..hi]
  {
    var part := items[lo..hi];
    forall k | 0 <= k < |part| ensures OtherId(items[i].id)(part[k]) {
      assert part[k] == items[lo + k];
    }
    FilterAll(part, OtherId(items[i].id));
  }

  /** Removing a line takes its quantity and its line total off the totals. */
  lemma RemovedTotals(items: seq<LineItem>, id: int)
    requires UniqueIds(items)
    ensures SumQuantities(Removed(items, id)) == SumQuantities(items) - QuantityOf(items, id)
    ensures SumPrices(Removed(items, id)) ==
      SumPrices(items) - if IsInCart(items, id) then LineTotal(GetCartItem(items, id).value) else 0.0
  {
    match IndexOfId(items, id)
    case None =>
      RemovedSpec(items, id);
    case Some(i) =>
      GetCartItemUnique(items, i);
      RemovedIsCut(items, i);
      var before, after := items[..i], items[i + 1..];
      assert items == before + [items[i]] + after;
      SumsOfConcat(before + [items[i]], after);
      SumsOfConcat(before, [items[i]]);
      SumsOfConcat(before, after);
      SumsOfSingleton(items[i]);
  }

  /** Setting a quantity keeps ids unique. */
  lemma WithQuantityKeepsUniqueIds(items: seq<LineItem>, id: int, newQuantity: int)
    requires UniqueIds(items)
    ensures UniqueIds(WithQuantity(items, id, newQuantity))
  {
    RemovedSpec(items, id);
  }

  /** Setting a quantity keeps every quantity positive, whatever the new value:
      a value below one removes the line instead. */
  lemma WithQuantityKeepsPositive(items: seq<LineItem>, id: int, newQuantity: int)
    requires AllPositive(items)
    ensures AllPositive(WithQuantity(items, id, newQuantity))
  {
    if IsInCart(items, id) && newQuantity <= 0 {
      RemovedSpec(items, id);
      var r := Removed(items, id);
      forall i | 0 <= i < |r| ensures r[i].quantity >= 1 {
        assert r[i] in items;
      }
    }
  }

  /** After setting a quantity, the line holds exactly the new value when it
      is positive and is gone otherwise; other ids keep their quantities. */
  lemma WithQuantityQuantity(items: seq<LineItem>, id: int, newQuantity: int, other: int)
    requires UniqueIds(items)
    ensures QuantityOf(WithQuantity(items, id, newQuantity), id) ==
      if IsInCart(items, id) && newQuantity > 0 then newQuantity else 0
    ensures other != id ==> QuantityOf(WithQuantity(items, id, newQuantity), other) == QuantityOf(items, other)
  {
    match IndexOfId(items, id)
    case None =>
    case Some(i) =>
      if newQuantity <= 0 {
        RemovedQuantity(items, id, other);
      } else {
        SetLineQuantity(items, i, newQuantity, other);
      }
  }

  /** Removing an id leaves it no quantity and changes no other id's. */
  lemma RemovedQuantity(items: seq<LineItem>, id: int, other: int)
    requires UniqueIds(items)
    ensures QuantityOf(Removed(items, id), id) == 0
    ensures other != id ==> QuantityOf(Removed(items, id), other) == QuantityOf(items, other)
  {
    var r := Removed(items, id);
    RemovedSpec(items, id);
    if other != id && IsInCart(items, other) {
      var k := IndexOfId(items, other).value;
      GetCartItemUnique(items, k);
      assert items[k] in r;
      var m :| 0 <= m < |r| && r[m] == items[k];
      GetCartItemUnique(r, m);
    }
  }

  /** The minus button asks for one less than the line's quantity; on a line
      holding one unit that removes the line. */
  lemma DecrementFromOneRemoves(items: seq<LineItem>, k: nat)
    requires UniqueIds(items) && k < |items| && items[k].quantity == 1
    ensures WithQuantity(items, items[k].id, items[k].quantity - 1) == Removed(items, items[k].id)
    ensures !IsInCart(WithQuantity(items, items[k].id, items[k].quantity - 1), items[k].id)
    ensures |WithQuantity(items, items[k].id, items[k].quantity - 1)| == |items| - 1
  {
    assert items[k] in items;
    RemovedSpec(items, items[k].id);
    RemovedIsCut(items, k);
  }

  /** Setting a positive quantity on a line moves the item count by the
      difference and the total price by the difference at the line's price. */
  lemma WithQuantityTotals(items: seq<LineItem>, id: int, newQuantity: int)
    requires IsInCart(items, id) && newQuantity > 0
    ensures SumQuantities(WithQuantity(items, id, newQuantity)) ==
      SumQuantities(items) - QuantityOf(items, id) + newQuantity
    ensures SumPrices(WithQuantity(items, id, newQuantity)) ==
      SumPrices(items) + Cost(GetCartItem(items, id).value.price, newQuantity - QuantityOf(items, id))
  {
    var i := IndexOfId(items, id).value;
    var delta := newQuantity - items[i].quantity;
    assert WithQuantity(items, id, newQuantity) == items[i := items[i].(quantity := items[i].quantity + delta)];
    IncrementLineTotals(items, i, delta);
    GetCartItemIsFirst(items, id);
  }

  /** Adding product 1 once and then twice more gives one line of three units
      at 99.99, 299.97 in all. */
  lemma AddTwiceExample()
    ensures Added(Products, Added(Products, [], 1, 1), 1, 2) == [Snapshot(P1, 3)]
    ensures SumQuantities(Added(Products, Added(Products, [], 1, 1), 1, 2)) == 3
    ensures SumPrices(Added(Products, Added(Products, [], 1, 1), 1, 2)) == 299.97
  {
    GetProductByIdIndexed(1);
    AddedNewLine(Products, [], 1, 1);
    assert Added(Products, [], 1, 1) == [Snapshot(P1, 1)];
    assert Snapshot(P1, 1) in [Snapshot(P1, 1)];
    AddedToLine(Products, [Snapshot(P1, 1)], 1, 2);
    assert IndexOfId([Snapshot(P1, 1)], 1) == Some(0);
    assert Added(Products, [Snapshot(P1, 1)], 1, 2) == [Snapshot(P1, 3)];
    SumsOfSingleton(Snapshot(P1, 3));
  }

  // ---------------------------------------------------------------------------
  // Order summary

  const FreeShippingOver: real := 50.0
  const FlatShipping: real := 9.99
  const TaxRate: real := 0.08

  /** The figures the cart page's summary shows. */
  datatype Summary = Summary(subtotal: real, shipping: real, tax: real, total: real)

  /** `updateCartSummary`: shipping is free above 50, 9.99 otherwise; tax is 8%
      of the subtotal; the total adds the three. */
  function CartSummary(subtotal: real): (s: Summary)
    ensures s.subtotal == subtotal
    ensures s.shipping == 0.0 <==> subtotal > FreeShippingOver
    ensures s.shipping == 0.0 || s.shipping == FlatShipping
    ensures s.total == s.subtotal + s.shipping + s.tax
    ensures s.total == subtotal * (1.0 + TaxRate) + (if subtotal > FreeShippingOver then 0.0 else FlatShipping)
    ensures subtotal >= 0.0 ==> s.tax >= 0.0 && s.total >= subtotal
  {
    var shipping := if subtotal > FreeShippingOver then 0.0 else FlatShipping;
    var tax := subtotal * TaxRate;
    Summary(subtotal, shipping, tax, subtotal + shipping + tax)
  }

  /** The summary arithmetic at the subtotal of an empty cart: the flat
      shipping charge and nothing else. (The cart page shows the empty-cart
      message instead and never computes this.) */
  lemma ZeroSubtotalSummary()
    ensures CartSummary(SumPrices([])) == Summary(0.0, FlatShipping, 0.0, FlatShipping)
  {
  }

  // ---------------------------------------------------------------------------
  // The cart as the page holds it

  /** The page's cart: a list of lines reassigned by every operation, and the
      catalog `addToCart` looks products up in. */
  class Cart {
    const catalog: seq<Product>
    var items: seq<LineItem>

    /** Loading from storage: the stored list, or an empty cart when nothing
        is stored; products are looked up in the sample catalog. */
    constructor (stored: Option<seq<LineItem>>)
      ensures catalog == Products
      ensures items == if stored.Some? then stored.value else []
    {
      catalog := Products;
      items := if stored.Some? then stored.value else [];
    }

    /** `addToCart`. */
    method AddToCart(productId: int, quantity: int)
      modifies this
      ensures items == Added(catalog, old(items), productId, quantity)
      ensures UniqueIds(old(items)) ==> UniqueIds(items)
      ensures AllPositive(old(items)) && quantity >= 1 ==> AllPositive(items)
    {
      if UniqueIds(items) {
        AddedKeepsUniqueIds(catalog, items, productId, quantity);
      }
      if AllPositive(items) && quantity >= 1 {
        AddedKeepsPositive(catalog, items, productId, quantity);
      }
      var product := GetProductById(catalog, productId);
      if product.None? {
        return;
      }
      var existing := IndexOfId(items, productId);
      if existing.Some? {
        AddedToLine(catalog, items, productId, quantity);
        var i := existing.value;
        items := items[i := items[i].(quantity := items[i].quantity + quantity)];
      } else {
        AddedNewLine(catalog, items, productId, quantity);
        items := items + [Snapshot(product.value, quantity)];
      }
    }

    /** `removeFromCart`. */
    method RemoveFromCart(productId: int)
      modifies this
      ensures items == Removed(old(items), productId)
      ensures UniqueIds(old(items)) ==> UniqueIds(items)
      ensures !IsInCart(items, productId)
    {
      RemovedSpec(items, productId);
      items := Removed(items, productId);
    }

    /** `updateCartItemQuantity` (and its alias `updateQuantity`). */
    method UpdateCartItemQuantity(productId: int, newQuantity: int)
      modifies this
      ensures items == WithQuantity(old(items), productId, newQuantity)
      ensures UniqueIds(old(items)) ==> UniqueIds(items)
      ensures AllPositive(old(items)) ==> AllPositive(items)
    {
      if UniqueIds(items) {
        WithQuantityKeepsUniqueIds(items, productId, newQuantity);
      }
      if AllPositive(items) {
        WithQuantityKeepsPositive(items, productId, newQuantity);
      }
      var found := IndexOfId(items, productId);
      if found.Some? {
        if newQuantity <= 0 {
          RemoveFromCart(productId);
        } else {
          var i := found.value;
          items := items[i := items[i].(quantity := newQuantity)];
        }
      }
    }

    /** `clearCart`: both totals drop to zero. */
    method ClearCart()
      modifies this
      ensures items == []
      ensures SumQuantities(items) == 0 && SumPrices(items) == 0.0
    {
      items := [];
    }

    /** `handleCheckout`: refused on an empty cart, which stays as it was;
        otherwise the cart is emptied (after the page's delay). */
    method HandleCheckout() returns (accepted: bool)
      modifies this
      ensures accepted <==> old(items) != []
      ensures !accepted ==> items == old(items)
      ensures items == []
    {
      if items == [] {
        return false;
      }
      ClearCart();
      return true;
    }
  }
}
