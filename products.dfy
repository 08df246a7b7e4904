/** The product catalog: the fixed sample data and the read-only queries
    over it (lookup, category filter, featured and related selections,
    sorting), plus the placeholder-image URL and the star-rating icons. */
module Catalog {
  import opened Wrappers
  import opened Seqs
  import Text

  /** A catalog entry; `price` and `rating` are exact decimals. */
  datatype Product = Product(
    id: int,
    title: string,
    price: real,
    image: string,
    category: string,
    description: string,
    rating: real,
    inStock: bool)

  // The twelve sample products.
  const P1 := Product(1, "Wireless Bluetooth Headphones", 99.99, "https://picsum.photos/seed/headphones/300/300",
    "Electronics", "High-quality wireless headphones with noise cancellation and 20-hour battery life.", 4.5, true)
  const P2 := Product(2, "Smart Fitness Watch", 149.99, "https://picsum.photos/seed/fitness-watch/300/300",
    "Electronics", "Track your fitness goals with this advanced smartwatch featuring heart rate monitoring and GPS.", 4.2, true)
  const P3 := Product(3, "Ceramic Coffee Mug Set", 29.99, "https://picsum.photos/seed/coffee-mug/300/300",
    "Home & Kitchen", "Set of 4 elegant ceramic mugs perfect for your morning coffee or tea.", 4.7, true)
  const P4 := Product(4, "Yoga Mat Premium", 39.99, "https://picsum.photos/seed/yoga-mat/300/300",
    "Sports & Outdoors", "Non-slip yoga mat with excellent cushioning for all your yoga and exercise routines.", 4.6, true)
  const P5 := Product(5, "Leather Wallet Brown", 49.99, "https://picsum.photos/seed/wallet/300/300",
    "Fashion", "Genuine leather wallet with multiple card slots and RFID protection.", 4.3, true)
  const P6 := Product(6, "LED Desk Lamp", 34.99, "https://picsum.photos/seed/desk-lamp/300/300",
    "Home & Kitchen", "Adjustable LED desk lamp with multiple brightness levels and USB charging port.", 4.4, true)
  const P7 := Product(7, "Wireless Mouse", 24.99, "https://picsum.photos/seed/mouse/300/300",
    "Electronics", "Ergonomic wireless mouse with precise tracking and long battery life.", 4.1, true)
  const P8 := Product(8, "Stainless Steel Water Bottle", 22.99, "https://picsum.photos/seed/water-bottle/300/300",
    "Sports & Outdoors", "Insulated water bottle that keeps drinks cold for 24 hours and hot for 12 hours.", 4.5, true)
  const P9 := Product(9, "Bluetooth Speaker", 79.99, "https://picsum.photos/seed/speaker/300/300",
    "Electronics", "Portable bluetooth speaker with 360-degree sound and 15-hour playtime.", 4.3, true)
  const P10 := Product(10, "Cooking Set 10-Piece", 89.99, "https://picsum.photos/seed/cooking-set/300/300",
    "Home & Kitchen", "Complete cooking set with non-stick pans and utensils for the modern kitchen.", 4.6, true)
  const P11 := Product(11, "Running Shoes Men", 119.99, "https://picsum.photos/seed/running-shoes/300/300",
    "Sports & Outdoors", "Lightweight running shoes with excellent cushioning and breathability.", 4.4, true)
  const P12 := Product(12, "Sunglasses Polarized", 59.99, "https://picsum.photos/seed/sunglasses/300/300",
    "Fashion", "UV400 polarized sunglasses with stylish design and scratch-resistant lenses.", 4.2, true)

  /** The catalog, in catalog order. */
  const Products: seq<Product> := [P1, P2, P3, P4, P5, P6, P7, P8, P9, P10, P11, P12]

  /** The ids of a product list, in order. */
  function Ids(s: seq<Product>): (r: seq<int>)
    ensures |r| == |s| && forall i :: 0 <= i < |s| ==> r[i] == s[i].id
  {
    seq(|s|, i requires 0 <= i < |s| => s[i].id)
  }

  /** No two products of the list share an id. */
  predicate DistinctIds(catalog: seq<Product>) {
    forall i, j :: 0 <= i < j < |catalog| ==> catalog[i].id != catalog[j].id
  }

  /** The sample data numbers its products 1, 2, ..., 12 in catalog order. */
  lemma CatalogIdsAreIndexes()
    ensures |Products| == 12
    ensures forall i :: 0 <= i < |Products| ==> Products[i].id == i + 1
  {
    assert Ids(Products) == [1, 2, 3, 4, 5, 6, 7, 8, 9, 10, 11, 12];
  }

  /** No two sample products share an id. */
  lemma CatalogIdsDistinct()
    ensures DistinctIds(Products)
  {
    CatalogIdsAreIndexes();
  }

  // ---------------------------------------------------------------------------
  // Lookup (every query takes the product list it reads, `products` in the
  // storefront, as its first argument)

  /** `getProductById`: the first catalog product with this id. */
  function GetProductById(catalog: seq<Product>, id: int): (r: Option<Product>)
    ensures r.Some? ==> r.value in catalog && r.value.id == id
    ensures r.None? <==> forall p :: p in catalog ==> p.id != id
  {
    Find(catalog, (p: Product) => p.id == id)
  }

  /** With distinct ids the product found is the only one with that id. */
  lemma GetProductByIdUnique(catalog: seq<Product>, id: int, k: nat)
    requires DistinctIds(catalog)
    requires k < |catalog| && catalog[k].id == id
    ensures GetProductById(catalog, id) == Some(catalog[k])
  {
    var r := GetProductById(catalog, id);
    assert catalog[k] in catalog;
    var j :| 0 <= j < |catalog| && catalog[j] == r.value;
    assert j == k;
  }

  /** On the sample data, lookup finds exactly the ids 1..12, each at its own
      catalog position. */
  lemma GetProductByIdIndexed(id: int)
    ensures GetProductById(Products, id) == if 1 <= id <= 12 then Some(Products[id - 1]) else None
  {
    CatalogIdsAreIndexes();
    if 1 <= id <= 12 {
      CatalogIdsDistinct();
      GetProductByIdUnique(Products, id, id - 1);
    } else {
      forall p | p in Products ensures p.id != id {
        var k :| 0 <= k < |Products| && Products[k] == p;
      }
    }
  }

  // ---------------------------------------------------------------------------
  // Category, featured and related selections

  /** `getProductsByCategory`: the products of one category, in catalog order
      (exact, case-sensitive comparison). */
  function GetProductsByCategory(catalog: seq<Product>, category: string): (r: seq<Product>)
    ensures forall p :: p in r <==> p in catalog && p.category == category
    ensures IsSubsequence(r, catalog)
  {
    FilterSpec(catalog, (p: Product) => p.category == category);
    Filter(catalog, (p: Product) => p.category == category)
  }

  const FeaturedMinRating: real := 4.3
  const FeaturedCount: nat := 6
  const RelatedCount: nat := 4

  predicate IsRelated(p: Product, currentId: int, category: string) {
    p.id != currentId && p.category == category
  }

  /** The test `getRelatedProducts` filters with. */
  function RelatedTo(currentId: int, category: string): Product -> bool {
    (p: Product) => IsRelated(p, currentId, category)
  }

  /** `getRelatedProducts`: the first four (or fewer) other products of the
      same category, in catalog order (no ranking). */
  function GetRelatedProducts(catalog: seq<Product>, currentId: int, category: string): (r: seq<Product>)
    ensures |r| <= RelatedCount
    ensures forall p :: p in r ==> p in catalog && p.id != currentId && p.category == category
    ensures IsSubsequence(r, catalog)
    ensures |r| < RelatedCount ==>
      forall p :: p in catalog && p.id != currentId && p.category == category ==> p in r
    ensures |r| <= |Filter(catalog, RelatedTo(currentId, category))|
    ensures r == Filter(catalog, RelatedTo(currentId, category))[..|r|]
  {
    var matching := Filter(catalog, RelatedTo(currentId, category));
    FilterSpec(catalog, RelatedTo(currentId, category));
    var r := Take(matching, RelatedCount);
    assert forall p :: p in r ==> p in matching;
    PrefixOfSubsequence(matching, catalog, |r|);
    r
  }

  // ---------------------------------------------------------------------------
  // Sorting

  /** The comparators the catalog sorts with. */
  datatype Order = NameAsc | NameDesc | PriceAsc | PriceDesc | RatingDesc

  /** `a` goes strictly before `b` under `o`: the comparator returns a negative number. */
  predicate Precedes(o: Order, a: Product, b: Product) {
    match o
    case NameAsc => Text.LexLess(a.title, b.title)
    case NameDesc => Text.LexLess(b.title, a.title)
    case PriceAsc => a.price < b.price
    case PriceDesc => b.price < a.price
    case RatingDesc => b.rating < a.rating
  }

  lemma LexNotLessTransitive(a: string, b: string, c: string)
    requires !Text.LexLess(a, b) && !Text.LexLess(b, c)
    ensures !Text.LexLess(a, c)
  {
    if a != b { Text.LexLessTotal(a, b); }
    if b != c { Text.LexLessTotal(b, c); }
    if a != b && b != c { Text.LexLessTransitive(c, b, a); }
    if Text.LexLess(a, c) {
      if a == b || b == c {
      } else {
        Text.LexLessTransitive(a, c, a);
        Text.LexLessIrreflexive(a);
      }
    }
  }

  /** Every comparator is a strict weak order, which is what a stable sort needs. */
  lemma PrecedesIsStrictWeakOrder(o: Order, a: Product, b: Product, c: Product)
    ensures !Precedes(o, a, a)
    ensures Precedes(o, a, b) ==> !Precedes(o, b, a)
    ensures !Precedes(o, a, b) && !Precedes(o, b, c) ==> !Precedes(o, a, c)
  {
    match o
    case NameAsc =>
      Text.LexLessIrreflexive(a.title);
      if Precedes(o, a, b) && Precedes(o, b, a) {
        Text.LexLessTransitive(a.title, b.title, a.title);
        Text.LexLessIrreflexive(a.title);
      }
      if !Precedes(o, a, b) && !Precedes(o, b, c) { LexNotLessTransitive(a.title, b.title, c.title); }
    case NameDesc =>
      Text.LexLessIrreflexive(a.title);
      if Precedes(o, a, b) && Precedes(o, b, a) {
        Text.LexLessTransitive(a.title, b.title, a.title);
        Text.LexLessIrreflexive(a.title);
      }
      if !Precedes(o, a, b) && !Precedes(o, b, c) { LexNotLessTransitive(c.title, b.title, a.title); }
    case _ =>
  }

  /** No element is strictly preceded by a later one. */
  predicate Sorted(o: Order, s: seq<Product>) {
    forall i, j :: 0 <= i < j < |s| ==> !Precedes(o, s[j], s[i])
  }

  /** Inserts `x` after every leading element that strictly precedes it. */
  function Insert(o: Order, x: Product, s: seq<Product>): seq<Product>
    decreases |s|
  {
    if s == [] || !Precedes(o, s[0], x) then [x] + s else [s[0]] + Insert(o, x, s[1..])
  }

  /** Stable insertion sort under `o`: the model of `Array.prototype.sort` with
      that comparator (stable since ECMAScript 2019). Each element is inserted
      in front of the elements that do not strictly precede it, so equal
      elements keep their input order. */
  function Sort(o: Order, s: seq<Product>): seq<Product>
    decreases |s|
  {
    if s == [] then [] else Insert(o, s[0], Sort(o, s[1..]))
  }

  /** Where an insertion lands: after the leading run of elements that
      strictly precede `x`. */
  lemma {:induction false} InsertAfterPrefix(o: Order, x: Product, before: seq<Product>, after: seq<Product>)
    requires forall y :: y in before ==> Precedes(o, y, x)
    requires after == [] || !Precedes(o, after[0], x)
    ensures Insert(o, x, before + after) == before + [x] + after
    decreases |before|
  {
    if before != [] {
      assert (before + after)[1..] == before[1..] + after;
      InsertAfterPrefix(o, x, before[1..], after);
    }
  }

  lemma {:induction false} InsertPermutes(o: Order, x: Product, s: seq<Product>)
    ensures multiset(Insert(o, x, s)) == multiset(s) + multiset{x}
    decreases |s|
  {
    if s != [] && Precedes(o, s[0], x) {
      InsertPermutes(o, x, s[1..]);
      assert s == [s[0]] + s[1..];
    }
  }

  lemma {:induction false} InsertSorted(o: Order, x: Product, s: seq<Product>)
    requires Sorted(o, s)
    ensures Sorted(o, Insert(o, x, s))
    decreases |s|
  {
    if s == [] || !Precedes(o, s[0], x) {
      forall j | 0 <= j < |s| ensures !Precedes(o, s[j], x) {
        if j > 0 { PrecedesIsStrictWeakOrder(o, s[j], s[0], x); }
      }
      SortedCons(o, x, s);
    } else {
      InsertSorted(o, x, s[1..]);
      InsertKeepsHeadFirst(o, x, s);
      SortedCons(o, s[0], Insert(o, x, s[1..]));
    }
  }

  /** A sorted list stays sorted under a new head that nothing in it precedes. */
  lemma SortedCons(o: Order, h: Product, rest: seq<Product>)
    requires Sorted(o, rest)
    requires forall j :: 0 <= j < |rest| ==> !Precedes(o, rest[j], h)
    ensures Sorted(o, [h] + rest)
  {
    var r := [h] + rest;
    forall i, j | 0 <= i < j < |r| ensures !Precedes(o, r[j], r[i]) {
      assert r[j] == rest[j - 1];
      if i > 0 {
        assert r[i] == rest[i - 1];
      }
    }
  }

  /** When `x` goes after the head of a sorted list, nothing in what follows
      the head precedes it. */
  lemma InsertKeepsHeadFirst(o: Order, x: Product, s: seq<Product>)
    requires Sorted(o, s) && s != [] && Precedes(o, s[0], x)
    ensures forall j :: 0 <= j < |Insert(o, x, s[1..])| ==> !Precedes(o, Insert(o, x, s[1..])[j], s[0])
  {
    var rest := Insert(o, x, s[1..]);
    InsertPermutes(o, x, s[1..]);
    forall j | 0 <= j < |rest| ensures !Precedes(o, rest[j], s[0]) {
      assert rest[j] in multiset(rest);
      if rest[j] == x {
        PrecedesIsStrictWeakOrder(o, s[0], x, x);
      } else {
        assert rest[j] in multiset(s[1..]);
        var k :| 0 <= k < |s[1..]| && s[1..][k] == rest[j];
        assert s[k + 1] == rest[j];
      }
    }
  }

  /** The sorted list is ordered under `o` and a permutation of the input. */
  lemma {:induction false} SortSortsAndPermutes(o: Order, s: seq<Product>)
    ensures Sorted(o, Sort(o, s))
    ensures multiset(Sort(o, s)) == multiset(s)
    decreases |s|
  {
    if s != [] {
      SortSortsAndPermutes(o, s[1..]);
      InsertSorted(o, s[0], Sort(o, s[1..]));
      InsertPermutes(o, s[0], Sort(o, s[1..]));
      assert s == [s[0]] + s[1..];
    }
  }

  /** `a` and `b` are tied under `o`: neither goes strictly before the other. */
  predicate Tied(o: Order, a: Product, b: Product) {
    !Precedes(o, a, b) && !Precedes(o, b, a)
  }

  /** The products tied with `x` under `o`. */
  function TiedWith(o: Order, x: Product): Product -> bool {
    (y: Product) => Tied(o, x, y)
  }

  /** Ranking by rating ties exactly the equally rated products. */
  lemma TiedByRating(x: Product, y: Product)
    ensures TiedWith(RatingDesc, x)(y) <==> y.rating == x.rating
  {
  }

  /** Inserting `h` places it after every element tied with it that was there
      already: among the elements tied with `x`, `h` comes first. */
  lemma {:induction false} InsertStable(o: Order, h: Product, s: seq<Product>, x: Product)
    ensures Filter(Insert(o, h, s), TiedWith(o, x)) ==
      if Tied(o, x, h) then [h] + Filter(s, TiedWith(o, x)) else Filter(s, TiedWith(o, x))
    decreases |s|
  {
    var t := TiedWith(o, x);
    if s == [] || !Precedes(o, s[0], h) {
      FilterCons(h, s, t);
    } else {
      InsertStable(o, h, s[1..], x);
      FilterCons(s[0], Insert(o, h, s[1..]), t);
      assert s == [s[0]] + s[1..];
      FilterCons(s[0], s[1..], t);
      if Tied(o, x, h) && Tied(o, x, s[0]) {
        PrecedesIsStrictWeakOrder(o, s[0], x, h);
      }
    }
  }

  /** The sort is stable: the products tied with any `x` come out in the
      order they went in. */
  lemma {:induction false} SortIsStable(o: Order, s: seq<Product>, x: Product)
    ensures Filter(Sort(o, s), TiedWith(o, x)) == Filter(s, TiedWith(o, x))
    decreases |s|
  {
    if s != [] {
      SortIsStable(o, s[1..], x);
      InsertStable(o, s[0], Sort(o, s[1..]), x);
      assert s == [s[0]] + s[1..];
      FilterCons(s[0], s[1..], TiedWith(o, x));
    }
  }

  /** Where code-point order and locale collation part ways on the sample
      titles: "LED Desk Lamp" goes before "Leather Wallet Brown" because 'E'
      is below 'e', while a case-insensitive first comparison puts "Leather"
      first. */
  lemma LedBeforeLeatherByCodePoint()
    ensures Precedes(NameAsc, P6, P5)
  {
    assert P6.title[1..][0] == 'E' && P5.title[1..][0] == 'e';
  }

  /** The sort keys `sortProducts` recognises. */
  function OrderOf(sortBy: string): Option<Order> {
    if sortBy == "name-asc" then Some(NameAsc)
    else if sortBy == "name-desc" then Some(NameDesc)
    else if sortBy == "price-asc" then Some(PriceAsc)
    else if sortBy == "price-desc" then Some(PriceDesc)
    else None
  }

  /** `sortProducts`: a sorted copy for a known key, the input itself
      otherwise (see `SortProductsSpec`). */
  function SortProducts(products: seq<Product>, sortBy: string): seq<Product> {
    match OrderOf(sortBy)
    case Some(o) => Sort(o, products)
    case None => products
  }

  /** A known key gives a sorted permutation of the input; any other string
      leaves the list as it was. */
  lemma SortProductsSpec(products: seq<Product>, sortBy: string)
    ensures OrderOf(sortBy).Some? ==>
      Sorted(OrderOf(sortBy).value, SortProducts(products, sortBy)) &&
      multiset(SortProducts(products, sortBy)) == multiset(products)
    ensures OrderOf(sortBy).None? ==> SortProducts(products, sortBy) == products
  {
    if OrderOf(sortBy).Some? {
      SortSortsAndPermutes(OrderOf(sortBy).value, products);
    }
  }

  predicate IsHighlyRated(p: Product) {
    p.rating >= FeaturedMinRating
  }

  /** `getFeaturedProducts`: the catalog products rated at least 4.3, best rated
      first, at most six of them. */
  function GetFeaturedProducts(catalog: seq<Product>): (r: seq<Product>)
    ensures |r| <= FeaturedCount
    ensures forall p :: p in r ==> p in catalog && p.rating >= FeaturedMinRating
    ensures forall i, j :: 0 <= i < j < |r| ==> r[i].rating >= r[j].rating
    ensures forall p, q :: p in catalog && p.rating >= FeaturedMinRating && p !in r && q in r ==> p.rating <= q.rating
    ensures |r| < FeaturedCount ==> forall p :: p in catalog && p.rating >= FeaturedMinRating ==> p in r
    ensures multiset(r) <= multiset(Filter(catalog, IsHighlyRated))
  {
    var candidates := Filter(catalog, IsHighlyRated);
    FilterMembers(catalog, IsHighlyRated);
    assert FeaturedRanking(catalog) == Take(Sort(RatingDesc, candidates), FeaturedCount);
    assert forall p :: p in candidates <==> p in catalog && IsHighlyRated(p);
    var ranked := Sort(RatingDesc, candidates);
    SortSortsAndPermutes(RatingDesc, candidates);
    SameMembers(ranked, candidates);
    var r := Take(ranked, FeaturedCount);
    assert forall p :: p in r ==> p in ranked;
    SortedPrefix(RatingDesc, ranked, |r|);
    PrefixMultiset(ranked, |r|);
    FeaturedRanking(catalog)
  }

  /** The computation behind `GetFeaturedProducts`: filter, rank, keep six. */
  function FeaturedRanking(catalog: seq<Product>): seq<Product> {
    Take(Sort(RatingDesc, Filter(catalog, IsHighlyRated)), FeaturedCount)
  }

  /** Among equally rated products the featured list keeps catalog order: the
      featured products tied with `x` (rated like it, see `TiedByRating`) are
      the first ones, in catalog order, of the highly rated products tied
      with `x`. */
  lemma FeaturedTiesKeepCatalogOrder(catalog: seq<Product>, x: Product)
    ensures |Filter(GetFeaturedProducts(catalog), TiedWith(RatingDesc, x))| <=
      |Filter(Filter(catalog, IsHighlyRated), TiedWith(RatingDesc, x))|
    ensures Filter(GetFeaturedProducts(catalog), TiedWith(RatingDesc, x)) ==
      Filter(Filter(catalog, IsHighlyRated), TiedWith(RatingDesc, x))
        [..|Filter(GetFeaturedProducts(catalog), TiedWith(RatingDesc, x))|]
  {
    var t := TiedWith(RatingDesc, x);
    var candidates := Filter(catalog, IsHighlyRated);
    var ranked := Sort(RatingDesc, candidates);
    var r := GetFeaturedProducts(catalog);
    assert r == ranked[..|r|];
    FilterOfPrefix(ranked, |r|, t);
    SortIsStable(RatingDesc, candidates, x);
  }

  lemma SameMembers(a: seq<Product>, b: seq<Product>)
    requires multiset(a) == multiset(b)
    ensures forall p :: p in a <==> p in b
  {
    forall p ensures p in a <==> p in b {
      assert p in a <==> p in multiset(a);
    }
  }

  /** A prefix of a sorted list is sorted, and nothing left out of it strictly
      precedes anything kept. */
  lemma SortedPrefix(o: Order, s: seq<Product>, n: nat)
    requires Sorted(o, s) && n <= |s|
    ensures Sorted(o, s[..n])
    ensures forall p, q :: p in s && p !in s[..n] && q in s[..n] ==> !Precedes(o, p, q)
  {
    forall p, q | p in s && p !in s[..n] && q in s[..n] ensures !Precedes(o, p, q) {
      var i :| 0 <= i < |s| && s[i] == p;
      var j :| 0 <= j < n && s[..n][j] == q;
      assert s[j] == q;
    }
  }

  /** One insertion-sort step: sorting `[x] + rest` inserts `x` into the
      sorted `rest` after the elements that strictly precede it. */
  lemma SortStep(o: Order, x: Product, rest: seq<Product>, before: seq<Product>, after: seq<Product>)
    requires Sort(o, rest) == before + after
    requires forall y :: y in before ==> Precedes(o, y, x)
    requires after == [] || !Precedes(o, after[0], x)
    ensures Sort(o, [x] + rest) == before + [x] + after
  {
    assert ([x] + rest)[1..] == rest;
    InsertAfterPrefix(o, x, before, after);
  }

  // The sample-data results below are evaluated one element at a time:
  // each `...OfLastN` lemma gives the result for the last N sample products
  // (or candidates), building on the one before it.

  lemma HighlyRatedOfLast1()
    ensures Filter([P12], IsHighlyRated) == []
  {
    FilterCons(P12, [], IsHighlyRated);
  }

  lemma HighlyRatedOfLast2()
    ensures Filter([P11, P12], IsHighlyRated) == [P11]
  {
    HighlyRatedOfLast1();
    FilterCons(P11, [P12], IsHighlyRated);
  }

  lemma HighlyRatedOfLast3()
    ensures Filter([P10, P11, P12], IsHighlyRated) == [P10, P11]
  {
    HighlyRatedOfLast2();
    FilterCons(P10, [P11, P12], IsHighlyRated);
  }

  lemma HighlyRatedOfLast4()
    ensures Filter([P9, P10, P11, P12], IsHighlyRated) == [P9, P10, P11]
  {
    HighlyRatedOfLast3();
    FilterCons(P9, [P10, P11, P12], IsHighlyRated);
  }

  lemma HighlyRatedOfLast5()
    ensures Filter([P8, P9, P10, P11, P12], IsHighlyRated) == [P8, P9, P10, P11]
  {
    HighlyRatedOfLast4();
    FilterCons(P8, [P9, P10, P11, P12], IsHighlyRated);
  }

  lemma HighlyRatedOfLast6()
    ensures Filter([P7, P8, P9, P10, P11, P12], IsHighlyRated) == [P8, P9, P10, P11]
  {
    HighlyRatedOfLast5();
    FilterCons(P7, [P8, P9, P10, P11, P12], IsHighlyRated);
  }

  lemma HighlyRatedOfLast7()
    ensures Filter([P6, P7, P8, P9, P10, P11, P12], IsHighlyRated) == [P6, P8, P9, P10, P11]
  {
    HighlyRatedOfLast6();
    FilterCons(P6, [P7, P8, P9, P10, P11, P12], IsHighlyRated);
  }

  lemma HighlyRatedOfLast8()
    ensures Filter([P5, P6, P7, P8, P9, P10, P11, P12], IsHighlyRated) == [P5, P6, P8, P9, P10, P11]
  {
    HighlyRatedOfLast7();
    FilterCons(P5, [P6, P7, P8, P9, P10, P11, P12], IsHighlyRated);
  }

  lemma HighlyRatedOfLast9()
    ensures Filter([P4, P5, P6, P7, P8, P9, P10, P11, P12], IsHighlyRated) == [P4, P5, P6, P8, P9, P10, P11]
  {
    HighlyRatedOfLast8();
    FilterCons(P4, [P5, P6, P7, P8, P9, P10, P11, P12], IsHighlyRated);
  }

  lemma HighlyRatedOfLast10()
    ensures Filter([P3, P4, P5, P6, P7, P8, P9, P10, P11, P12], IsHighlyRated) == [P3, P4, P5, P6, P8, P9, P10, P11]
  {
    HighlyRatedOfLast9();
    FilterCons(P3, [P4, P5, P6, P7, P8, P9, P10, P11, P12], IsHighlyRated);
  }

  lemma HighlyRatedOfLast11()
    ensures Filter([P2, P3, P4, P5, P6, P7, P8, P9, P10, P11, P12], IsHighlyRated) == [P3, P4, P5, P6, P8, P9, P10, P11]
  {
    HighlyRatedOfLast10();
    FilterCons(P2, [P3, P4, P5, P6, P7, P8, P9, P10, P11, P12], IsHighlyRated);
  }

  lemma HighlyRatedOfLast12()
    ensures Filter([P1, P2, P3, P4, P5, P6, P7, P8, P9, P10, P11, P12], IsHighlyRated) == [P1, P3, P4, P5, P6, P8, P9, P10, P11]
  {
    HighlyRatedOfLast11();
    FilterCons(P1, [P2, P3, P4, P5, P6, P7, P8, P9, P10, P11, P12], IsHighlyRated);
  }

  lemma RatingDescSortOfLast1()
    ensures Sort(RatingDesc, [P11]) == [P11]
  {
    SortStep(RatingDesc, P11, [], [], []);
  }

  lemma RatingDescSortOfLast2()
    ensures Sort(RatingDesc, [P10, P11]) == [P10, P11]
  {
    RatingDescSortOfLast1();
    SortStep(RatingDesc, P10, [P11], [], [P11]);
  }

  lemma RatingDescSortOfLast3()
    ensures Sort(RatingDesc, [P9, P10, P11]) == [P10, P11, P9]
  {
    RatingDescSortOfLast2();
    SortStep(RatingDesc, P9, [P10, P11], [P10, P11], []);
  }

  lemma RatingDescSortOfLast4()
    ensures Sort(RatingDesc, [P8, P9, P10, P11]) == [P10, P8, P11, P9]
  {
    RatingDescSortOfLast3();
    SortStep(RatingDesc, P8, [P9, P10, P11], [P10], [P11, P9]);
  }

  lemma RatingDescSortOfLast5()
    ensures Sort(RatingDesc, [P6, P8, P9, P10, P11]) == [P10, P8, P6, P11, P9]
  {
    RatingDescSortOfLast4();
    SortStep(RatingDesc, P6, [P8, P9, P10, P11], [P10, P8], [P11, P9]);
  }

  lemma RatingDescSortOfLast6()
    ensures Sort(RatingDesc, [P5, P6, P8, P9, P10, P11]) == [P10, P8, P6, P11, P5, P9]
  {
    RatingDescSortOfLast5();
    SortStep(RatingDesc, P5, [P6, P8, P9, P10, P11], [P10, P8, P6, P11], [P9]);
  }

  lemma RatingDescSortOfLast7()
    ensures Sort(RatingDesc, [P4, P5, P6, P8, P9, P10, P11]) == [P4, P10, P8, P6, P11, P5, P9]
  {
    RatingDescSortOfLast6();
    SortStep(RatingDesc, P4, [P5, P6, P8, P9, P10, P11], [], [P10, P8, P6, P11, P5, P9]);
  }

  lemma RatingDescSortOfLast8()
    ensures Sort(RatingDesc, [P3, P4, P5, P6, P8, P9, P10, P11]) == [P3, P4, P10, P8, P6, P11, P5, P9]
  {
    RatingDescSortOfLast7();
    SortStep(RatingDesc, P3, [P4, P5, P6, P8, P9, P10, P11], [], [P4, P10, P8, P6, P11, P5, P9]);
  }

  lemma RatingDescSortOfLast9()
    ensures Sort(RatingDesc, [P1, P3, P4, P5, P6, P8, P9, P10, P11]) == [P3, P4, P10, P1, P8, P6, P11, P5, P9]
  {
    RatingDescSortOfLast8();
    SortStep(RatingDesc, P1, [P3, P4, P5, P6, P8, P9, P10, P11], [P3, P4, P10], [P8, P6, P11, P5, P9]);
  }

  /** On the sample data the featured list is ids 3, 4, 10, 1, 8, 6: ties in
      rating keep catalog order. The lemmas above evaluate the filter and the
      insertion sort one element at a time. */
  lemma FeaturedOnSampleData()
    ensures Ids(GetFeaturedProducts(Products)) == [3, 4, 10, 1, 8, 6]
  {
    FeaturedRankingOnSampleData();
  }

  lemma FeaturedRankingOnSampleData()
    ensures Ids(FeaturedRanking(Products)) == [3, 4, 10, 1, 8, 6]
  {
    HighlyRatedOfLast12();
    RatingDescSortOfLast9();
  }

  lemma PriceAscSortOfLast1()
    ensures Sort(PriceAsc, [P12]) == [P12]
  {
    SortStep(PriceAsc, P12, [], [], []);
  }

  lemma PriceAscSortOfLast2()
    ensures Sort(PriceAsc, [P11, P12]) == [P12, P11]
  {
    PriceAscSortOfLast1();
    SortStep(PriceAsc, P11, [P12], [P12], []);
  }

  lemma PriceAscSortOfLast3()
    ensures Sort(PriceAsc, [P10, P11, P12]) == [P12, P10, P11]
  {
    PriceAscSortOfLast2();
    SortStep(PriceAsc, P10, [P11, P12], [P12], [P11]);
  }

  lemma PriceAscSortOfLast4()
    ensures Sort(PriceAsc, [P9, P10, P11, P12]) == [P12, P9, P10, P11]
  {
    PriceAscSortOfLast3();
    SortStep(PriceAsc, P9, [P10, P11, P12], [P12], [P10, P11]);
  }

  lemma PriceAscSortOfLast5()
    ensures Sort(PriceAsc, [P8, P9, P10, P11, P12]) == [P8, P12, P9, P10, P11]
  {
    PriceAscSortOfLast4();
    SortStep(PriceAsc, P8, [P9, P10, P11, P12], [], [P12, P9, P10, P11]);
  }

  lemma PriceAscSortOfLast6()
    ensures Sort(PriceAsc, [P7, P8, P9, P10, P11, P12]) == [P8, P7, P12, P9, P10, P11]
  {
    PriceAscSortOfLast5();
    SortStep(PriceAsc, P7, [P8, P9, P10, P11, P12], [P8], [P12, P9, P10, P11]);
  }

  lemma PriceAscSortOfLast7()
    ensures Sort(PriceAsc, [P6, P7, P8, P9, P10, P11, P12]) == [P8, P7, P6, P12, P9, P10, P11]
  {
    PriceAscSortOfLast6();
    SortStep(PriceAsc, P6, [P7, P8, P9, P10, P11, P12], [P8, P7], [P12, P9, P10, P11]);
  }

  lemma PriceAscSortOfLast8()
    ensures Sort(PriceAsc, [P5, P6, P7, P8, P9, P10, P11, P12]) == [P8, P7, P6, P5, P12, P9, P10, P11]
  {
    PriceAscSortOfLast7();
    SortStep(PriceAsc, P5, [P6, P7, P8, P9, P10, P11, P12], [P8, P7, P6], [P12, P9, P10, P11]);
  }

  lemma PriceAscSortOfLast9()
    ensures Sort(PriceAsc, [P4, P5, P6, P7, P8, P9, P10, P11, P12]) == [P8, P7, P6, P4, P5, P12, P9, P10, P11]
  {
    PriceAscSortOfLast8();
    SortStep(PriceAsc, P4, [P5, P6, P7, P8, P9, P10, P11, P12], [P8, P7, P6], [P5, P12, P9, P10, P11]);
  }

  lemma PriceAscSortOfLast10()
    ensures Sort(PriceAsc, [P3, P4, P5, P6, P7, P8, P9, P10, P11, P12]) == [P8, P7, P3, P6, P4, P5, P12, P9, P10, P11]
  {
    PriceAscSortOfLast9();
    SortStep(PriceAsc, P3, [P4, P5, P6, P7, P8, P9, P10, P11, P12], [P8, P7], [P6, P4, P5, P12, P9, P10, P11]);
  }

  lemma PriceAscSortOfLast11()
    ensures Sort(PriceAsc, [P2, P3, P4, P5, P6, P7, P8, P9, P10, P11, P12]) == [P8, P7, P3, P6, P4, P5, P12, P9, P10, P11, P2]
  {
    PriceAscSortOfLast10();
    SortStep(PriceAsc, P2, [P3, P4, P5, P6, P7, P8, P9, P10, P11, P12], [P8, P7, P3, P6, P4, P5, P12, P9, P10, P11], []);
  }

  lemma PriceAscSortOfLast12()
    ensures Sort(PriceAsc, [P1, P2, P3, P4, P5, P6, P7, P8, P9, P10, P11, P12]) == [P8, P7, P3, P6, P4, P5, P12, P9, P10, P1, P11, P2]
  {
    PriceAscSortOfLast11();
    SortStep(PriceAsc, P1, [P2, P3, P4, P5, P6, P7, P8, P9, P10, P11, P12], [P8, P7, P3, P6, P4, P5, P12, P9, P10], [P11, P2]);
  }

  /** On the sample data, ascending price gives ids 8, 7, 3, 6, 4, 5, 12, 9, 10,
      1, 11, 2 (10 at 89.99 before 1 at 99.99). */
  lemma PriceAscOnSampleData()
    ensures Ids(SortProducts(Products, "price-asc")) == [8, 7, 3, 6, 4, 5, 12, 9, 10, 1, 11, 2]
  {
    PriceAscSortOfLast12();
  }

  // ---------------------------------------------------------------------------
  // Placeholder images and star ratings

  /** `getPlaceholderImage`: a per-id picsum.photos URL. */
  function GetPlaceholderImage(id: int): string {
    "https://picsum.photos/seed/product-" + Text.IntToDecimal(id) + "/300/300"
  }

  /** Distinct ids get distinct placeholder URLs. */
  lemma PlaceholderImageInjective(a: int, b: int)
    requires GetPlaceholderImage(a) == GetPlaceholderImage(b)
    ensures a == b
  {
    var ua, ub := GetPlaceholderImage(a), GetPlaceholderImage(b);
    assert ua[35..|ua| - 8] == Text.IntToDecimal(a);
    assert ub[35..|ub| - 8] == Text.IntToDecimal(b);
    Text.IntToDecimalInjective(a, b);
  }

  datatype StarIcon = FullStar | HalfStar | EmptyStar

  /** `n` copies of `icon` (none when `n` is not positive), as the loops of
      `getStarRating` build them; see `RepeatSpec`. */
  function Repeat(icon: StarIcon, n: int): seq<StarIcon>
  {
    if n <= 0 then [] else Repeat(icon, n - 1) + [icon]
  }

  lemma {:induction false} RepeatSpec(icon: StarIcon, n: int)
    ensures |Repeat(icon, n)| == if n < 0 then 0 else n
    ensures forall i :: 0 <= i < |Repeat(icon, n)| ==> Repeat(icon, n)[i] == icon
  {
    if n > 0 {
      RepeatSpec(icon, n - 1);
    }
  }

  /** `rating % 1 !== 0`: the rating has a fractional part. */
  predicate HasHalfStar(rating: real) {
    rating != rating.Floor as real
  }

  /** `Math.ceil`. */
  function Ceil(x: real): (c: int)
    ensures x <= c as real < x + 1.0
  {
    if x == x.Floor as real then x.Floor else x.Floor + 1
  }

  /** The icons `getStarRating` emits: `Math.floor(rating)` full stars, a half
      star when the rating has a fractional part, `5 - Math.ceil(rating)` empty
      stars (a negative count emits none). */
  function StarIcons(rating: real): seq<StarIcon> {
    Icons(rating.Floor, HasHalfStar(rating), 5 - Ceil(rating))
  }

  /** `full` full stars, then a half star if `half`, then `empty` empty stars. */
  function Icons(full: int, half: bool, empty: int): seq<StarIcon> {
    Repeat(FullStar, full) + (if half then [HalfStar] else []) + Repeat(EmptyStar, empty)
  }

  /** `getStarRating`, with its two counting loops. */
  method GetStarRating(rating: real) returns (stars: seq<StarIcon>)
    ensures stars == StarIcons(rating)
  {
    var fullStars := rating.Floor;
    var hasHalfStar := rating != rating.Floor as real;
    stars := [];
    var i := 0;
    while i < fullStars
      invariant 0 <= i <= if fullStars < 0 then 0 else fullStars
      invariant stars == Repeat(FullStar, i)
    {
      assert Repeat(FullStar, i + 1) == Repeat(FullStar, i) + [FullStar];
      stars := stars + [FullStar];
      i := i + 1;
    }
    assert stars == Repeat(FullStar, fullStars);
    if hasHalfStar {
      stars := stars + [HalfStar];
    }
    var prefix := stars;
    var emptyStars := 5 - Ceil(rating);
    i := 0;
    while i < emptyStars
      invariant 0 <= i <= if emptyStars < 0 then 0 else emptyStars
      invariant stars == prefix + Repeat(EmptyStar, i)
    {
      assert Repeat(EmptyStar, i + 1) == Repeat(EmptyStar, i) + [EmptyStar];
      stars := stars + [EmptyStar];
      i := i + 1;
    }
    assert stars == prefix + Repeat(EmptyStar, emptyStars);
  }

  /** For a rating in [0, 5] there are always five icons: floor(r) full, one
      half exactly when r is not whole, and 5 - ceil(r) empty. */
  lemma StarIconsForValidRating(rating: real)
    requires 0.0 <= rating <= 5.0
    ensures |StarIcons(rating)| == 5
    ensures multiset(StarIcons(rating))[FullStar] == rating.Floor
    ensures multiset(StarIcons(rating))[HalfStar] == if HasHalfStar(rating) then 1 else 0
    ensures multiset(StarIcons(rating))[EmptyStar] == 5 - Ceil(rating)
  {
    StarIconsLength(rating);
    StarIconsCounts(rating);
  }

  lemma StarIconsLength(rating: real)
    requires 0.0 <= rating <= 5.0
    ensures |StarIcons(rating)| == 5
  {
    RepeatSpec(FullStar, rating.Floor);
    RepeatSpec(EmptyStar, 5 - Ceil(rating));
  }

  lemma StarIconsCounts(rating: real)
    requires 0.0 <= rating <= 5.0
    ensures multiset(StarIcons(rating))[FullStar] == rating.Floor
    ensures multiset(StarIcons(rating))[HalfStar] == if HasHalfStar(rating) then 1 else 0
    ensures multiset(StarIcons(rating))[EmptyStar] == 5 - Ceil(rating)
  {
    assert 0 <= rating.Floor && 0 <= 5 - Ceil(rating);
    IconsCounts(rating.Floor, HasHalfStar(rating), 5 - Ceil(rating));
  }

  lemma IconsCounts(full: nat, half: bool, empty: nat)
    ensures multiset(Icons(full, half, empty))[FullStar] == full
    ensures multiset(Icons(full, half, empty))[HalfStar] == if half then 1 else 0
    ensures multiset(Icons(full, half, empty))[EmptyStar] == empty
  {
    var f := Repeat(FullStar, full);
    var h: seq<StarIcon> := if half then [HalfStar] else [];
    var e := Repeat(EmptyStar, empty);
    assert multiset(Icons(full, half, empty)) == multiset(f) + multiset(h) + multiset(e);
    RepeatCount(FullStar, full, FullStar);
    RepeatCount(FullStar, full, HalfStar);
    RepeatCount(FullStar, full, EmptyStar);
    RepeatCount(EmptyStar, empty, FullStar);
    RepeatCount(EmptyStar, empty, HalfStar);
    RepeatCount(EmptyStar, empty, EmptyStar);
  }

  /** How often `x` occurs among `n` copies of `icon`. */
  lemma {:induction false} RepeatCount(icon: StarIcon, n: int, x: StarIcon)
    ensures multiset(Repeat(icon, n))[x] == if x == icon && n > 0 then n else 0
  {
    if n > 0 {
      RepeatCount(icon, n - 1, x);
    }
  }
}
