/** The shop page's product grid: the sorted full listing, the search box and
    the category filter. Each operation decides which products the grid shows
    (or that it shows the "No products found" panel); the card markup itself
    is not modelled. */
module Shop {
  import opened Wrappers
  import opened Seqs
  import opened Text
  import opened Catalog

  /** The sort key `loadProducts` uses when it is called without one. */
  const DefaultSortKey: string := "name-asc"

  /** What the grid shows: the "No products found" panel, or one card per
      product, in this order. */
  datatype View = NoProducts | Cards(products: seq<Product>)

  /** An empty result shows the panel instead of any cards. */
  function ShowOrEmpty(products: seq<Product>): (v: View)
    ensures v == NoProducts <==> products == []
    ensures v.Cards? ==> v.products == products
  {
    if products == [] then NoProducts else Cards(products)
  }

  /** `loadProducts(sortBy)`: the whole catalog through `sortProducts`, with
      "name-asc" when no key is given. */
  function LoadedView(catalog: seq<Product>, sortBy: Option<string>): View {
    ShowOrEmpty(SortProducts(catalog, if sortBy.Some? then sortBy.value else DefaultSortKey))
  }

  /** The listing shows every catalog product exactly as often as the catalog
      holds it, the panel only for an empty catalog, and the order of the key
      (by title, A to Z, when none is given). */
  lemma LoadedViewSpec(catalog: seq<Product>, sortBy: Option<string>)
    ensures LoadedView(catalog, sortBy) == NoProducts <==> catalog == []
    ensures LoadedView(catalog, sortBy).Cards? ==>
      multiset(LoadedView(catalog, sortBy).products) == multiset(catalog)
    ensures sortBy.None? && catalog != [] ==> Sorted(NameAsc, LoadedView(catalog, sortBy).products)
    ensures sortBy.Some? && OrderOf(sortBy.value).Some? && catalog != [] ==>
      Sorted(OrderOf(sortBy.value).value, LoadedView(catalog, sortBy).products)
    ensures sortBy.Some? && OrderOf(sortBy.value).None? && catalog != [] ==>
      LoadedView(catalog, sortBy).products == catalog
  {
    var key := if sortBy.Some? then sortBy.value else DefaultSortKey;
    SortProductsSpec(catalog, key);
  }

  /** Whether a product matches an already lower-cased search text: its
      lower-cased title, category or description contains it. */
  function Matching(needle: string): Product -> bool {
    (p: Product) =>
      Includes(ToLower(p.title), needle) ||
      Includes(ToLower(p.category), needle) ||
      Includes(ToLower(p.description), needle)
  }

  /** A query with nothing but whitespace in it, or no query at all. */
  predicate IsEmptyQuery(query: Option<string>) {
    query.None? || Trim(query.value) == ""
  }

  /** The query test `searchProducts` makes is blankness. */
  lemma IsEmptyQueryIffBlank(query: Option<string>)
    ensures IsEmptyQuery(query) <==> query.None? || IsBlank(query.value)
  {
    if query.Some? {
      TrimEmptyIffBlank(query.value);
    }
  }

  /** `searchProducts(query)`: an empty or blank query falls back to the
      default listing; otherwise the catalog products matching the lower-cased
      query (which is not trimmed), in catalog order. */
  function SearchView(catalog: seq<Product>, query: Option<string>): View {
    if IsEmptyQuery(query) then LoadedView(catalog, None)
    else ShowOrEmpty(Filter(catalog, Matching(ToLower(query.value))))
  }

  /** For a query that is not blank, the grid shows exactly the catalog
      products whose title, category or description contains the query
      ignoring case, in catalog order, and the panel exactly when there are
      none. A blank query shows the default listing. */
  lemma SearchViewSpec(catalog: seq<Product>, query: Option<string>)
    ensures IsEmptyQuery(query) ==> SearchView(catalog, query) == LoadedView(catalog, None)
    ensures !IsEmptyQuery(query) ==>
      (SearchView(catalog, query) == NoProducts <==>
        forall p :: p in catalog ==> !Matching(ToLower(query.value))(p))
    ensures !IsEmptyQuery(query) && SearchView(catalog, query).Cards? ==>
      (forall p :: p in SearchView(catalog, query).products <==>
        p in catalog && Matching(ToLower(query.value))(p)) &&
      IsSubsequence(SearchView(catalog, query).products, catalog)
  {
    if !IsEmptyQuery(query) {
      var matches := Matching(ToLower(query.value));
      FilterMembers(catalog, matches);
      FilterSubsequence(catalog, matches);
      var r := Filter(catalog, matches);
      if r != [] {
        assert r[0] in catalog && matches(r[0]);
      }
    }
  }

  /** Lower-casing never turns a whitespace character into another one or
      back, so a query and its lower-cased form are blank together. */
  lemma ToLowerKeepsBlank(s: string)
    ensures IsBlank(ToLower(s)) <==> IsBlank(s)
  {
    forall i | 0 <= i < |s| ensures IsJsWhitespace(ToLower(s)[i]) <==> IsJsWhitespace(s[i]) {
      if 'A' <= s[i] <= 'Z' {
        assert 'a' <= ToLower(s)[i] <= 'z';
      }
    }
    if !IsBlank(s) {
      var i :| 0 <= i < |s| && !IsJsWhitespace(s[i]);
      assert !IsJsWhitespace(ToLower(s)[i]);
    }
  }

  /** Search ignores the case of the query: a query and its lower-cased form
      give the same grid. */
  lemma SearchIgnoresQueryCase(catalog: seq<Product>, query: string)
    ensures SearchView(catalog, Some(ToLower(query))) == SearchView(catalog, Some(query))
  {
    IsEmptyQueryIffBlank(Some(query));
    IsEmptyQueryIffBlank(Some(ToLower(query)));
    ToLowerKeepsBlank(query);
    ToLowerIdempotent(query);
  }

  /** Searching for the title of a catalog product that is not blank finds
      that product. */
  lemma SearchFindsTitle(catalog: seq<Product>, p: Product)
    requires p in catalog && !IsBlank(p.title)
    ensures SearchView(catalog, Some(p.title)).Cards?
    ensures p in SearchView(catalog, Some(p.title)).products
  {
    var needle := ToLower(p.title);
    IncludesItself(needle);
    IsEmptyQueryIffBlank(Some(p.title));
    FilterMembers(catalog, Matching(needle));
  }

  /** The category value that means "everything". */
  const AllCategories: string := "all"

  /** A missing or empty category, or "all". */
  predicate IsAnyCategory(category: Option<string>) {
    category.None? || category.value == "" || category.value == AllCategories
  }

  /** `filterByCategory(category)`: no category (or "all") falls back to the
      default listing; otherwise the catalog products of exactly that
      category, in catalog order. */
  function CategoryView(catalog: seq<Product>, category: Option<string>): View {
    if IsAnyCategory(category) then LoadedView(catalog, None)
    else ShowOrEmpty(GetProductsByCategory(catalog, category.value))
  }

  /** For a real category the grid shows exactly the catalog products whose
      category equals it (case and all), in catalog order, and the panel
      exactly when there are none; otherwise the default listing. */
  lemma CategoryViewSpec(catalog: seq<Product>, category: Option<string>)
    ensures IsAnyCategory(category) ==> CategoryView(catalog, category) == LoadedView(catalog, None)
    ensures !IsAnyCategory(category) ==>
      (CategoryView(catalog, category) == NoProducts <==>
        forall p :: p in catalog ==> p.category != category.value)
    ensures !IsAnyCategory(category) && CategoryView(catalog, category).Cards? ==>
      (forall p :: p in CategoryView(catalog, category).products <==>
        p in catalog && p.category == category.value) &&
      IsSubsequence(CategoryView(catalog, category).products, catalog)
  {
    if !IsAnyCategory(category) {
      var r := GetProductsByCategory(catalog, category.value);
      if r == [] {
        assert forall p :: p in catalog ==> p.category != category.value;
      } else {
        assert r[0] in catalog && r[0].category == category.value;
      }
    }
  }

  /** The category of any catalog product finds that product. */
  lemma CategoryOfProductShowsIt(catalog: seq<Product>, p: Product)
    requires p in catalog && p.category != "" && p.category != AllCategories
    ensures CategoryView(catalog, Some(p.category)).Cards?
    ensures p in CategoryView(catalog, Some(p.category)).products
  {
    CategoryViewSpec(catalog, Some(p.category));
  }

  /** The shop page's products grid; each call redraws it. */
  class ProductsGrid {
    var view: View

    /** The page loads the default listing as soon as it is ready. */
    constructor (catalog: seq<Product>)
      ensures view == LoadedView(catalog, None)
    {
      view := LoadedView(catalog, None);
    }

    /** `loadProducts`, also called by the sort selector with its value. */
    method LoadProducts(catalog: seq<Product>, sortBy: Option<string>)
      modifies this
      ensures view == LoadedView(catalog, sortBy)
    {
      var key := if sortBy.Some? then sortBy.value else DefaultSortKey;
      var sorted := SortProducts(catalog, key);
      view := ShowOrEmpty(sorted);
    }

    /** `searchProducts`. */
    method SearchProducts(catalog: seq<Product>, query: Option<string>)
      modifies this
      ensures view == SearchView(catalog, query)
    {
      if query.None? || Trim(query.value) == "" {
        LoadProducts(catalog, None);
        return;
      }
      var needle := ToLower(query.value);
      var filtered := Filter(catalog, Matching(needle));
      view := ShowOrEmpty(filtered);
    }

    /** `filterByCategory`. */
    method FilterByCategory(catalog: seq<Product>, category: Option<string>)
      modifies this
      ensures view == CategoryView(catalog, category)
    {
      if category.None? || category.value == "" || category.value == AllCategories {
        LoadProducts(catalog, None);
        return;
      }
      var filtered := GetProductsByCategory(catalog, category.value);
      view := ShowOrEmpty(filtered);
    }
  }
}
