/** The shop page: the search-and-category filter over the listings and the choice between the
    loading message, the no-match message and the grid. */
module Home {
  import opened Text
  import opened Seqs
  import opened Catalog

  /** The name or the location contains the search text, ignoring ASCII case. */
  predicate MatchesSearch(p: Product, search: string) {
    Contains(Lower(p.name), Lower(search)) || Contains(Lower(p.location), Lower(search))
  }

  /** The category chip "All" matches every listing; any other chip matches its category. */
  predicate MatchesCategory(p: Product, activeCategory: string) {
    activeCategory == "All" || CategoryName(p.category) == activeCategory
  }

  function Keeps(search: string, activeCategory: string): Product -> bool {
    (p: Product) => MatchesSearch(p, search) && MatchesCategory(p, activeCategory)
  }

  /** `filteredProducts`: the listings that match both the search and the category, in their
      original order. */
  function FilteredProducts(products: seq<Product>, search: string, activeCategory: string): (r: seq<Product>)
    ensures IsSubseq(r, products)
    ensures forall i :: 0 <= i < |r| ==>
      r[i] in products && MatchesSearch(r[i], search) && MatchesCategory(r[i], activeCategory)
    ensures forall i :: 0 <= i < |products| ==>
      (MatchesSearch(products[i], search) && MatchesCategory(products[i], activeCategory) ==> products[i] in r)
  {
    var r := Filter(products, Keeps(search, activeCategory));
    assert forall i :: 0 <= i < |r| ==> Keeps(search, activeCategory)(r[i]);
    r
  }

  /** With an empty search and the "All" chip, every listing is shown. */
  lemma EmptySearchShowsAll(products: seq<Product>)
    ensures FilteredProducts(products, "", "All") == products
  {
    forall i | 0 <= i < |products| ensures Keeps("", "All")(products[i]) {
      ContainsEmpty(Lower(products[i].name));
    }
    FilterAll(products, Keeps("", "All"));
  }

  /** The search ignores case: searching for the lower-cased text gives the same listings. */
  lemma SearchIgnoresCase(products: seq<Product>, search: string, activeCategory: string)
    ensures FilteredProducts(products, Lower(search), activeCategory) == FilteredProducts(products, search, activeCategory)
  {
    assert Lower(Lower(search)) == Lower(search);
    FilterExt(products, Keeps(Lower(search), activeCategory), Keeps(search, activeCategory));
  }

  /** Filtering the filtered list again changes nothing. */
  lemma FilterIdempotent(products: seq<Product>, search: string, activeCategory: string)
    ensures var r := FilteredProducts(products, search, activeCategory);
      FilteredProducts(r, search, activeCategory) == r
  {
    var r := FilteredProducts(products, search, activeCategory);
    FilterAll(r, Keeps(search, activeCategory));
  }

  /** What the grid area shows. */
  datatype Listing = Gathering | NoMatches | Grid(items: seq<Product>)

  /** The loading message needs both the loading flag and an empty catalog; otherwise an empty
      result shows the no-match message, and a non-empty one the grid. */
  function ListingView(isLoading: bool, products: seq<Product>, search: string, activeCategory: string): (v: Listing)
    ensures v.Gathering? <==> isLoading && |products| == 0
    ensures v.NoMatches? <==> !(isLoading && |products| == 0) && FilteredProducts(products, search, activeCategory) == []
    ensures v.Grid? ==> v.items == FilteredProducts(products, search, activeCategory) && v.items != []
  {
    if isLoading && |products| == 0 then Gathering
    else
      var filtered := FilteredProducts(products, search, activeCategory);
      if |filtered| == 0 then NoMatches else Grid(filtered)
  }

  /** An empty catalog that is not loading shows the no-match message, whatever the search. */
  lemma EmptyCatalogNoMatches(search: string, activeCategory: string)
    ensures ListingView(false, [], search, activeCategory) == NoMatches
  {
  }

  /** A non-empty catalog with an empty search under "All" shows the whole catalog. */
  lemma DefaultFiltersShowGrid(isLoading: bool, products: seq<Product>)
    requires |products| > 0
    ensures ListingView(isLoading, products, "", "All") == Grid(products)
  {
    EmptySearchShowsAll(products);
  }
}
