/**
 * The header's search box: the text typed, whether the drop-down is open, the results of
 * the last search, a loading flag and the highlighted result (-1 for none). The search
 * runs on the debounced query, which is a parameter here, over fetched products and
 * categories; navigation is returned as the URL to open.
 */
module SearchBox {
  import opened Wrappers
  import Seqs
  import Text

  datatype Product = Product(id: string, name: string, sku: string)

  datatype Category = Category(id: string, name: string, description: Option<string>)

  datatype ResultType = ProductHit | CategoryHit

  datatype SearchResult = SearchResult(id: string, title: string, description: string, kind: ResultType, url: string)

  datatype Key = ArrowDown | ArrowUp | Enter | Escape | OtherKey(name: string)

  predicate ProductMatches(query: string, p: Product) {
    Text.Matches(p.name, query)
  }

  predicate CategoryMatches(query: string, c: Category) {
    Text.Matches(c.name, query)
  }

  function ProductResult(p: Product): (r: SearchResult)
    ensures r.id == p.id && r.title == p.name && r.kind == ProductHit
    ensures r.description == "SKU: " + p.sku && r.url == "/products/" + p.id
  {
    SearchResult(p.id, p.name, "SKU: " + p.sku, ProductHit, "/products/" + p.id)
  }

  /** `category.description || ""`. */
  function CategoryResult(c: Category): (r: SearchResult)
    ensures r.id == c.id && r.title == c.name && r.kind == CategoryHit && r.url == "/categories/" + c.id
    ensures r.description == if c.description.Some? then c.description.value else ""
  {
    SearchResult(c.id, c.name, c.description.GetOr(""), CategoryHit, "/categories/" + c.id)
  }

  /** `productResults`: the products whose name holds the query, in input order. */
  function ProductResults(products: seq<Product>, query: string): (rs: seq<SearchResult>)
    ensures |rs| <= |products|
  {
    var hits := Seqs.Filter(products, p => ProductMatches(query, p));
    seq(|hits|, i requires 0 <= i < |hits| => ProductResult(hits[i]))
  }

  /** `categoryResults`: the categories whose name holds the query, in input order. */
  function CategoryResults(categories: seq<Category>, query: string): (rs: seq<SearchResult>)
    ensures |rs| <= |categories|
  {
    var hits := Seqs.Filter(categories, c => CategoryMatches(query, c));
    seq(|hits|, i requires 0 <= i < |hits| => CategoryResult(hits[i]))
  }

  /** `[...productResults, ...categoryResults]`. */
  function Results(products: seq<Product>, categories: seq<Category>, query: string): seq<SearchResult> {
    ProductResults(products, query) + CategoryResults(categories, query)
  }

  /** Each title in `rs` holds the query, ignoring case. */
  ghost predicate TitlesHold(rs: seq<SearchResult>, query: string) {
    forall i :: 0 <= i < |rs| ==> Text.Matches(rs[i].title, query)
  }

  /** Every product result is a matching product, and the matching products all appear. */
  lemma ProductHits(products: seq<Product>, query: string)
    ensures TitlesHold(ProductResults(products, query), query)
    ensures forall i :: 0 <= i < |products| && ProductMatches(query, products[i]) ==>
              ProductResult(products[i]) in ProductResults(products, query)
  {
    var hits := Seqs.Filter(products, p => ProductMatches(query, p));
    forall i | 0 <= i < |hits| ensures ProductMatches(query, hits[i]) {
      assert hits[i] in hits;
    }
    forall i | 0 <= i < |products| && ProductMatches(query, products[i])
      ensures ProductResult(products[i]) in ProductResults(products, query)
    {
      var j :| 0 <= j < |hits| && hits[j] == products[i];
      assert ProductResults(products, query)[j] == ProductResult(products[i]);
    }
  }

  /** Every category result is a matching category, and the matching categories all appear. */
  lemma CategoryHits(categories: seq<Category>, query: string)
    ensures TitlesHold(CategoryResults(categories, query), query)
    ensures forall i :: 0 <= i < |categories| && CategoryMatches(query, categories[i]) ==>
              CategoryResult(categories[i]) in CategoryResults(categories, query)
  {
    var hits := Seqs.Filter(categories, c => CategoryMatches(query, c));
    forall i | 0 <= i < |hits| ensures CategoryMatches(query, hits[i]) {
      assert hits[i] in hits;
    }
    forall i | 0 <= i < |categories| && CategoryMatches(query, categories[i])
      ensures CategoryResult(categories[i]) in CategoryResults(categories, query)
    {
      var j :| 0 <= j < |hits| && hits[j] == categories[i];
      assert CategoryResults(categories, query)[j] == CategoryResult(categories[i]);
    }
  }

  /** Titles that each hold the query still do after concatenation. */
  lemma TitlesConcat(a: seq<SearchResult>, b: seq<SearchResult>, query: string)
    requires TitlesHold(a, query) && TitlesHold(b, query)
    ensures TitlesHold(a + b, query)
  {
    forall i | 0 <= i < |a + b| ensures Text.Matches((a + b)[i].title, query) {
      if i < |a| {
        assert (a + b)[i] == a[i];
      } else {
        assert (a + b)[i] == b[i - |a|];
      }
    }
  }

  /** The product hits come first, then the category hits. */
  lemma ResultsOrder(products: seq<Product>, categories: seq<Category>, query: string)
    ensures var ps, rs := ProductResults(products, query), Results(products, categories, query);
      && (forall i :: 0 <= i < |ps| ==> rs[i].kind == ProductHit)
      && (forall i :: |ps| <= i < |rs| ==> rs[i].kind == CategoryHit)
  {
  }

  /** Every title holds the query, and no matching product or category is missed. */
  lemma ResultsShape(products: seq<Product>, categories: seq<Category>, query: string)
    ensures TitlesHold(Results(products, categories, query), query)
    ensures forall i :: 0 <= i < |products| && ProductMatches(query, products[i]) ==>
              ProductResult(products[i]) in Results(products, categories, query)
    ensures forall i :: 0 <= i < |categories| && CategoryMatches(query, categories[i]) ==>
              CategoryResult(categories[i]) in Results(products, categories, query)
  {
    ProductHits(products, query);
    CategoryHits(categories, query);
    TitlesConcat(ProductResults(products, query), CategoryResults(categories, query), query);
  }

  class Box {
    var isOpen: bool
    var query: string
    var results: seq<SearchResult>
    var isLoading: bool
    var selectedIndex: int

    constructor ()
      ensures !isOpen && query == "" && results == [] && !isLoading && selectedIndex == -1
    {
      isOpen, query, results, isLoading, selectedIndex := false, "", [], false, -1;
    }

    /** The highlighted index is -1 or points at a result. */
    predicate SelectionInRange()
      reads this
    {
      -1 <= selectedIndex < |results|
    }

    /**
     * The search for a debounced query: an empty one only clears the results; otherwise a
     * successful fetch replaces them and a failed one (`None`) keeps the previous ones.
     * Loading ends either way; the highlighted index is left as it was.
     */
    method Search(debouncedQuery: string, outcome: Option<(seq<Product>, seq<Category>)>)
      modifies this
      ensures debouncedQuery == "" ==> results == [] && isLoading == old(isLoading)
      ensures debouncedQuery != "" && outcome.Some? ==>
        results == Results(outcome.value.0, outcome.value.1, debouncedQuery) && !isLoading
      ensures debouncedQuery != "" && outcome.None? ==> results == old(results) && !isLoading
      ensures isOpen == old(isOpen) && query == old(query) && selectedIndex == old(selectedIndex)
    {
      if debouncedQuery == "" {
        results := [];
        return;
      }
      isLoading := true;
      if outcome.Some? {
        results := Results(outcome.value.0, outcome.value.1, debouncedQuery);
      }
      isLoading := false;
    }

    /** Typing sets the text and opens the drop-down. */
    method Change(value: string)
      modifies this
      ensures query == value && isOpen
      ensures results == old(results) && isLoading == old(isLoading) && selectedIndex == old(selectedIndex)
    {
      query, isOpen := value, true;
    }

    /** Focusing the input opens the drop-down. */
    method Focus()
      modifies this
      ensures isOpen
      ensures query == old(query) && results == old(results) && isLoading == old(isLoading)
      ensures selectedIndex == old(selectedIndex)
    {
      isOpen := true;
    }

    /** A press outside the box closes it. */
    method ClickOutside()
      modifies this
      ensures !isOpen
      ensures query == old(query) && results == old(results) && isLoading == old(isLoading)
      ensures selectedIndex == old(selectedIndex)
    {
      isOpen := false;
    }

    /**
     * `handleKeyDown`. ArrowDown moves the highlight down unless it is on the last result,
     * ArrowUp moves it up unless it is at 0 or -1, Enter opens the highlighted result (when
     * there is one) and clears and closes the box, Escape closes it. The results and the
     * loading flag never change, and a highlight in range stays in range.
     */
    method KeyDown(key: Key) returns (navigateTo: Option<string>)
      modifies this
      ensures results == old(results) && isLoading == old(isLoading)
      ensures key == ArrowDown ==>
        selectedIndex == (if old(selectedIndex) < |results| - 1 then old(selectedIndex) + 1 else old(selectedIndex))
        && isOpen == old(isOpen) && query == old(query) && navigateTo.None?
      ensures key == ArrowUp ==>
        selectedIndex == (if old(selectedIndex) > 0 then old(selectedIndex) - 1 else old(selectedIndex))
        && isOpen == old(isOpen) && query == old(query) && navigateTo.None?
      ensures key == Enter && 0 <= old(selectedIndex) < |results| ==>
        navigateTo == Some(results[old(selectedIndex)].url) && !isOpen && query == "" && selectedIndex == old(selectedIndex)
      ensures key == Enter && !(0 <= old(selectedIndex) < |results|) ==>
        navigateTo.None? && isOpen == old(isOpen) && query == old(query) && selectedIndex == old(selectedIndex)
      ensures key == Escape ==>
        !isOpen && query == old(query) && selectedIndex == old(selectedIndex) && navigateTo.None?
      ensures key.OtherKey? ==>
        isOpen == old(isOpen) && query == old(query) && selectedIndex == old(selectedIndex) && navigateTo.None?
      ensures old(SelectionInRange()) ==> SelectionInRange()
    {
      navigateTo := None;
      match key
      case ArrowDown =>
        if selectedIndex < |results| - 1 {
          selectedIndex := selectedIndex + 1;
        }
      case ArrowUp =>
        if selectedIndex > 0 {
          selectedIndex := selectedIndex - 1;
        }
      case Enter =>
        if 0 <= selectedIndex < |results| {
          navigateTo := Some(results[selectedIndex].url);
          isOpen := false;
          query := "";
        }
      case Escape =>
        isOpen := false;
      case OtherKey(_) =>
    }
  }
}
