/**
 * The global search store: a query, the results of the last search and a loading flag.
 * `search` fetches products, categories and transactions and keeps, in that order, the
 * ones whose name holds the query, ignoring case. The fetch is an input of `Search`.
 */
module SearchStore {
  import opened Wrappers
  import Seqs
  import Text
  import Inventory

  /** A product as the API sends it; `category` is the name of its populated category, if any. */
  datatype Product = Product(id: string, name: string, category: Option<string>, quantity: int)

  datatype Category = Category(id: string, name: string, description: Option<string>)

  /** A transaction; `productName` is the name of its populated product, if any. */
  datatype Transaction = Transaction(id: string, kind: Inventory.TxType, productName: Option<string>, quantity: int)

  datatype ResultType = ProductHit | CategoryHit | TransactionHit

  datatype SearchResult = SearchResult(id: string, kind: ResultType, title: string, description: string, url: string)

  /** The three lists; a response without its list counts as an empty one (`|| []`). */
  datatype Fetched = Fetched(products: Option<seq<Product>>, categories: Option<seq<Category>>,
                             transactions: Option<seq<Transaction>>)

  /** `s || fallback` for a string that may be missing: missing or empty gives the fallback. */
  function OrElse(s: Option<string>, fallback: string): (r: string)
    ensures r == fallback <==> s.None? || s.value == "" || s.value == fallback
  {
    if s.None? || s.value == "" then fallback else s.value
  }

  predicate ProductMatches(query: string, p: Product) {
    Text.Matches(p.name, query)
  }

  predicate CategoryMatches(query: string, c: Category) {
    Text.Matches(c.name, query)
  }

  /** `transaction.product?.name.toLowerCase().includes(...)`: `undefined`, and so false, without a product. */
  predicate TransactionMatches(query: string, t: Transaction) {
    t.productName.Some? && Text.Matches(t.productName.value, query)
  }

  function ProductResult(p: Product): (r: SearchResult)
    ensures r.id == p.id && r.kind == ProductHit && r.title == p.name && r.url == "/products/" + p.id
    ensures var stock := " - " + Text.IntToString(p.quantity) + " in stock";
      r.description == if p.category.Some? && p.category.value != "" then p.category.value + stock
                       else "Uncategorized" + stock
  {
    SearchResult(p.id, ProductHit, p.name,
                 OrElse(p.category, "Uncategorized") + " - " + Text.IntToString(p.quantity) + " in stock",
                 "/products/" + p.id)
  }

  function CategoryResult(c: Category): (r: SearchResult)
    ensures r.id == c.id && r.kind == CategoryHit && r.title == c.name && r.url == "/categories/" + c.id
    ensures r.description == if c.description.Some? && c.description.value != "" then c.description.value
                             else "No description"
  {
    SearchResult(c.id, CategoryHit, c.name, OrElse(c.description, "No description"), "/categories/" + c.id)
  }

  function TransactionResult(t: Transaction): (r: SearchResult)
    ensures r.id == t.id && r.kind == TransactionHit && r.url == "/transactions/" + t.id
    ensures r.title == if t.productName.Some? && t.productName.value != "" then t.productName.value
                       else "Unknown Product"
    ensures r.description == Inventory.TxTypeName(t.kind) + " - " + Text.IntToString(t.quantity) + " units"
  {
    SearchResult(t.id, TransactionHit, OrElse(t.productName, "Unknown Product"),
                 Inventory.TxTypeName(t.kind) + " - " + Text.IntToString(t.quantity) + " units",
                 "/transactions/" + t.id)
  }

  function ProductResults(products: seq<Product>, query: string): (rs: seq<SearchResult>)
    ensures |rs| <= |products|
  {
    var hits := Seqs.Filter(products, p => ProductMatches(query, p));
    seq(|hits|, i requires 0 <= i < |hits| => ProductResult(hits[i]))
  }

  function CategoryResults(categories: seq<Category>, query: string): (rs: seq<SearchResult>)
    ensures |rs| <= |categories|
  {
    var hits := Seqs.Filter(categories, c => CategoryMatches(query, c));
    seq(|hits|, i requires 0 <= i < |hits| => CategoryResult(hits[i]))
  }

  function TransactionResults(transactions: seq<Transaction>, query: string): (rs: seq<SearchResult>)
    ensures |rs| <= |transactions|
  {
    var hits := Seqs.Filter(transactions, t => TransactionMatches(query, t));
    seq(|hits|, i requires 0 <= i < |hits| => TransactionResult(hits[i]))
  }

  /** The result list: the product hits, then the category hits, then the transaction hits. */
  function Results(f: Fetched, query: string): seq<SearchResult> {
    ProductResults(f.products.GetOr([]), query)
    + CategoryResults(f.categories.GetOr([]), query)
    + TransactionResults(f.transactions.GetOr([]), query)
  }

  /**
   * The results come in three groups, in that order: first the product hits, then the
   * category hits, then the transaction hits.
   */
  lemma ResultGroups(f: Fetched, query: string)
    ensures var p, c, rs := |ProductResults(f.products.GetOr([]), query)|,
                            |CategoryResults(f.categories.GetOr([]), query)|, Results(f, query);
      && (forall i :: 0 <= i < p ==> rs[i].kind == ProductHit)
      && (forall i :: p <= i < p + c ==> rs[i].kind == CategoryHit)
      && (forall i :: p + c <= i < |rs| ==> rs[i].kind == TransactionHit)
  {
  }

  /** Each title in `rs` holds the query, ignoring case. */
  ghost predicate TitlesHold(rs: seq<SearchResult>, query: string) {
    forall i :: 0 <= i < |rs| ==> Text.Matches(rs[i].title, query)
  }

  /** Each product hit's title holds the query. */
  lemma ProductHitsMatch(products: seq<Product>, query: string)
    ensures TitlesHold(ProductResults(products, query), query)
  {
    var hits := Seqs.Filter(products, p => ProductMatches(query, p));
    forall i | 0 <= i < |hits| ensures ProductMatches(query, hits[i]) {
      assert hits[i] in hits;
    }
  }

  lemma CategoryHitsMatch(categories: seq<Category>, query: string)
    ensures TitlesHold(CategoryResults(categories, query), query)
  {
    var hits := Seqs.Filter(categories, c => CategoryMatches(query, c));
    forall i | 0 <= i < |hits| ensures CategoryMatches(query, hits[i]) {
      assert hits[i] in hits;
    }
  }

  /** A transaction hit is titled with its product's name, which holds the query (an empty name only matches an empty query). */
  lemma TransactionHitsMatch(transactions: seq<Transaction>, query: string)
    ensures TitlesHold(TransactionResults(transactions, query), query)
  {
    var hits := Seqs.Filter(transactions, t => TransactionMatches(query, t));
    var rs := TransactionResults(transactions, query);
    forall i | 0 <= i < |hits| ensures Text.Matches(rs[i].title, query) {
      assert hits[i] in hits;
      var name := hits[i].productName.value;
      Text.MatchesEmptyName(query);
      if name == "" {
        assert Text.OccursAt(Text.ToLower(rs[i].title), Text.ToLower(query), 0);
      }
    }
  }

  /** Every result's title holds the query, ignoring case. */
  lemma TitlesMatch(f: Fetched, query: string)
    ensures TitlesHold(Results(f, query), query)
  {
    var ps := ProductResults(f.products.GetOr([]), query);
    var cs := CategoryResults(f.categories.GetOr([]), query);
    var ts := TransactionResults(f.transactions.GetOr([]), query);
    ProductHitsMatch(f.products.GetOr([]), query);
    CategoryHitsMatch(f.categories.GetOr([]), query);
    TransactionHitsMatch(f.transactions.GetOr([]), query);
    TitlesConcat(ps, cs, query);
    TitlesConcat(ps + cs, ts, query);
  }

  lemma TitlesConcat(a: seq<SearchResult>, b: seq<SearchResult>, query: string)
    requires TitlesHold(a, query) && TitlesHold(b, query)
    ensures TitlesHold(a + b, query)
  {
    forall i | 0 <= i < |a + b| ensures Text.Matches((a + b)[i].title, query) {
      if i < |a| {
        assert (a + b)[i] == a[i];
      } else {
        assert (a + b)[i] == b[i - |a|];
      }
    }
  }

  lemma ProductsComplete(products: seq<Product>, query: string)
    ensures forall i :: 0 <= i < |products| && ProductMatches(query, products[i]) ==>
              ProductResult(products[i]) in ProductResults(products, query)
  {
    var hits := Seqs.Filter(products, p => ProductMatches(query, p));
    forall i | 0 <= i < |products| && ProductMatches(query, products[i])
      ensures ProductResult(products[i]) in ProductResults(products, query)
    {
      var j :| 0 <= j < |hits| && hits[j] == products[i];
      assert ProductResults(products, query)[j] == ProductResult(products[i]);
    }
  }

  lemma CategoriesComplete(categories: seq<Category>, query: string)
    ensures forall i :: 0 <= i < |categories| && CategoryMatches(query, categories[i]) ==>
              CategoryResult(categories[i]) in CategoryResults(categories, query)
  {
    var hits := Seqs.Filter(categories, c => CategoryMatches(query, c));
    forall i | 0 <= i < |categories| && CategoryMatches(query, categories[i])
      ensures CategoryResult(categories[i]) in CategoryResults(categories, query)
    {
      var j :| 0 <= j < |hits| && hits[j] == categories[i];
      assert CategoryResults(categories, query)[j] == CategoryResult(categories[i]);
    }
  }

  lemma TransactionsComplete(transactions: seq<Transaction>, query: string)
    ensures forall i :: 0 <= i < |transactions| && TransactionMatches(query, transactions[i]) ==>
              TransactionResult(transactions[i]) in TransactionResults(transactions, query)
  {
    var hits := Seqs.Filter(transactions, t => TransactionMatches(query, t));
    forall i | 0 <= i < |transactions| && TransactionMatches(query, transactions[i])
      ensures TransactionResult(transactions[i]) in TransactionResults(transactions, query)
    {
      var j :| 0 <= j < |hits| && hits[j] == transactions[i];
      assert TransactionResults(transactions, query)[j] == TransactionResult(transactions[i]);
    }
  }

  /** No matching product, category or transaction is missed. */
  lemma ResultsComplete(f: Fetched, query: string)
    ensures var ps := f.products.GetOr([]);
      forall i :: 0 <= i < |ps| && ProductMatches(query, ps[i]) ==> ProductResult(ps[i]) in Results(f, query)
    ensures var cs := f.categories.GetOr([]);
      forall i :: 0 <= i < |cs| && CategoryMatches(query, cs[i]) ==> CategoryResult(cs[i]) in Results(f, query)
    ensures var ts := f.transactions.GetOr([]);
      forall i :: 0 <= i < |ts| && TransactionMatches(query, ts[i]) ==> TransactionResult(ts[i]) in Results(f, query)
  {
    ProductsComplete(f.products.GetOr([]), query);
    CategoriesComplete(f.categories.GetOr([]), query);
    TransactionsComplete(f.transactions.GetOr([]), query);
  }

  /** A transaction without a product never shows up. */
  lemma NoProductNoHit(transactions: seq<Transaction>, t: Transaction, query: string)
    requires t.productName.None?
    ensures TransactionResults(transactions + [t], query) == TransactionResults(transactions, query)
  {
    assert (transactions + [t])[..|transactions|] == transactions;
  }

  /** Only the lowered query is ever used: a query and its lowered form give the same results. */
  lemma LoweredQuerySameResults(f: Fetched, query: string)
    ensures Results(f, Text.ToLower(query)) == Results(f, query)
  {
    var lq := Text.ToLower(query);
    var ps, cs, ts := f.products.GetOr([]), f.categories.GetOr([]), f.transactions.GetOr([]);
    forall i | 0 <= i < |ps| ensures ProductMatches(lq, ps[i]) == ProductMatches(query, ps[i]) {
      Text.MatchesLoweredQuery(ps[i].name, query);
    }
    forall i | 0 <= i < |cs| ensures CategoryMatches(lq, cs[i]) == CategoryMatches(query, cs[i]) {
      Text.MatchesLoweredQuery(cs[i].name, query);
    }
    forall i | 0 <= i < |ts| ensures TransactionMatches(lq, ts[i]) == TransactionMatches(query, ts[i]) {
      if ts[i].productName.Some? {
        Text.MatchesLoweredQuery(ts[i].productName.value, query);
      }
    }
    Seqs.FilterAgree(ps, p => ProductMatches(lq, p), p => ProductMatches(query, p));
    Seqs.FilterAgree(cs, c => CategoryMatches(lq, c), c => CategoryMatches(query, c));
    Seqs.FilterAgree(ts, t => TransactionMatches(lq, t), t => TransactionMatches(query, t));
  }

  class Store {
    var query: string
    var results: seq<SearchResult>
    var isLoading: bool

    constructor ()
      ensures query == "" && results == [] && !isLoading
    {
      query := "";
      results := [];
      isLoading := false;
    }

    method SetQuery(q: string)
      modifies this
      ensures query == q && results == old(results) && isLoading == old(isLoading)
    {
      query := q;
    }

    method ClearResults()
      modifies this
      ensures results == [] && query == old(query) && isLoading == old(isLoading)
    {
      results := [];
    }

    /**
     * `search`: an empty query only clears the results and requests nothing; any other
     * query, white space included, is searched. A successful fetch replaces the results,
     * a failed one (`None`) empties them; either way loading ends.
     */
    method Search(outcome: Option<Fetched>) returns (requested: bool)
      modifies this
      ensures requested <==> old(query) != ""
      ensures query == old(query)
      ensures !requested ==> results == [] && isLoading == old(isLoading)
      ensures requested && outcome.Some? ==> results == Results(outcome.value, query) && !isLoading
      ensures requested && outcome.None? ==> results == [] && !isLoading
    {
      if query == "" {
        results := [];
        return false;
      }
      isLoading := true;
      if outcome.Some? {
        results, isLoading := Results(outcome.value, query), false;
      } else {
        results, isLoading := [], false;
      }
      return true;
    }
  }
}
