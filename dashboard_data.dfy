/**
 * `useDashboardData`: the hook that fetches products and transactions and derives the
 * dashboard's metrics. Its products are the API's, whose threshold field is `threshold`
 * and may be absent.
 */
module DashboardData {
  import opened Wrappers
  import Seqs
  import Inventory

  datatype ApiProduct = ApiProduct(id: string, name: string, sku: string, price: int, quantity: int,
                                   threshold: Option<int>)

  /**
   * `product.quantity <= product.threshold`, inclusive; against an absent threshold the
   * comparison is with `undefined`, which is false.
   */
  predicate IsLow(p: ApiProduct) {
    p.threshold.Some? && p.quantity <= p.threshold.value
  }

  function Value(p: ApiProduct): int {
    p.price * p.quantity
  }

  datatype Data = Data(totalProducts: nat, lowStockProducts: nat,
                       recentTransactions: seq<Inventory.Transaction>, stockValue: int)

  datatype Hook = Hook(data: Data, isLoading: bool, error: Option<string>)

  function Initial(): Hook {
    Hook(Data(0, 0, [], 0), true, None)
  }

  function Min(a: nat, b: nat): nat {
    if a <= b then a else b
  }

  /** `products.reduce((total, product) => total + product.price * product.quantity, 0)`. */
  function StockValue(products: seq<ApiProduct>): int {
    Seqs.Sum(products, Value)
  }

  /** The stock value splits over a split of the product list. */
  lemma StockValueAdditive(a: seq<ApiProduct>, b: seq<ApiProduct>)
    ensures StockValue(a + b) == StockValue(a) + StockValue(b)
  {
    Seqs.SumConcat(a, b, Value);
  }

  /**
   * The metrics: the number of products, how many are at or under their threshold
   * (none without one), the first five transactions (all of them when there are fewer),
   * in order, and the stock value.
   */
  function Metrics(products: seq<ApiProduct>, transactions: seq<Inventory.Transaction>): (d: Data)
    ensures d.totalProducts == |products|
    ensures d.lowStockProducts == |Seqs.Filter(products, IsLow)| <= |products|
    ensures d.lowStockProducts == 0 <==> forall i :: 0 <= i < |products| ==> !IsLow(products[i])
    ensures |d.recentTransactions| == Min(5, |transactions|)
    ensures forall i :: 0 <= i < |d.recentTransactions| ==> d.recentTransactions[i] == transactions[i]
    ensures d.stockValue == StockValue(products)
  {
    Seqs.FilterEmpty(products, IsLow);
    Data(|products|, |Seqs.Filter(products, IsLow)|, transactions[..Min(5, |transactions|)], StockValue(products))
  }

  /** Products without a threshold are never counted as low. */
  lemma NoThresholdNotLow(products: seq<ApiProduct>)
    requires forall i :: 0 <= i < |products| ==> products[i].threshold.None?
    ensures Metrics(products, []).lowStockProducts == 0
  {
  }

  /**
   * The fetch's outcome: on success the data is replaced; on failure the data is kept
   * and the error is set. Loading ends either way.
   */
  function AfterFetch(before: Hook, outcome: Option<(seq<ApiProduct>, seq<Inventory.Transaction>)>): (after: Hook)
    ensures !after.isLoading
    ensures outcome.Some? ==> after.data == Metrics(outcome.value.0, outcome.value.1) && after.error == before.error
    ensures outcome.None? ==> after.data == before.data && after.error == Some("Failed to fetch dashboard data")
  {
    match outcome
    case Some((products, transactions)) => Hook(Metrics(products, transactions), false, before.error)
    case None => Hook(before.data, false, Some("Failed to fetch dashboard data"))
  }

  /** A failed first fetch leaves the zeros in place. */
  lemma FailedFetchKeepsZeros()
    ensures AfterFetch(Initial(), None).data == Data(0, 0, [], 0)
  {
  }
}
