/**
 * The Dashboard page's four counters, derived once from the fetched products,
 * categories and transactions. The fetch is an input: `None` when any of the three
 * requests fails.
 */
module Dashboard {
  import opened Wrappers
  import Seqs
  import Inventory

  datatype Stats = Stats(totalProducts: nat, totalCategories: nat, totalSales: int, lowStockProducts: nat)

  datatype Fetched = Fetched(products: seq<Inventory.Product>, categories: seq<Inventory.Category>,
                             transactions: seq<Inventory.Transaction>)

  /** The page's state; `toast` is the error toast raised, if any. */
  datatype Page = Page(isLoading: bool, stats: Stats, toast: Option<string>)

  const NoStats := Stats(0, 0, 0, 0)

  /** Loading, with every counter at zero. */
  function Initial(): Page {
    Page(true, NoStats, None)
  }

  /** A sale's total, taken as zero for any other kind of transaction. */
  function SaleOrZero(t: Inventory.Transaction): int {
    if Inventory.IsSale(t) then Inventory.SaleAmount(t) else 0
  }

  /** `totalSales`: `price * quantity` summed over the sales. */
  function TotalSales(transactions: seq<Inventory.Transaction>): int {
    Seqs.Sum(Inventory.Sales(transactions), Inventory.SaleAmount)
  }

  /**
   * Only sales count: the total is the sum over all transactions with every other kind
   * contributing zero, and it is zero when there is no sale at all (or no transaction).
   */
  lemma TotalSalesOnlySales(transactions: seq<Inventory.Transaction>)
    ensures TotalSales(transactions) == Seqs.Sum(transactions, SaleOrZero)
    ensures (forall i :: 0 <= i < |transactions| ==> !Inventory.IsSale(transactions[i])) ==> TotalSales(transactions) == 0
  {
    Seqs.SumFilter(transactions, Inventory.IsSale, Inventory.SaleAmount, SaleOrZero);
    if forall i :: 0 <= i < |transactions| ==> !Inventory.IsSale(transactions[i]) {
      Seqs.SumZero(transactions, SaleOrZero);
    }
  }

  /** The counters of a successful fetch. */
  function ComputeStats(f: Fetched): (s: Stats)
    ensures s.totalProducts == |f.products| && s.totalCategories == |f.categories|
    ensures s.lowStockProducts == |Inventory.LowStockProducts(f.products)| <= s.totalProducts
    ensures s.totalSales == TotalSales(f.transactions)
  {
    Stats(|f.products|, |f.categories|, TotalSales(f.transactions), |Inventory.LowStockProducts(f.products)|)
  }

  /**
   * `fetchDashboardData`: on success the counters are replaced; on failure they keep
   * their values and an error toast is raised. Loading ends either way.
   */
  function AfterFetch(before: Page, outcome: Option<Fetched>): (after: Page)
    ensures !after.isLoading
    ensures outcome.Some? ==> after.stats == ComputeStats(outcome.value) && after.toast == None
    ensures outcome.None? ==> after.stats == before.stats && after.toast == Some("Failed to load dashboard data")
  {
    match outcome
    case Some(f) => Page(false, ComputeStats(f), None)
    case None => Page(false, before.stats, Some("Failed to load dashboard data"))
  }

  /** After a failed first fetch the page shows zeros and has stopped loading. */
  lemma FailedFetchShowsZeros()
    ensures AfterFetch(Initial(), None) == Page(false, NoStats, Some("Failed to load dashboard data"))
  {
  }
}
