/**
 * The Analytics page's figures: revenue per month, the number of orders, the total
 * revenue and the number of products low on stock. `monthOf` stands for
 * `new Date(t.date).getMonth()`, which depends on the local time zone; it is `None` for a
 * date that does not parse, where `getMonth` gives `NaN`.
 */
module Analytics {
  import opened Wrappers
  import Seqs
  import Inventory

  /** What `getMonth` returns: 0 for January up to 11 for December. */
  type Month = m: nat | m < 12

  /** The month of a transaction's date, or `None` when the date does not parse. */
  type MonthOf = Inventory.Transaction -> Option<Month>

  /** The sale falls in month `m`. */
  predicate InMonth(monthOf: MonthOf, t: Inventory.Transaction, m: nat) {
    monthOf(t).Some? && monthOf(t).value == m
  }

  /** The amount of a sale whose date parses, and 0 for one whose date does not. */
  function DatedAmount(monthOf: MonthOf, t: Inventory.Transaction): int {
    if monthOf(t).Some? then Inventory.SaleAmount(t) else 0
  }

  /** The amount of a sale whose date does not parse, and 0 for one whose date does. */
  function UndatedAmount(monthOf: MonthOf, t: Inventory.Transaction): int {
    if monthOf(t).Some? then 0 else Inventory.SaleAmount(t)
  }

  /**
   * The revenue series as JavaScript holds it: `Array(6).fill(0)` gives six zeros; writing
   * a month at or past the end grows the array, leaving holes (`None`) in between.
   */
  type Series = seq<Option<int>>

  function Seed(): (s: Series)
    ensures |s| == 6 && forall m :: 0 <= m < 6 ==> s[m] == Some(0)
  {
    seq(6, _ => Some(0))
  }

  function Holes(n: nat): (s: Series)
    ensures |s| == n && forall j :: 0 <= j < n ==> s[j] == None
  {
    seq(n, _ => None)
  }

  /** `acc[month] = (acc[month] || 0) + amount` on a JavaScript array. */
  function Write(acc: Series, month: nat, amount: int): (r: Series)
    ensures |r| == if month < |acc| then |acc| else month + 1
    ensures r[month] == Some(if month < |acc| then acc[month].GetOr(0) + amount else amount)
    ensures forall j :: 0 <= j < |r| && j != month ==> r[j] == if j < |acc| then acc[j] else None
  {
    if month < |acc| then acc[month := Some(acc[month].GetOr(0) + amount)]
    else acc + Holes(month - |acc|) + [Some(amount)]
  }

  /**
   * The series after the `reduce` over the sales, one write per sale in order. A sale
   * whose date does not parse writes the property `NaN`, which is not an array index, so
   * the series stays as it was.
   */
  function Buckets(sales: seq<Inventory.Transaction>, monthOf: MonthOf): Series
    decreases |sales|
  {
    if sales == [] then Seed()
    else
      var t, prev := sales[|sales| - 1], Buckets(sales[..|sales| - 1], monthOf);
      match monthOf(t)
      case Some(m) => Write(prev, m, Inventory.SaleAmount(t))
      case None => prev
  }

  /** The sum of `price * quantity` over the sales made in month `m`. */
  function MonthRevenue(sales: seq<Inventory.Transaction>, monthOf: MonthOf, m: nat): int {
    Seqs.Sum(sales, t => if InMonth(monthOf, t, m) then Inventory.SaleAmount(t) else 0)
  }

  ghost predicate HasSaleIn(sales: seq<Inventory.Transaction>, monthOf: MonthOf, m: nat) {
    exists i :: 0 <= i < |sales| && InMonth(monthOf, sales[i], m)
  }

  /** Six slots, or one past the latest month a sale fell in. */
  function Width(sales: seq<Inventory.Transaction>, monthOf: MonthOf): nat
    decreases |sales|
  {
    if sales == [] then 6
    else
      var w := Width(sales[..|sales| - 1], monthOf);
      match monthOf(sales[|sales| - 1])
      case Some(m) => if m < w then w else m + 1
      case None => w
  }

  /** Every sale's month lies inside the width, which is at least six. */
  lemma {:induction false} WidthBound(sales: seq<Inventory.Transaction>, monthOf: MonthOf)
    ensures Width(sales, monthOf) >= 6
    ensures forall i :: 0 <= i < |sales| && monthOf(sales[i]).Some? ==> monthOf(sales[i]).value < Width(sales, monthOf)
    decreases |sales|
  {
    if sales != [] {
      var n := |sales| - 1;
      WidthBound(sales[..n], monthOf);
      assert forall i :: 0 <= i < n ==> sales[..n][i] == sales[i];
    }
  }

  /** A month with no sale has no revenue. */
  lemma NoSaleNoRevenue(sales: seq<Inventory.Transaction>, monthOf: MonthOf, m: nat)
    requires !HasSaleIn(sales, monthOf, m)
    ensures MonthRevenue(sales, monthOf, m) == 0
  {
    Seqs.SumZero(sales, t => if InMonth(monthOf, t, m) then Inventory.SaleAmount(t) else 0);
  }

  lemma HasSaleSnoc(sales: seq<Inventory.Transaction>, monthOf: MonthOf, m: nat)
    requires sales != []
    ensures var n := |sales| - 1;
      HasSaleIn(sales, monthOf, m) <==> HasSaleIn(sales[..n], monthOf, m) || InMonth(monthOf, sales[n], m)
  {
    var n := |sales| - 1;
    if HasSaleIn(sales[..n], monthOf, m) {
      var i :| 0 <= i < n && InMonth(monthOf, sales[..n][i], m);
      assert sales[i] == sales[..n][i];
    }
    if HasSaleIn(sales, monthOf, m) && !InMonth(monthOf, sales[n], m) {
      var i :| 0 <= i < |sales| && InMonth(monthOf, sales[i], m);
      assert sales[..n][i] == sales[i];
    }
  }

  /**
   * The series is six slots wide, or one past the latest month with a sale. Slot `m`
   * holds that month's revenue when it is one of the six seeded slots or some sale fell
   * in it (so untouched seeded slots stay 0), and is a hole otherwise.
   */
  lemma {:induction false} BucketsContent(sales: seq<Inventory.Transaction>, monthOf: MonthOf)
    ensures var b := Buckets(sales, monthOf);
      && |b| == Width(sales, monthOf)
      && forall m :: 0 <= m < |b| ==>
           b[m] == if m < 6 || HasSaleIn(sales, monthOf, m) then Some(MonthRevenue(sales, monthOf, m)) else None
    decreases |sales|
  {
    if sales != [] {
      var n := |sales| - 1;
      var init, t := sales[..n], sales[n];
      BucketsContent(init, monthOf);
      var b := Buckets(sales, monthOf);
      WidthBound(init, monthOf);
      forall m | 0 <= m < |b|
        ensures b[m] == if m < 6 || HasSaleIn(sales, monthOf, m) then Some(MonthRevenue(sales, monthOf, m)) else None
      {
        HasSaleSnoc(sales, monthOf, m);
        if !HasSaleIn(init, monthOf, m) {
          NoSaleNoRevenue(init, monthOf, m);
        }
        assert MonthRevenue(sales, monthOf, m)
            == MonthRevenue(init, monthOf, m) + (if InMonth(monthOf, t, m) then Inventory.SaleAmount(t) else 0);
      }
    }
  }

  /** The number a slot contributes to the total; a hole contributes nothing. */
  function SlotValue(o: Option<int>): int {
    o.GetOr(0)
  }

  lemma WriteSum(acc: Series, month: nat, amount: int)
    ensures Seqs.Sum(Write(acc, month, amount), SlotValue) == Seqs.Sum(acc, SlotValue) + amount
  {
    if month < |acc| {
      Seqs.SumUpdate(acc, month, Some(acc[month].GetOr(0) + amount), SlotValue);
    } else {
      var holes := Holes(month - |acc|);
      Seqs.SumZero(holes, SlotValue);
      Seqs.SumConcat(acc, holes, SlotValue);
      Seqs.SumConcat(acc + holes, [Some(amount)], SlotValue);
      assert [Some(amount)][..0] == [];
    }
  }

  /**
   * The slots add up to the revenue of the sales whose date parses, however the months
   * are spread.
   */
  lemma {:induction false} BucketsTotal(sales: seq<Inventory.Transaction>, monthOf: MonthOf)
    ensures Seqs.Sum(Buckets(sales, monthOf), SlotValue) == Seqs.Sum(sales, t => DatedAmount(monthOf, t))
    decreases |sales|
  {
    if sales == [] {
      var s := Seed();
      Seqs.SumZero(s, SlotValue);
    } else {
      var n := |sales| - 1;
      BucketsTotal(sales[..n], monthOf);
      if monthOf(sales[n]).Some? {
        WriteSum(Buckets(sales[..n], monthOf), monthOf(sales[n]).value, Inventory.SaleAmount(sales[n]));
      }
    }
  }

  /** The two ways a write goes: into an existing slot, or past the end after a run of holes. */
  lemma WriteCases(acc: Series, month: nat, amount: int)
    ensures month < |acc| ==> Write(acc, month, amount) == acc[month := Some(acc[month].GetOr(0) + amount)]
    ensures month >= |acc| ==> Write(acc, month, amount) == acc + Holes(month - |acc|) + [Some(amount)]
  {
  }

  /** One more sale is one more write. */
  lemma BucketsStep(sales: seq<Inventory.Transaction>, i: nat, monthOf: MonthOf)
    requires i < |sales|
    ensures Buckets(sales[..i + 1], monthOf)
         == match monthOf(sales[i])
            case Some(m) => Write(Buckets(sales[..i], monthOf), m, Inventory.SaleAmount(sales[i]))
            case None => Buckets(sales[..i], monthOf)
  {
    assert sales[..i + 1][..i] == sales[..i];
  }

  /** The revenue chart's data: the sales only, folded into the series one by one. */
  method RevenueSeries(transactions: seq<Inventory.Transaction>, monthOf: MonthOf)
    returns (acc: Series)
    ensures acc == Buckets(Inventory.Sales(transactions), monthOf)
  {
    var sales := Inventory.Sales(transactions);
    acc := Seed();
    var i := 0;
    while i < |sales|
      invariant 0 <= i <= |sales|
      invariant acc == Buckets(sales[..i], monthOf)
    {
      var t := sales[i];
      BucketsStep(sales, i, monthOf);
      var amount := Inventory.SaleAmount(t);
      match monthOf(t) {
        case Some(month) =>
          WriteCases(acc, month, amount);
          if month < |acc| {
            acc := acc[month := Some(acc[month].GetOr(0) + amount)];
          } else {
            acc := acc + Holes(month - |acc|) + [Some(amount)];
          }
        case None =>
      }
      i := i + 1;
    }
    assert sales[..|sales|] == sales;
  }

  /** `totalRevenue`: `price * quantity` summed over the sales. */
  function TotalRevenue(transactions: seq<Inventory.Transaction>): int {
    Seqs.Sum(Inventory.Sales(transactions), Inventory.SaleAmount)
  }

  /** `totalOrders`: the number of sales; none exactly when no transaction is a sale. */
  function TotalOrders(transactions: seq<Inventory.Transaction>): (n: nat)
    ensures n <= |transactions|
    ensures n == 0 <==> forall i :: 0 <= i < |transactions| ==> !Inventory.IsSale(transactions[i])
  {
    Seqs.FilterEmpty(transactions, Inventory.IsSale);
    |Inventory.Sales(transactions)|
  }

  /** `lowStockCount`: the number of products at or under their threshold. */
  function LowStockCount(products: seq<Inventory.Product>): (n: nat)
    ensures n <= |products|
    ensures n == 0 <==> forall i :: 0 <= i < |products| ==> !Inventory.IsLowStock(products[i])
  {
    Seqs.FilterEmpty(products, Inventory.IsLowStock);
    |Inventory.LowStockProducts(products)|
  }

  /**
   * The revenue series and the revenue of the sales whose date does not parse add up to
   * `totalRevenue`; so the series sums to `totalRevenue` exactly when every sale's date
   * parses or the undated sales' amounts cancel out.
   */
  lemma SeriesMatchesRevenue(transactions: seq<Inventory.Transaction>, monthOf: MonthOf)
    ensures var sales := Inventory.Sales(transactions);
      Seqs.Sum(Buckets(sales, monthOf), SlotValue) + Seqs.Sum(sales, t => UndatedAmount(monthOf, t))
      == TotalRevenue(transactions)
  {
    var sales := Inventory.Sales(transactions);
    BucketsTotal(sales, monthOf);
    Seqs.SumAdd(sales, t => DatedAmount(monthOf, t), t => UndatedAmount(monthOf, t), Inventory.SaleAmount);
  }

  /** When every sale's date parses, the revenue series sums to `totalRevenue`. */
  lemma DatedSeriesMatchesRevenue(transactions: seq<Inventory.Transaction>, monthOf: MonthOf)
    requires forall i :: 0 <= i < |transactions| && Inventory.IsSale(transactions[i]) ==> monthOf(transactions[i]).Some?
    ensures Seqs.Sum(Buckets(Inventory.Sales(transactions), monthOf), SlotValue) == TotalRevenue(transactions)
  {
    var sales := Inventory.Sales(transactions);
    SeriesMatchesRevenue(transactions, monthOf);
    forall j | 0 <= j < |sales|
      ensures UndatedAmount(monthOf, sales[j]) == 0
    {
      assert sales[j] in multiset(transactions);
      var i :| 0 <= i < |transactions| && transactions[i] == sales[j];
    }
    Seqs.SumZero(sales, t => UndatedAmount(monthOf, t));
  }

  /**
   * A sale whose date does not parse leaves the chart as it was but still counts towards
   * `totalRevenue` and `totalOrders`.
   */
  lemma UndatedSaleOffChart(transactions: seq<Inventory.Transaction>, t: Inventory.Transaction, monthOf: MonthOf)
    requires Inventory.IsSale(t) && monthOf(t).None?
    ensures Buckets(Inventory.Sales(transactions + [t]), monthOf) == Buckets(Inventory.Sales(transactions), monthOf)
    ensures TotalRevenue(transactions + [t]) == TotalRevenue(transactions) + Inventory.SaleAmount(t)
    ensures TotalOrders(transactions + [t]) == TotalOrders(transactions) + 1
  {
    var xs := transactions + [t];
    assert xs[..|transactions|] == transactions;
    var sales := Inventory.Sales(transactions);
    assert Inventory.Sales(xs) == sales + [t];
    assert (sales + [t])[..|sales|] == sales;
  }

  /** A transaction that is not a sale changes none of the figures. */
  lemma NonSalesIgnored(transactions: seq<Inventory.Transaction>, t: Inventory.Transaction, monthOf: MonthOf)
    requires !Inventory.IsSale(t)
    ensures Inventory.Sales(transactions + [t]) == Inventory.Sales(transactions)
    ensures Buckets(Inventory.Sales(transactions + [t]), monthOf) == Buckets(Inventory.Sales(transactions), monthOf)
    ensures TotalOrders(transactions + [t]) == TotalOrders(transactions)
    ensures TotalRevenue(transactions + [t]) == TotalRevenue(transactions)
  {
    assert (transactions + [t])[..|transactions|] == transactions;
  }
}
