/**
 * The inventory helpers in src/services/mockData.ts: look-ups by id, the low-stock
 * filter, the stock valuation, the top-selling ranking and the three report
 * generators. The module-level mock arrays become parameters; money is held in
 * hundredths (an integer), so `toFixed(2)` is exact.
 */
module Inventory {
  import opened Wrappers
  import Seqs
  import Text
  import Json

  /** "sale" and "restock" in the mock data; "stock-in" and "stock-out" in the API service. */
  datatype TxType = Sale | Restock | StockIn | StockOut

  function TxTypeName(t: TxType): string {
    match t
    case Sale => "sale"
    case Restock => "restock"
    case StockIn => "stock-in"
    case StockOut => "stock-out"
  }

  datatype Category = Category(id: string, name: string, description: string, productCount: int)

  /** `category` holds the id of the product's category; `price` is in hundredths. */
  datatype Product = Product(
    id: string, name: string, description: string, sku: string, category: string,
    price: int, quantity: int, lowStockThreshold: int)

  /** `price` is the unit price in hundredths; `date` is an ISO timestamp. */
  datatype Transaction = Transaction(
    id: string, kind: TxType, productId: string, quantity: int, price: int, date: string)

  /** The low-stock test, inclusive: a product exactly at its threshold is low. */
  predicate IsLowStock(p: Product) {
    p.quantity <= p.lowStockThreshold
  }

  predicate IsSale(t: Transaction) {
    t.kind == Sale
  }

  function StockValue(p: Product): int {
    p.price * p.quantity
  }

  /** `t.quantity * t.price`, the sale's total. */
  function SaleAmount(t: Transaction): int {
    t.quantity * t.price
  }

  /** `getCategoryById`: the first category with that id, or nothing. */
  function GetCategoryById(categories: seq<Category>, id: string): (r: Option<Category>)
    ensures r.None? <==> forall i :: 0 <= i < |categories| ==> categories[i].id != id
    ensures forall i :: (0 <= i < |categories| && categories[i].id == id
      && (forall j :: 0 <= j < i ==> categories[j].id != id)) ==> r == Some(categories[i])
  {
    Seqs.Find(categories, (c: Category) => c.id == id)
  }

  /** `getProductById`: the first product with that id, or nothing. */
  function GetProductById(products: seq<Product>, id: string): (r: Option<Product>)
    ensures r.None? <==> forall i :: 0 <= i < |products| ==> products[i].id != id
    ensures forall i :: (0 <= i < |products| && products[i].id == id
      && (forall j :: 0 <= j < i ==> products[j].id != id)) ==> r == Some(products[i])
  {
    Seqs.Find(products, (p: Product) => p.id == id)
  }

  /**
   * `getProductsWithLowStock`: exactly the products at or below their threshold,
   * each as often as in the input, in input order.
   */
  function LowStockProducts(products: seq<Product>): (r: seq<Product>)
    ensures |r| <= |products|
    ensures forall p :: p in r ==> IsLowStock(p)
    ensures forall i :: 0 <= i < |products| && IsLowStock(products[i]) ==> products[i] in r
    ensures forall p :: p in products ==> multiset(r)[p] == if IsLowStock(p) then multiset(products)[p] else 0
    ensures Seqs.IsSubsequence(r, products)
  {
    Seqs.FilterCounts(products, IsLowStock);
    Seqs.Filter(products, IsLowStock)
  }

  /** `getTotalInventoryValue`: price times quantity summed over the products, 0 for none. */
  function TotalInventoryValue(products: seq<Product>): (v: int)
    ensures products == [] ==> v == 0
  {
    Seqs.Sum(products, StockValue)
  }

  /** The valuation is additive over a split of the product list. */
  lemma InventoryValueAdditive(a: seq<Product>, b: seq<Product>)
    ensures TotalInventoryValue(a + b) == TotalInventoryValue(a) + TotalInventoryValue(b)
  {
    Seqs.SumConcat(a, b, StockValue);
  }

  /** With no negative price or quantity the valuation is never negative. */
  lemma {:induction false} InventoryValueNonNegative(products: seq<Product>)
    requires forall i :: 0 <= i < |products| ==> products[i].price >= 0 && products[i].quantity >= 0
    ensures TotalInventoryValue(products) >= 0
    decreases |products|
  {
    if products != [] {
      InventoryValueNonNegative(products[..|products| - 1]);
    }
  }

  /** Sold quantity of product `id` over a list of sales. */
  function SoldQuantity(sales: seq<Transaction>, id: string): int
    decreases |sales|
  {
    if sales == [] then 0
    else
      var last := sales[|sales| - 1];
      SoldQuantity(sales[..|sales| - 1], id) + (if last.productId == id then last.quantity else 0)
  }

  /** Ids of the products a list of sales refers to. */
  function SoldIds(sales: seq<Transaction>): set<string>
    decreases |sales|
  {
    if sales == [] then {} else SoldIds(sales[..|sales| - 1]) + {sales[|sales| - 1].productId}
  }

  lemma {:induction false} UnsoldQuantity(sales: seq<Transaction>, id: string)
    requires id !in SoldIds(sales)
    ensures SoldQuantity(sales, id) == 0
    decreases |sales|
  {
    if sales != [] {
      UnsoldQuantity(sales[..|sales| - 1], id);
    }
  }

  function TxQuantity(t: Transaction): int {
    t.quantity
  }

  /** One ranking entry: the product looked up by the entry's key, the key itself and the summed quantity. */
  datatype TopSeller = TopSeller(product: Option<Product>, productId: string, quantity: int)

  function EntryQuantity(e: TopSeller): int {
    e.quantity
  }

  function EntryIds(entries: seq<TopSeller>): set<string> {
    set i | 0 <= i < |entries| :: entries[i].productId
  }

  ghost predicate DistinctIds(entries: seq<TopSeller>) {
    forall i, j :: 0 <= i < j < |entries| ==> entries[i].productId != entries[j].productId
  }

  ghost predicate SortedByQuantity(entries: seq<TopSeller>) {
    forall i, j :: 0 <= i < j < |entries| ==> entries[i].quantity >= entries[j].quantity
  }

  /** Insert into a list sorted by non-increasing quantity, after every entry with a larger quantity. */
  function Insert(e: TopSeller, sorted: seq<TopSeller>): (r: seq<TopSeller>)
    ensures multiset(r) == multiset(sorted) + multiset{e}
    decreases |sorted|
  {
    if sorted == [] || e.quantity >= sorted[0].quantity then [e] + sorted
    else
      assert sorted == [sorted[0]] + sorted[1..];
      [sorted[0]] + Insert(e, sorted[1..])
  }

  /** Every entry of a sorted insertion is the inserted one or one of the list's. */
  lemma InsertMember(e: TopSeller, sorted: seq<TopSeller>, x: TopSeller)
    requires x in Insert(e, sorted)
    ensures x == e || x in sorted
  {
    assert x in multiset(Insert(e, sorted));
  }

  lemma ConsSorted(h: TopSeller, rest: seq<TopSeller>)
    requires SortedByQuantity(rest)
    requires forall x :: x in rest ==> x.quantity <= h.quantity
    ensures SortedByQuantity([h] + rest)
  {
    var r := [h] + rest;
    forall i, j | 0 <= i < j < |r| ensures r[i].quantity >= r[j].quantity {
      assert r[j] == rest[j - 1];
      if i > 0 {
        assert r[i] == rest[i - 1];
      }
    }
  }

  lemma {:induction false} InsertSorted(e: TopSeller, sorted: seq<TopSeller>)
    requires SortedByQuantity(sorted)
    ensures SortedByQuantity(Insert(e, sorted))
    decreases |sorted|
  {
    if sorted == [] || e.quantity >= sorted[0].quantity {
      ConsSorted(e, sorted);
    } else {
      var tail := sorted[1..];
      var rest := Insert(e, tail);
      assert SortedByQuantity(tail) by {
        forall i, j | 0 <= i < j < |tail| ensures tail[i].quantity >= tail[j].quantity {
          assert tail[i] == sorted[i + 1] && tail[j] == sorted[j + 1];
        }
      }
      InsertSorted(e, tail);
      forall x | x in rest ensures x.quantity <= sorted[0].quantity {
        InsertMember(e, tail, x);
        if x != e {
          var k :| 0 <= k < |tail| && tail[k] == x;
          assert sorted[k + 1] == x;
        }
      }
      ConsSorted(sorted[0], rest);
    }
  }

  /**
   * `entries.sort((a, b) => b.quantity - a.quantity)`: a stable sort by non-increasing
   * quantity (insertion sort), a permutation of its input.
   */
  function SortByQuantity(entries: seq<TopSeller>): (r: seq<TopSeller>)
    ensures SortedByQuantity(r)
    ensures multiset(r) == multiset(entries)
    decreases |entries|
  {
    if entries == [] then []
    else
      assert entries == [entries[0]] + entries[1..];
      var s := SortByQuantity(entries[1..]);
      InsertSorted(entries[0], s);
      Insert(entries[0], s)
  }

  lemma ConsDistinct(h: TopSeller, rest: seq<TopSeller>)
    requires DistinctIds(rest)
    requires forall x :: x in rest ==> x.productId != h.productId
    ensures DistinctIds([h] + rest)
  {
    var r := [h] + rest;
    forall i, j | 0 <= i < j < |r| ensures r[i].productId != r[j].productId {
      assert r[j] == rest[j - 1];
      if i > 0 {
        assert r[i] == rest[i - 1];
      }
    }
  }

  lemma {:induction false} InsertKeepsDistinct(e: TopSeller, sorted: seq<TopSeller>)
    requires DistinctIds(sorted)
    requires e.productId !in EntryIds(sorted)
    ensures DistinctIds(Insert(e, sorted))
    decreases |sorted|
  {
    if sorted == [] || e.quantity >= sorted[0].quantity {
      ConsDistinct(e, sorted);
    } else {
      var tail := sorted[1..];
      var rest := Insert(e, tail);
      assert DistinctIds(tail) by {
        forall i, j | 0 <= i < j < |tail| ensures tail[i].productId != tail[j].productId {
          assert tail[i] == sorted[i + 1] && tail[j] == sorted[j + 1];
        }
      }
      assert e.productId !in EntryIds(tail) by {
        forall i | 0 <= i < |tail| ensures tail[i].productId != e.productId {
          assert tail[i] == sorted[i + 1];
        }
      }
      InsertKeepsDistinct(e, tail);
      forall x | x in rest ensures x.productId != sorted[0].productId {
        InsertMember(e, tail, x);
        if x != e {
          var k :| 0 <= k < |tail| && tail[k] == x;
          assert sorted[k + 1] == x;
        } else {
          assert sorted[0].productId in EntryIds(sorted);
        }
      }
      ConsDistinct(sorted[0], rest);
    }
  }

  lemma {:induction false} SortKeepsDistinct(entries: seq<TopSeller>)
    requires DistinctIds(entries)
    ensures DistinctIds(SortByQuantity(entries))
    ensures EntryIds(SortByQuantity(entries)) == EntryIds(entries)
    decreases |entries|
  {
    if entries != [] {
      var tail := entries[1..];
      assert DistinctIds(tail) by {
        forall i, j | 0 <= i < j < |tail| ensures tail[i].productId != tail[j].productId {
          assert tail[i] == entries[i + 1] && tail[j] == entries[j + 1];
        }
      }
      SortKeepsDistinct(tail);
      var s := SortByQuantity(tail);
      assert entries[0].productId !in EntryIds(s) by {
        forall i | 0 <= i < |tail| ensures tail[i].productId != entries[0].productId {
          assert tail[i] == entries[i + 1];
        }
      }
      InsertKeepsDistinct(entries[0], s);
    }
    SortKeepsIds(entries);
  }

  lemma SameElements(a: seq<TopSeller>, b: seq<TopSeller>)
    requires multiset(a) == multiset(b)
    ensures forall x :: x in a <==> x in b
  {
    forall x ensures x in a <==> x in b {
      assert x in a <==> x in multiset(a);
      assert x in b <==> x in multiset(b);
    }
  }

  /** Sorting keeps the set of keys, since it keeps every entry. */
  lemma SortKeepsIds(entries: seq<TopSeller>)
    ensures EntryIds(SortByQuantity(entries)) == EntryIds(entries)
  {
    var r := SortByQuantity(entries);
    SameElements(r, entries);
    forall id | id in EntryIds(r) ensures id in EntryIds(entries) {
      var i :| 0 <= i < |r| && r[i].productId == id;
      assert r[i] in entries;
    }
    forall id | id in EntryIds(entries) ensures id in EntryIds(r) {
      var j :| 0 <= j < |entries| && entries[j].productId == id;
      assert entries[j] in r;
    }
  }

  lemma SumOfSingletonFront(e: TopSeller, s: seq<TopSeller>)
    ensures Seqs.Sum([e] + s, EntryQuantity) == e.quantity + Seqs.Sum(s, EntryQuantity)
  {
    Seqs.SumConcat([e], s, EntryQuantity);
    assert [e][..0] == [];
  }

  lemma {:induction false} InsertKeepsTotal(e: TopSeller, sorted: seq<TopSeller>)
    ensures Seqs.Sum(Insert(e, sorted), EntryQuantity) == e.quantity + Seqs.Sum(sorted, EntryQuantity)
    decreases |sorted|
  {
    if sorted == [] || e.quantity >= sorted[0].quantity {
      SumOfSingletonFront(e, sorted);
    } else {
      InsertKeepsTotal(e, sorted[1..]);
      SumOfSingletonFront(sorted[0], Insert(e, sorted[1..]));
      SumOfSingletonFront(sorted[0], sorted[1..]);
      assert [sorted[0]] + sorted[1..] == sorted;
    }
  }

  /** Sorting keeps the total quantity. */
  lemma {:induction false} SortKeepsTotal(entries: seq<TopSeller>)
    ensures Seqs.Sum(SortByQuantity(entries), EntryQuantity) == Seqs.Sum(entries, EntryQuantity)
    decreases |entries|
  {
    if entries != [] {
      SortKeepsTotal(entries[1..]);
      InsertKeepsTotal(entries[0], SortByQuantity(entries[1..]));
      SumOfSingletonFront(entries[0], entries[1..]);
      assert [entries[0]] + entries[1..] == entries;
    }
  }

  /** Sum of the accumulator's values over the keys in `order`. */
  function AccTotal(order: seq<string>, acc: map<string, int>): int
    requires forall k :: k in order ==> k in acc
    decreases |order|
  {
    if order == [] then 0 else AccTotal(order[..|order| - 1], acc) + acc[order[|order| - 1]]
  }

  lemma {:induction false} AccTotalIgnores(order: seq<string>, acc: map<string, int>, k: string, v: int)
    requires forall x :: x in order ==> x in acc
    requires k !in order
    ensures AccTotal(order, acc[k := v]) == AccTotal(order, acc)
    decreases |order|
  {
    if order != [] {
      AccTotalIgnores(order[..|order| - 1], acc, k, v);
    }
  }

  lemma {:induction false} AccTotalBump(order: seq<string>, acc: map<string, int>, k: string, q: int)
    requires forall x :: x in order ==> x in acc
    requires forall a, b :: 0 <= a < b < |order| ==> order[a] != order[b]
    requires k in order
    ensures AccTotal(order, acc[k := acc[k] + q]) == AccTotal(order, acc) + q
    decreases |order|
  {
    var init, last := order[..|order| - 1], order[|order| - 1];
    if last == k {
      assert k !in init by {
        forall a | 0 <= a < |init| ensures init[a] != k {
          assert init[a] == order[a];
        }
      }
      AccTotalIgnores(init, acc, k, acc[k] + q);
    } else {
      assert k in init by {
        var a :| 0 <= a < |order| && order[a] == k;
        assert init[a] == k;
      }
      AccTotalBump(init, acc, k, q);
    }
  }

  /** `Object.entries(acc).map(...)` in key order, each entry's product looked up by its key. */
  function Entries(order: seq<string>, acc: map<string, int>, products: seq<Product>): (r: seq<TopSeller>)
    requires forall k :: k in order ==> k in acc
    ensures |r| == |order|
    ensures forall i :: 0 <= i < |order| ==> r[i] == TopSeller(GetProductById(products, order[i]), order[i], acc[order[i]])
  {
    seq(|order|, i requires 0 <= i < |order| => TopSeller(GetProductById(products, order[i]), order[i], acc[order[i]]))
  }

  lemma {:induction false} EntriesTotal(order: seq<string>, acc: map<string, int>, products: seq<Product>)
    requires forall k :: k in order ==> k in acc
    ensures Seqs.Sum(Entries(order, acc, products), EntryQuantity) == AccTotal(order, acc)
    decreases |order|
  {
    if order != [] {
      var init := order[..|order| - 1];
      EntriesTotal(init, acc, products);
      assert Entries(order, acc, products)[..|order| - 1] == Entries(init, acc, products);
    }
  }

  /** Total quantity over a list of sales. */
  function TotalSold(sales: seq<Transaction>): int {
    Seqs.Sum(sales, TxQuantity)
  }

  /**
   * `order` lists the accumulator's keys without repeats in first-sale order, the keys are
   * the sold ids, each value is that id's sold quantity, and the values add up to the total.
   */
  ghost predicate Tally(sales: seq<Transaction>, order: seq<string>, acc: map<string, int>) {
    && (forall a, b :: 0 <= a < b < |order| ==> order[a] != order[b])
    && (forall k :: k in acc <==> k in order)
    && acc.Keys == SoldIds(sales)
    && (forall k :: k in acc ==> acc[k] == SoldQuantity(sales, k))
    && AccTotal(order, acc) == TotalSold(sales)
  }

  lemma SalesStep(sales: seq<Transaction>, t: Transaction)
    ensures SoldIds(sales + [t]) == SoldIds(sales) + {t.productId}
    ensures forall k :: SoldQuantity(sales + [t], k) == SoldQuantity(sales, k) + (if t.productId == k then t.quantity else 0)
    ensures TotalSold(sales + [t]) == TotalSold(sales) + t.quantity
  {
    var s := sales + [t];
    assert s[..|s| - 1] == sales;
    Seqs.SumConcat(sales, [t], TxQuantity);
  }

  lemma AppendDistinct(order: seq<string>, k: string)
    requires forall a, b :: 0 <= a < b < |order| ==> order[a] != order[b]
    requires k !in order
    ensures var o := order + [k]; forall a, b :: 0 <= a < b < |o| ==> o[a] != o[b]
  {
    var o := order + [k];
    forall a, b | 0 <= a < b < |o| ensures o[a] != o[b] {
      assert o[a] == order[a];
      if b < |order| {
        assert o[b] == order[b];
      }
    }
  }

  /** `acc[t.productId] = (acc[t.productId] || 0) + t.quantity` for an id already in the tally. */
  lemma TallyBump(sales: seq<Transaction>, order: seq<string>, acc: map<string, int>, t: Transaction)
    requires Tally(sales, order, acc)
    requires t.productId in acc
    ensures Tally(sales + [t], order, acc[t.productId := acc[t.productId] + t.quantity])
  {
    var acc' := acc[t.productId := acc[t.productId] + t.quantity];
    SalesStep(sales, t);
    BumpQuantities(sales, acc, t);
    AccTotalBump(order, acc, t.productId, t.quantity);
    assert acc'.Keys == acc.Keys;
    assert SoldIds(sales + [t]) == SoldIds(sales);
  }

  lemma BumpQuantities(sales: seq<Transaction>, acc: map<string, int>, t: Transaction)
    requires forall k :: k in acc ==> acc[k] == SoldQuantity(sales, k)
    requires t.productId in acc
    ensures forall k :: k in acc[t.productId := acc[t.productId] + t.quantity] ==>
      acc[t.productId := acc[t.productId] + t.quantity][k] == SoldQuantity(sales + [t], k)
  {
    SalesStep(sales, t);
  }

  /** The same step for an id seen for the first time: it joins the key order at the end. */
  lemma TallyNew(sales: seq<Transaction>, order: seq<string>, acc: map<string, int>, t: Transaction)
    requires Tally(sales, order, acc)
    requires t.productId !in acc
    ensures Tally(sales + [t], order + [t.productId], acc[t.productId := t.quantity])
  {
    SalesStep(sales, t);
    NewQuantities(sales, acc, t);
    NewTotal(order, acc, t);
    AppendDistinct(order, t.productId);
  }

  lemma NewQuantities(sales: seq<Transaction>, acc: map<string, int>, t: Transaction)
    requires forall k :: k in acc ==> acc[k] == SoldQuantity(sales, k)
    requires t.productId !in SoldIds(sales)
    ensures forall k :: k in acc[t.productId := t.quantity] ==>
      acc[t.productId := t.quantity][k] == SoldQuantity(sales + [t], k)
  {
    SalesStep(sales, t);
    UnsoldQuantity(sales, t.productId);
  }

  lemma NewTotal(order: seq<string>, acc: map<string, int>, t: Transaction)
    requires forall k :: k in order ==> k in acc
    requires t.productId !in order
    ensures AccTotal(order + [t.productId], acc[t.productId := t.quantity]) == AccTotal(order, acc) + t.quantity
  {
    var order' := order + [t.productId];
    AccTotalIgnores(order, acc, t.productId, t.quantity);
    assert order'[..|order'| - 1] == order;
  }

  /**
   * What `getTopSellingProducts` returns for `sales`: each product id once, with the sum
   * of its sale quantities and the product found under it; exactly the sold ids; the
   * quantities adding up to the total sold; sorted by non-increasing quantity.
   */
  ghost predicate IsRanking(top: seq<TopSeller>, sales: seq<Transaction>, products: seq<Product>) {
    && DistinctIds(top)
    && EntryIds(top) == SoldIds(sales)
    && (forall i :: 0 <= i < |top| ==>
          top[i].quantity == SoldQuantity(sales, top[i].productId)
          && top[i].product == GetProductById(products, top[i].productId))
    && Seqs.Sum(top, EntryQuantity) == TotalSold(sales)
    && SortedByQuantity(top)
  }

  /** The transactions of type "sale", in order. */
  function Sales(transactions: seq<Transaction>): seq<Transaction> {
    Seqs.Filter(transactions, IsSale)
  }

  /**
   * The `reduce` of `getTopSellingProducts`: walks the sales once, adding each sale's
   * quantity to its product's entry in the accumulator.
   */
  method TallySales(sales: seq<Transaction>) returns (order: seq<string>, acc: map<string, int>)
    ensures Tally(sales, order, acc)
  {
    acc := map[];
    order := [];
    var i := 0;
    while i < |sales|
      invariant 0 <= i <= |sales|
      invariant Tally(sales[..i], order, acc)
    {
      var t := sales[i];
      assert sales[..i + 1] == sales[..i] + [t];
      if t.productId in acc {
        TallyBump(sales[..i], order, acc, t);
        acc := acc[t.productId := acc[t.productId] + t.quantity];
      } else {
        TallyNew(sales[..i], order, acc, t);
        acc := acc[t.productId := t.quantity];
        order := order + [t.productId];
      }
      i := i + 1;
    }
    assert sales[..|sales|] == sales;
  }

  /** `getTopSellingProducts`: only sales count; the result is their ranking. */
  method TopSellingProducts(products: seq<Product>, transactions: seq<Transaction>) returns (top: seq<TopSeller>)
    ensures IsRanking(top, Sales(transactions), products)
  {
    var sales := Sales(transactions);
    var order, acc := TallySales(sales);
    RankingFromTally(sales, order, acc, products);
    top := SortByQuantity(Entries(order, acc, products));
  }

  /** Building, then sorting, the entries of a finished tally gives the ranking. */
  lemma RankingFromTally(sales: seq<Transaction>, order: seq<string>, acc: map<string, int>, products: seq<Product>)
    requires Tally(sales, order, acc)
    ensures IsRanking(SortByQuantity(Entries(order, acc, products)), sales, products)
  {
    var entries := Entries(order, acc, products);
    EntriesTotal(order, acc, products);
    assert DistinctIds(entries);
    assert EntryIds(entries) == acc.Keys by {
      forall k | k in acc ensures k in EntryIds(entries) {
        var a :| 0 <= a < |order| && order[a] == k;
        assert entries[a].productId == k;
      }
    }
    var top := SortByQuantity(entries);
    SortKeepsDistinct(entries);
    SortKeepsTotal(entries);
    EntriesFacts(top, entries, sales, order, acc, products);
  }

  lemma EntriesFacts(top: seq<TopSeller>, entries: seq<TopSeller>, sales: seq<Transaction>,
                     order: seq<string>, acc: map<string, int>, products: seq<Product>)
    requires Tally(sales, order, acc)
    requires entries == Entries(order, acc, products)
    requires multiset(top) == multiset(entries)
    ensures forall i :: 0 <= i < |top| ==>
          top[i].quantity == SoldQuantity(sales, top[i].productId)
          && top[i].product == GetProductById(products, top[i].productId)
  {
    forall j | 0 <= j < |top|
      ensures top[j].quantity == SoldQuantity(sales, top[j].productId)
      ensures top[j].product == GetProductById(products, top[j].productId)
    {
      assert top[j] in multiset(entries);
      var a :| 0 <= a < |entries| && entries[a] == top[j];
    }
  }

  /** `getCategoryById(id)?.name`: the category's name, or `undefined` when there is no such category. */
  function CategoryName(categories: seq<Category>, id: string): (v: Json.Value)
    ensures v == Json.Undefined <==> forall i :: 0 <= i < |categories| ==> categories[i].id != id
    ensures v != Json.Undefined ==> v == Json.Str(GetCategoryById(categories, id).value.name)
  {
    match GetCategoryById(categories, id)
    case None => Json.Undefined
    case Some(c) => Json.Str(c.name)
  }

  const InventoryColumns: seq<string> :=
    ["SKU", "Name", "Category", "In Stock", "Low Stock Threshold", "Price", "Value"]

  /** One row of `generateInventoryReport`, its properties in the order the object literal lists them. */
  function InventoryRow(p: Product, categories: seq<Category>): (row: Json.Row)
    ensures Json.Keys(row) == InventoryColumns
    ensures Json.Lookup(row, "SKU") == Some(Json.Str(p.sku))
    ensures Json.Lookup(row, "Category") == Some(CategoryName(categories, p.category))
    ensures Json.Lookup(row, "In Stock") == Some(Json.Number(p.quantity))
    ensures Json.Lookup(row, "Price") == Some(Json.Str(Text.FixedTwo(p.price)))
    ensures Json.Lookup(row, "Value") == Some(Json.Str(Text.FixedTwo(StockValue(p))))
  {
    var values := [
      Json.Str(p.sku), Json.Str(p.name), CategoryName(categories, p.category),
      Json.Number(p.quantity), Json.Number(p.lowStockThreshold),
      Json.Str(Text.FixedTwo(p.price)), Json.Str(Text.FixedTwo(StockValue(p)))];
    assert Json.DistinctKeys(InventoryColumns);
    Json.LookupRecord(InventoryColumns, values, 0);
    Json.LookupRecord(InventoryColumns, values, 2);
    Json.LookupRecord(InventoryColumns, values, 3);
    Json.LookupRecord(InventoryColumns, values, 5);
    Json.LookupRecord(InventoryColumns, values, 6);
    Json.Record(InventoryColumns, values)
  }

  /** `generateInventoryReport`: one row per product, in product order. */
  function InventoryReport(products: seq<Product>, categories: seq<Category>): (rows: seq<Json.Row>)
    ensures |rows| == |products|
    ensures forall i :: 0 <= i < |rows| ==> rows[i] == InventoryRow(products[i], categories)
  {
    seq(|products|, i requires 0 <= i < |products| => InventoryRow(products[i], categories))
  }

  const SalesColumns: seq<string> := ["Date", "Product", "SKU", "Quantity", "Unit Price", "Total"]

  /** One row of `generateSalesReport` for a sale of product `p`; the sale's date comes already formatted. */
  function SaleRow(t: Transaction, p: Product, localeDate: string): (row: Json.Row)
    ensures Json.Keys(row) == SalesColumns
    ensures Json.Lookup(row, "Product") == Some(Json.Str(p.name))
    ensures Json.Lookup(row, "Quantity") == Some(Json.Number(t.quantity))
    ensures Json.Lookup(row, "Total") == Some(Json.Str(Text.FixedTwo(SaleAmount(t))))
  {
    var values := [
      Json.Str(localeDate), Json.Str(p.name), Json.Str(p.sku), Json.Number(t.quantity),
      Json.Str(Text.FixedTwo(t.price)), Json.Str(Text.FixedTwo(SaleAmount(t)))];
    assert Json.DistinctKeys(SalesColumns);
    Json.LookupRecord(SalesColumns, values, 1);
    Json.LookupRecord(SalesColumns, values, 3);
    Json.LookupRecord(SalesColumns, values, 5);
    Json.Record(SalesColumns, values)
  }

  /** Every sale in the list names a product that exists. */
  predicate AllProductsKnown(sales: seq<Transaction>, products: seq<Product>) {
    forall i :: 0 <= i < |sales| ==> GetProductById(products, sales[i].productId).Some?
  }

  /** `generateSalesReport`: one row per sale, in transaction order; it fails on a sale of an unknown product. */
  function SalesReport(products: seq<Product>, transactions: seq<Transaction>, localeDate: Transaction -> string): (r: Option<seq<Json.Row>>)
    ensures r.Some? <==> forall t :: t in transactions && IsSale(t) ==> GetProductById(products, t.productId).Some?
    ensures r.Some? ==> |r.value| == |Sales(transactions)|
  {
    var sales := Sales(transactions);
    Seqs.FilterMembers(transactions, IsSale);
    if AllProductsKnown(sales, products) then
      Some(seq(|sales|, i requires 0 <= i < |sales| =>
        SaleRow(sales[i], GetProductById(products, sales[i].productId).value, localeDate(sales[i]))))
    else
      None
  }

  /** Row `i` of the sales report is about sale `i`: its product's name, its quantity and its total. */
  lemma SalesReportRow(products: seq<Product>, transactions: seq<Transaction>, localeDate: Transaction -> string, i: int)
    requires SalesReport(products, transactions, localeDate).Some?
    requires 0 <= i < |Sales(transactions)|
    ensures var t, row := Sales(transactions)[i], SalesReport(products, transactions, localeDate).value[i];
      && IsSale(t)
      && GetProductById(products, t.productId).Some?
      && Json.Keys(row) == SalesColumns
      && Json.Lookup(row, "Product") == Some(Json.Str(GetProductById(products, t.productId).value.name))
      && Json.Lookup(row, "Quantity") == Some(Json.Number(t.quantity))
      && Json.Lookup(row, "Total") == Some(Json.Str(Text.FixedTwo(SaleAmount(t))))
  {
    var sales := Sales(transactions);
    assert sales[i] in sales;
    assert AllProductsKnown(sales, products);
  }

  const LowStockColumns: seq<string> :=
    ["SKU", "Name", "Category", "Current Stock", "Low Stock Threshold", "Reorder Quantity"]

  /** `p.lowStockThreshold * 2 - p.quantity`: reorder up to twice the threshold. */
  function ReorderQuantity(p: Product): int {
    p.lowStockThreshold * 2 - p.quantity
  }

  /** One row of `generateLowStockReport`. */
  function LowStockRow(p: Product, categories: seq<Category>): (row: Json.Row)
    ensures Json.Keys(row) == LowStockColumns
    ensures Json.Lookup(row, "Category") == Some(CategoryName(categories, p.category))
    ensures Json.Lookup(row, "Current Stock") == Some(Json.Number(p.quantity))
    ensures Json.Lookup(row, "Reorder Quantity") == Some(Json.Number(ReorderQuantity(p)))
  {
    var values := [
      Json.Str(p.sku), Json.Str(p.name), CategoryName(categories, p.category),
      Json.Number(p.quantity), Json.Number(p.lowStockThreshold),
      Json.Number(ReorderQuantity(p))];
    assert Json.DistinctKeys(LowStockColumns);
    Json.LookupRecord(LowStockColumns, values, 2);
    Json.LookupRecord(LowStockColumns, values, 3);
    Json.LookupRecord(LowStockColumns, values, 5);
    Json.Record(LowStockColumns, values)
  }

  /** `generateLowStockReport`: one row per low-stock product, in product order. */
  function LowStockReport(products: seq<Product>, categories: seq<Category>): (rows: seq<Json.Row>)
    ensures |rows| == |LowStockProducts(products)|
    ensures forall i :: 0 <= i < |rows| ==> rows[i] == LowStockRow(LowStockProducts(products)[i], categories)
  {
    var low := LowStockProducts(products);
    seq(|low|, i requires 0 <= i < |low| => LowStockRow(low[i], categories))
  }

  /**
   * Row `i` of the low-stock report is about the `i`-th low-stock product, and its
   * reorder quantity is at least the threshold, since the stock is at most the threshold.
   */
  lemma LowStockReorder(products: seq<Product>, categories: seq<Category>, i: int)
    requires 0 <= i < |LowStockReport(products, categories)|
    ensures var p, row := LowStockProducts(products)[i], LowStockReport(products, categories)[i];
      && IsLowStock(p)
      && Json.Lookup(row, "Reorder Quantity") == Some(Json.Number(ReorderQuantity(p)))
      && ReorderQuantity(p) >= p.lowStockThreshold
      && p.quantity + ReorderQuantity(p) == 2 * p.lowStockThreshold
  {
    var low := LowStockProducts(products);
    assert low[i] in low;
  }
}
