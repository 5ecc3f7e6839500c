/**
 The calculator's test cases as lemmas over concrete product lists, together
 with the two custom computations the tests hand to the dispatcher.
 */
module InventoryTests {
  import opened Inventory

  /** Three products with prices 100, 200, 300 and stocks 1, 2, 3. */
  const ThreeProducts: seq<Product> := [
    Product("Product 1", 100, 1),
    Product("Product 2", 200, 2),
    Product("Product 3", 300, 3)
  ]

  /** The first two of ThreeProducts. */
  const TwoProducts: seq<Product> := [
    Product("Product 1", 100, 1),
    Product("Product 2", 200, 2)
  ]

  /** Three products with stocks 1, 2, 5. */
  const MixedStock: seq<Product> := [
    Product("Product 1", 100, 1),
    Product("Product 2", 200, 2),
    Product("Product 3", 300, 5)
  ]

  /** The custom low-stock computation: the products whose stock is strictly
      below the threshold, in their original order. */
  function FilterLowStock(products: seq<Product>, threshold: int): (r: seq<Product>)
    ensures |r| <= |products|
    ensures forall i :: 0 <= i < |r| ==> r[i].stock < threshold
  {
    if |products| == 0 then []
    else
      var last := products[|products| - 1];
      var init := products[..|products| - 1];
      assert products == init + [last];
      FilterLowStock(init, threshold) + (if last.stock < threshold then [last] else [])
  }

  /** A product is in the low-stock result exactly when it is in the input
      and its stock is below the threshold. */
  lemma {:induction false} FilterLowStockMembers(products: seq<Product>, threshold: int)
    ensures forall p :: p in FilterLowStock(products, threshold) <==> p in products && p.stock < threshold
  {
    if |products| > 0 {
      var n := |products| - 1;
      FilterLowStockMembers(products[..n], threshold);
      assert products == products[..n] + [products[n]];
      FilterLowStockSnoc(products[..n], products[n], threshold);
    }
  }

  /** The low-stock computation distributes over concatenation, so it keeps
      the products in their original order. */
  lemma {:induction false} FilterLowStockAppend(a: seq<Product>, b: seq<Product>, threshold: int)
    ensures FilterLowStock(a + b, threshold) == FilterLowStock(a, threshold) + FilterLowStock(b, threshold)
  {
    if |b| == 0 {
      assert a + b == a;
    } else {
      var n := |b| - 1;
      assert (a + b)[..|a + b| - 1] == a + b[..n];
      FilterLowStockAppend(a, b[..n], threshold);
    }
  }

  /** The stock filter and the low-stock computation with the same threshold
      split the list in two: taken together they hold every product of the
      input exactly as often as the input does. */
  lemma {:induction false} StockPartition(products: seq<Product>, threshold: int)
    ensures multiset(FilterByStock(products, threshold)) + multiset(FilterLowStock(products, threshold))
            == multiset(products)
  {
    if |products| > 0 {
      var n := |products| - 1;
      var init := products[..n];
      var last := products[n];
      StockPartition(init, threshold);
      assert products == init + [last];
      FilterByStockSnoc(init, last, threshold);
      FilterLowStockSnoc(init, last, threshold);
      PartitionStep(init, last, FilterByStock(init, threshold), FilterLowStock(init, threshold),
                    FilterByStock(products, threshold), FilterLowStock(products, threshold));
    }
  }

  /** The low-stock computation on a list with one more product at the end. */
  lemma FilterLowStockSnoc(init: seq<Product>, last: Product, threshold: int)
    ensures FilterLowStock(init + [last], threshold)
            == FilterLowStock(init, threshold) + (if last.stock < threshold then [last] else [])
  {
    assert (init + [last])[..|init|] == init;
  }

  /** Appending one product to one side of a split of init gives a split of
      init + [last]. */
  lemma PartitionStep(init: seq<Product>, last: Product, high: seq<Product>, low: seq<Product>,
                      high': seq<Product>, low': seq<Product>)
    requires multiset(high) + multiset(low) == multiset(init)
    requires (high' == high + [last] && low' == low) || (high' == high && low' == low + [last])
    ensures multiset(high') + multiset(low') == multiset(init + [last])
  {
    assert multiset(init + [last]) == multiset(init) + multiset{last};
    if high' == high + [last] {
      assert multiset(high') == multiset(high) + multiset{last};
    } else {
      assert multiset(low') == multiset(low) + multiset{last};
    }
  }

  /** Consequently the two parts together are as long as the input. */
  lemma StockPartitionLength(products: seq<Product>, threshold: int)
    ensures |FilterByStock(products, threshold)| + |FilterLowStock(products, threshold)| == |products|
  {
    StockPartition(products, threshold);
    assert |multiset(FilterByStock(products, threshold)) + multiset(FilterLowStock(products, threshold))|
           == |multiset(products)|;
  }

  /** The total values of the two halves of the split add up to the whole. */
  lemma {:induction false} StockPartitionValue(products: seq<Product>, threshold: int)
    ensures TotalValue(FilterByStock(products, threshold)) + TotalValue(FilterLowStock(products, threshold))
            == TotalValue(products)
  {
    if |products| > 0 {
      var n := |products| - 1;
      var init := products[..n];
      var last := products[n];
      StockPartitionValue(init, threshold);
      assert products == init + [last];
      FilterByStockSnoc(init, last, threshold);
      FilterLowStockSnoc(init, last, threshold);
      PartitionValueStep(init, last, FilterByStock(init, threshold), FilterLowStock(init, threshold),
                         FilterByStock(products, threshold), FilterLowStock(products, threshold));
    }
  }

  /** Appending one product to one side of a split of init keeps the values
      of the two sides adding up to the value of init + [last]. */
  lemma PartitionValueStep(init: seq<Product>, last: Product, high: seq<Product>, low: seq<Product>,
                           high': seq<Product>, low': seq<Product>)
    requires TotalValue(high) + TotalValue(low) == TotalValue(init)
    requires (high' == high + [last] && low' == low) || (high' == high && low' == low + [last])
    ensures TotalValue(high') + TotalValue(low') == TotalValue(init + [last])
  {
    TotalValueAppend(init, [last]);
    if high' == high + [last] {
      TotalValueAppend(high, [last]);
    } else {
      TotalValueAppend(low, [last]);
    }
  }

  /** Average of prices 100, 200, 300 is 200. */
  lemma AveragePriceExample()
    ensures AveragePrice(ThreeProducts) == Ok(200.0)
  {
  }

  /** Total value of (100, 1), (200, 2), (300, 3) is 100 + 400 + 900 = 1400. */
  lemma TotalValueExample()
    ensures TotalValue(ThreeProducts) == 1400
  {
    assert ThreeProducts[..2] == TwoProducts;
    assert TwoProducts[..1] == [TwoProducts[0]];
    assert [TwoProducts[0]][..0] == [];
  }

  /** Filtering stocks 1, 2, 3 at threshold 2 keeps the last two products. */
  lemma FilterExample()
    ensures FilterByStock(ThreeProducts, 2) == [ThreeProducts[1], ThreeProducts[2]]
    ensures |FilterByStock(ThreeProducts, 2)| == 2
    ensures forall p :: p in FilterByStock(ThreeProducts, 2) ==> p.stock >= 2
  {
  }

  /** Dispatching the sum of prices over prices 100, 200 yields 300, the same
      as calling it directly. */
  lemma DispatchSumPriceExample()
    ensures ManageInventory(TwoProducts, SumPrices) == SumPrices(TwoProducts) == 300
  {
  }

  /** Dispatching the low-stock computation with threshold 3 over stocks
      1, 2, 5 forwards the threshold and keeps the order: two products, the
      first named "Product 1". */
  lemma DispatchLowStockExample()
    ensures ManageInventoryWith(MixedStock, FilterLowStock, 3) == [MixedStock[0], MixedStock[1]]
    ensures |ManageInventoryWith(MixedStock, FilterLowStock, 3)| == 2
    ensures ManageInventoryWith(MixedStock, FilterLowStock, 3)[0].name == "Product 1"
  {
  }
}
