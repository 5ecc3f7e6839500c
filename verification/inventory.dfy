/**
 An inventory calculator over an in-memory list of product records.

 The four operations of the calculator are modelled as pure functions over
 `seq<Product>`: a higher-order dispatcher, the average price, the total
 stock value and a minimum-stock filter. The two accumulating loops of the
 calculator are also given as methods, proved equal to the functions.
 */
module Inventory {

  /** A product record. Prices and stock quantities are whole numbers. */
  datatype Product = Product(name: string, price: int, stock: int)

  /** A record as the calculator expects it: neither price nor stock is negative.
      The calculator itself never checks this. */
  predicate WellFormed(p: Product) {
    p.price >= 0 && p.stock >= 0
  }

  /** The failure the model keeps: the average of the empty list divides by zero. */
  datatype Error = ZeroDivisionError

  /** The outcome of a computation that may raise. */
  datatype Result<T> = Ok(value: T) | Err(error: Error)

  // ---------------------------------------------------------------------------
  // Dispatcher
  // ---------------------------------------------------------------------------

  /** Applies a computation that takes no extra argument to the product list
      and hands back whatever it returns. */
  function ManageInventory<R>(products: seq<Product>, calculation: seq<Product> -> R): (r: R)
    ensures r == calculation(products)
  {
    calculation(products)
  }

  /** Applies a computation that takes one extra argument to the product list,
      forwarding the argument in second position. */
  function ManageInventoryWith<A, R>(products: seq<Product>, calculation: (seq<Product>, A) -> R, arg: A): (r: R)
    ensures r == calculation(products, arg)
  {
    calculation(products, arg)
  }

  // ---------------------------------------------------------------------------
  // Average price
  // ---------------------------------------------------------------------------

  /** Sum of the prices, accumulated from the left. */
  function SumPrices(products: seq<Product>): (r: int)
  {
    if |products| == 0 then 0
    else SumPrices(products[..|products| - 1]) + products[|products| - 1].price
  }

  /** The sum of prices over two lists put together is the sum of their sums. */
  lemma {:induction false} SumPricesAppend(a: seq<Product>, b: seq<Product>)
    ensures SumPrices(a + b) == SumPrices(a) + SumPrices(b)
  {
    if |b| == 0 {
      assert a + b == a;
    } else {
      var n := |b| - 1;
      assert (a + b)[..|a + b| - 1] == a + b[..n];
      SumPricesAppend(a, b[..n]);
    }
  }

  /** If every price lies in [lo, hi], the sum lies between n * lo and n * hi. */
  lemma {:induction false} SumPricesBounds(products: seq<Product>, lo: int, hi: int)
    requires forall i :: 0 <= i < |products| ==> lo <= products[i].price <= hi
    ensures |products| * lo <= SumPrices(products) <= |products| * hi
  {
    if |products| > 0 {
      var n := |products| - 1;
      SumPricesBounds(products[..n], lo, hi);
      assert |products| * lo == n * lo + lo;
      assert |products| * hi == n * hi + hi;
    }
  }

  /** The arithmetic mean of the prices. The empty list divides by zero and
      fails; the division is exact. */
  function AveragePrice(products: seq<Product>): (r: Result<real>)
    ensures r.Err? <==> |products| == 0
    ensures r.Ok? ==> r.value * (|products| as real) == SumPrices(products) as real
  {
    if |products| == 0 then Err(ZeroDivisionError)
    else Ok((SumPrices(products) as real) / (|products| as real))
  }

  /** The mean lies between the lowest and the highest price. */
  lemma AveragePriceBounds(products: seq<Product>, lo: int, hi: int)
    requires |products| > 0
    requires forall i :: 0 <= i < |products| ==> lo <= products[i].price <= hi
    ensures AveragePrice(products).Ok?
    ensures lo as real <= AveragePrice(products).value <= hi as real
  {
    SumPricesBounds(products, lo, hi);
    var avg := AveragePrice(products).value;
    MeanAtLeast(SumPrices(products), |products|, lo, avg);
    MeanAtMost(SumPrices(products), |products|, hi, avg);
  }

  /** A mean of count values summing to at least count * lo is at least lo. */
  lemma MeanAtLeast(sum: int, count: int, lo: int, avg: real)
    requires count > 0
    requires count * lo <= sum
    requires avg * (count as real) == sum as real
    ensures lo as real <= avg
  {
    IntProductAsReal(count, lo);
    MulCancel(lo as real, avg, count as real);
  }

  /** A mean of count values summing to at most count * hi is at most hi. */
  lemma MeanAtMost(sum: int, count: int, hi: int, avg: real)
    requires count > 0
    requires sum <= count * hi
    requires avg * (count as real) == sum as real
    ensures avg <= hi as real
  {
    IntProductAsReal(count, hi);
    MulCancel(avg, hi as real, count as real);
  }

  /** Casting a product of integers to real is the product of the casts. */
  lemma IntProductAsReal(a: int, b: int)
    ensures (a * b) as real == (a as real) * (b as real)
  {
  }

  /** Dividing both sides of an inequality by a positive number. */
  lemma MulCancel(x: real, y: real, n: real)
    requires n > 0.0
    requires x * n <= y * n
    ensures x <= y
  {
  }

  // ---------------------------------------------------------------------------
  // Total value
  // ---------------------------------------------------------------------------

  /** Value of one line of the inventory: price times stock on hand. */
  function LineValue(p: Product): int {
    p.price * p.stock
  }

  /** The sum of price * stock over the list, accumulated from the left. */
  function TotalValue(products: seq<Product>): (r: int)
  {
    if |products| == 0 then 0
    else TotalValue(products[..|products| - 1]) + LineValue(products[|products| - 1])
  }

  /** The total value is never negative when no price or stock is negative. */
  lemma {:induction false} TotalValueNonNegative(products: seq<Product>)
    requires forall i :: 0 <= i < |products| ==> WellFormed(products[i])
    ensures TotalValue(products) >= 0
  {
    if |products| > 0 {
      var n := |products| - 1;
      TotalValueNonNegative(products[..n]);
      assert WellFormed(products[n]);
    }
  }

  /** The accumulating loop: starts at zero and adds one line value per product. */
  method CalculateTotalValue(products: seq<Product>) returns (totalValue: int)
    ensures totalValue == TotalValue(products)
  {
    totalValue := 0;
    var i := 0;
    while i < |products|
      invariant 0 <= i <= |products|
      invariant totalValue == TotalValue(products[..i])
    {
      assert products[..i + 1][..i] == products[..i];
      totalValue := totalValue + products[i].price * products[i].stock;
      i := i + 1;
    }
    assert products[..i] == products;
  }

  /** The total value of two lists put together is the sum of their totals. */
  lemma {:induction false} TotalValueAppend(a: seq<Product>, b: seq<Product>)
    ensures TotalValue(a + b) == TotalValue(a) + TotalValue(b)
  {
    if |b| == 0 {
      assert a + b == a;
    } else {
      var n := |b| - 1;
      assert (a + b)[..|a + b| - 1] == a + b[..n];
      TotalValueAppend(a, b[..n]);
    }
  }

  /** The total splits into the first product's line value plus the total
      of the rest. */
  lemma TotalValueFirst(products: seq<Product>)
    requires |products| > 0
    ensures TotalValue(products) == LineValue(products[0]) + TotalValue(products[1..])
  {
    var first := products[0];
    var rest := products[1..];
    assert [first] + rest == products;
    TotalValueAppend([first], rest);
    assert TotalValue([first]) == LineValue(first) by {
      assert [first][..0] == [];
    }
  }

  // ---------------------------------------------------------------------------
  // Stock filter
  // ---------------------------------------------------------------------------

  /** The products whose stock is at least minStock, in their original order. */
  function FilterByStock(products: seq<Product>, minStock: int): (r: seq<Product>)
    ensures |r| <= |products|
    ensures forall i :: 0 <= i < |r| ==> r[i].stock >= minStock
  {
    if |products| == 0 then []
    else
      var last := products[|products| - 1];
      var init := products[..|products| - 1];
      assert products == init + [last];
      FilterByStock(init, minStock) + (if last.stock >= minStock then [last] else [])
  }

  /** Filtering a list with one more product at the end. */
  lemma FilterByStockSnoc(init: seq<Product>, last: Product, threshold: int)
    ensures FilterByStock(init + [last], threshold)
            == FilterByStock(init, threshold) + (if last.stock >= threshold then [last] else [])
  {
    assert (init + [last])[..|init|] == init;
  }

  /** A product is in the filter result exactly when it is in the input and
      its stock reaches the threshold: nothing qualifying is dropped and
      nothing else is let through. */
  lemma {:induction false} FilterMembers(products: seq<Product>, minStock: int)
    ensures forall p :: p in FilterByStock(products, minStock) <==> p in products && p.stock >= minStock
  {
    if |products| > 0 {
      var n := |products| - 1;
      FilterMembers(products[..n], minStock);
      assert products == products[..n] + [products[n]];
    }
  }

  /** The appending loop: visits the products in order and appends each one
      whose stock reaches the threshold. */
  method FilterProductsByStock(products: seq<Product>, minStock: int) returns (filtered: seq<Product>)
    ensures filtered == FilterByStock(products, minStock)
  {
    filtered := [];
    var i := 0;
    while i < |products|
      invariant 0 <= i <= |products|
      invariant filtered == FilterByStock(products[..i], minStock)
    {
      assert products[..i + 1][..i] == products[..i];
      if products[i].stock >= minStock {
        filtered := filtered + [products[i]];
      }
      i := i + 1;
    }
    assert products[..i] == products;
  }

  /** The positions of the products whose stock reaches the threshold, in
      increasing order. */
  function KeptPositions(products: seq<Product>, minStock: int): (idx: seq<nat>)
    ensures forall k :: 0 <= k < |idx| ==> idx[k] < |products| && products[idx[k]].stock >= minStock
    ensures forall k, l :: 0 <= k < l < |idx| ==> idx[k] < idx[l]
    ensures forall i :: 0 <= i < |products| && products[i].stock >= minStock ==> i in idx
  {
    if |products| == 0 then []
    else
      var n := |products| - 1;
      var rest := KeptPositions(products[..n], minStock);
      if products[n].stock >= minStock then rest + [n] else rest
  }

  /** The filter result is exactly the products at the kept positions, taken
      in increasing order: an order-preserving selection that alters no record. */
  lemma {:induction false} FilterSelectsKeptPositions(products: seq<Product>, minStock: int)
    ensures |FilterByStock(products, minStock)| == |KeptPositions(products, minStock)|
    ensures forall k :: 0 <= k < |KeptPositions(products, minStock)| ==>
              FilterByStock(products, minStock)[k] == products[KeptPositions(products, minStock)[k]]
  {
    if |products| > 0 {
      var n := |products| - 1;
      var init := products[..n];
      FilterSelectsKeptPositions(init, minStock);
      var rest := KeptPositions(init, minStock);
      var kept := FilterByStock(init, minStock);
      assert products == init + [products[n]];
      FilterByStockSnoc(init, products[n], minStock);
      assert forall k :: 0 <= k < |rest| ==> kept[k] == products[rest[k]];
    }
  }

  /** Filtering distributes over concatenation, so order is preserved. */
  lemma {:induction false} FilterAppend(a: seq<Product>, b: seq<Product>, minStock: int)
    ensures FilterByStock(a + b, minStock) == FilterByStock(a, minStock) + FilterByStock(b, minStock)
  {
    if |b| == 0 {
      assert a + b == a;
    } else {
      var n := |b| - 1;
      assert (a + b)[..|a + b| - 1] == a + b[..n];
      FilterAppend(a, b[..n], minStock);
    }
  }

  /** A list in which every stock reaches the threshold passes through the
      filter unchanged. */
  lemma {:induction false} FilterKeepsAll(products: seq<Product>, minStock: int)
    requires forall i :: 0 <= i < |products| ==> products[i].stock >= minStock
    ensures FilterByStock(products, minStock) == products
  {
    if |products| > 0 {
      var n := |products| - 1;
      FilterKeepsAll(products[..n], minStock);
      assert products[..n] + [products[n]] == products;
    }
  }

  /** Filtering twice with the same threshold is the same as filtering once. */
  lemma {:induction false} FilterIdempotent(products: seq<Product>, minStock: int)
    ensures FilterByStock(FilterByStock(products, minStock), minStock) == FilterByStock(products, minStock)
  {
    FilterKeepsAll(FilterByStock(products, minStock), minStock);
  }

  /** The threshold is inclusive: a product whose stock equals it is kept. */
  lemma FilterInclusive(products: seq<Product>, i: int)
    requires 0 <= i < |products|
    ensures products[i] in FilterByStock(products, products[i].stock)
  {
    FilterMembers(products, products[i].stock);
  }

  /** A non-positive threshold keeps every product whose stock is not negative,
      whatever its price. */
  lemma FilterNonPositiveThreshold(products: seq<Product>, minStock: int)
    requires minStock <= 0
    requires forall i :: 0 <= i < |products| ==> products[i].stock >= 0
    ensures FilterByStock(products, minStock) == products
  {
    FilterKeepsAll(products, minStock);
  }

  /** A threshold above every stock keeps nothing. */
  lemma FilterAboveAll(products: seq<Product>, minStock: int)
    requires forall i :: 0 <= i < |products| ==> products[i].stock < minStock
    ensures FilterByStock(products, minStock) == []
  {
    FilterMembers(products, minStock);
  }
}
