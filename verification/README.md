# Inventory calculator — a Dafny model

The inventory calculator works on an in-memory list of product records.
Each record has a name, a price and a stock quantity. The calculator offers
four operations:

- `manage_inventory` is the dispatcher. It hands the product list, and any
  extra arguments, to a computation supplied by the caller. It returns that
  computation's result unchanged.
- `calculate_average_price` returns the sum of the prices divided by the
  number of products. On an empty list it raises a division-by-zero error.
- `calculate_total_value` adds up `price * stock` over the list, starting
  from 0.
- `filter_products_by_stock` keeps the products whose stock is at least a
  threshold, in their original order. The threshold is inclusive.

Module `Inventory` (`inventory.dfy`) models `main.py`. It has:

- an immutable `Product` datatype;
- the four operations as pure functions over `seq<Product>`;
- the two accumulating loops as methods (`CalculateTotalValue` and
  `FilterProductsByStock`), each proved equal to its function by a loop
  invariant.

The dispatcher takes a function value as its computation parameter. The
failure of the average on an empty list is a `Result` whose error is
`ZeroDivisionError`.

Module `InventoryTests` (`inventory_tests.dfy`) models `main_test.py`. The
five test cases are lemmas over the same concrete lists. The test's custom
low-stock computation is `FilterLowStock`. The test's custom `sum_price`
computes the same thing as line 22 of `main.py`, so the model uses
`SumPrices` for both. The module also proves that the stock filter and the
low-stock computation, given the same threshold, split a list into two
parts: as multisets, the two results add up to the input.

## Model

The functions `SumPrices` (main.py:22), `LineValue` (main.py:38) and
`TotalValue` (main.py:36-38) are contract-free reference definitions. The
rows of the lemmas about them and of the loop method `CalculateTotalValue`
state their behaviour.

| member | source | states |
|---|---|---|
| Inventory.ManageInventory | main.py:1-12 | The dispatcher returns exactly what the computation returns on the same, unchanged product list. |
| Inventory.ManageInventoryWith | main.py:1-12 | With one extra argument, the dispatcher forwards it after the product list and returns the computation's result unchanged. |
| Inventory.SumPricesAppend | main.py:22 | The sum of prices over two lists put together is the sum of their two sums. |
| Inventory.SumPricesBounds | main.py:22 | If every price lies in [lo, hi], the sum of prices lies between n·lo and n·hi for a list of n products. |
| Inventory.AveragePrice | main.py:15-24 | The average fails with ZeroDivisionError exactly when the list is empty. Otherwise the average times the number of products equals the sum of the prices. |
| Inventory.AveragePriceBounds | main.py:22-23 | On a non-empty list whose prices all lie in [lo, hi], the average succeeds and lies in [lo, hi]. |
| Inventory.TotalValueNonNegative | main.py:36-39 | The total value is never negative when no price or stock is negative. |
| Inventory.CalculateTotalValue | main.py:36-39 | The loop that starts at 0 and adds price·stock per product returns the total value of the whole list. |
| Inventory.TotalValueAppend | main.py:36-38 | The total value of a concatenation is the sum of the two totals. |
| Inventory.TotalValueFirst | main.py:36-38 | The total splits into the first product's price·stock plus the total of the rest. |
| Inventory.FilterByStock | main.py:42-56 | The filter result is no longer than the input, and every product in it has stock at least the threshold. |
| Inventory.FilterMembers | main.py:53-55 | A product is in the result if and only if it is in the input and its stock is at least the threshold. |
| Inventory.FilterProductsByStock | main.py:52-56 | The loop that appends each qualifying product in turn returns the filter result. |
| Inventory.KeptPositions | main.py:53-54 | The kept positions lie within the list and are strictly increasing. They include every position whose stock reaches the threshold, and only such positions. |
| Inventory.FilterSelectsKeptPositions | main.py:52-56 | The filter result is exactly the input's products at the kept positions, in increasing order and unaltered. This makes it the order-preserving subsequence of the qualifying products. |
| Inventory.FilterAppend | main.py:52-56 | Filtering a concatenation equals concatenating the filtered parts, so relative order is preserved. |
| Inventory.FilterKeepsAll | main.py:53-55 | A list whose stocks all reach the threshold passes through the filter unchanged. |
| Inventory.FilterIdempotent | main.py:52-56 | Filtering the filter's own output with the same threshold returns that output unchanged. |
| Inventory.FilterInclusive | main.py:54 | A product whose stock equals the threshold is kept, because the comparison is `>=`. |
| Inventory.FilterNonPositiveThreshold | main.py:53-55 | A threshold of at most 0 keeps every product whose stock is not negative, whatever its price. |
| Inventory.FilterAboveAll | main.py:53-55 | A threshold above every stock gives the empty list. |
| InventoryTests.FilterLowStock | main_test.py:54-55 | The low-stock result is no longer than the input, and every product in it has stock strictly below the threshold. |
| InventoryTests.FilterLowStockMembers | main_test.py:54-55 | A product is in the low-stock result if and only if it is in the input and its stock is below the threshold. |
| InventoryTests.FilterLowStockAppend | main_test.py:54-55 | The low-stock computation on a concatenation equals the concatenation of its results on the parts, so it keeps the original order. |
| InventoryTests.StockPartition | main_test.py:54-55 | With the same threshold, the stock filter and the low-stock computation together hold every product of the input exactly as many times as the input does. |
| InventoryTests.StockPartitionLength | main_test.py:54-55 | With the same threshold, the stock filter and the low-stock computation together hold as many products as the input. |
| InventoryTests.StockPartitionValue | main_test.py:54-55 | With the same threshold, the total values of the two parts add up to the total value of the input. |
| InventoryTests.AveragePriceExample | main_test.py:3-10 | Prices 100, 200 and 300 average to 200. |
| InventoryTests.TotalValueExample | main_test.py:13-20 | The (price, stock) pairs (100, 1), (200, 2) and (300, 3) have total value 1400. |
| InventoryTests.FilterExample | main_test.py:23-31 | Stocks 1, 2, 3 with threshold 2 give the last two products. The result has 2 products, all with stock at least 2. |
| InventoryTests.DispatchSumPriceExample | main_test.py:34-44 | Dispatching the sum of prices over prices 100 and 200 gives 300, the same as calling it directly. |
| InventoryTests.DispatchLowStockExample | main_test.py:47-59 | Dispatching the low-stock computation with threshold 3 over stocks 1, 2, 5 gives the first two products in order. The first is named "Product 1". |

## Left out

- The `__main__` demonstration block (main.py:59-104) is left out. It builds a sample list, prints the results with two decimals and a currency symbol, and adds no behaviour beyond calling the four operations.
- Python's float division at main.py:23 is modelled as exact division on `real`. IEEE rounding is not modelled. Nor is the `OverflowError` Python raises when the quotient of the two integers lies beyond the range of a float (for example one product priced 10**400); the model returns the exact quotient there.
- Records are dictionaries in the source and are read by key. Missing keys and non-numeric fields cannot occur in the typed `Product` datatype, so the errors they would raise are not modelled.
- Prices and stocks are unbounded integers, as Python integers are. The source never checks that they are non-negative, and neither does the model. `WellFormed` states the assumption only where a property needs it.
- The variadic `*args` of the dispatcher is modelled for the two arities the program uses: no extra argument (`ManageInventory`) and one (`ManageInventoryWith`). An arity mismatch between the computation and its arguments is a type error in Dafny and cannot occur, so the invocation error it raises in Python is not modelled.
- Test-runner mechanics, such as test discovery and assertion messages, are not modelled.
