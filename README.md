# ERP Monitoring Dashboard — business rules in Dafny

The dashboard (`app.py`) is a Streamlit page over a MySQL pharmacy
inventory database (`e-pharm1`). At start-up `load_data` reads eight tables.
Five menu views then turn them into tables and charts. Underneath the UI sit
a few deterministic rules over tables of rows. This project states those
rules as Dafny functions over sequences of row values and proves what they
promise:

- **Inventory Monitoring**: warehouse rows are left-merged with each
  product's `stok_minimum`. The branch (`cabang`) choices are the distinct
  non-null branches in ascending order. The rows of the chosen branch are
  labelled "🟢 Aman" or "🔴 Perlu Restok".
- **Alerts Center**: the merged rows whose `jumlah` is strictly below a
  known `stok_minimum`, or a success message when there are none.
- **ML Recommendations**: `jumlah` is summed per product code over
  `sales_order_items`. The weekly prediction is that sum over 12, rounded
  half to even. A warehouse row with no sales is predicted 0: the
  `fillna(0)` at app.py:140 reaches the frame under pandas' behaviour before
  version 3.0 (see "Left out"). A row is flagged "Butuh Restok" when its
  stock is below its prediction. The view warns when there are no sales
  items.
- **Supplier Performance**: purchase orders are left-merged with suppliers.
  Each order's lead time is its receive date minus its order date in days.
  Per supplier name, the view shows the number of present lead times
  ("Total Orders") and their mean. The view warns when either table is empty.
- **`load_data`**: `products` and `warehouse` are required. Each other
  table becomes an empty frame when its query fails. `purchase_orders` and
  `purchase_order_items` share one `try`, so do `sales_orders` and
  `sales_order_items`, and either failure empties both.

Modules:

- `Frames` (`frames.dfy`): pandas' table operations.
  - `Option` stands for a missing cell.
  - `Where` is boolean-mask selection.
  - `LeftJoin` is `merge(..., how='left')`. Each left row appears in left
    order, once per matching right row in right order, or once with a
    missing right side.
  - `SumKey`/`SumIn`/`SumAll` are keyed column sums.
- `Ordering` (`ordering.dfy`):
  - Python's `<` on strings;
  - `SortedDistinct`, meaning `sorted(s.unique())`, which is also the key
    order of `groupby`.
- `Inventory` (`inventory.dfy`), `Restock` (`restock.dfy`) and
  `Suppliers` (`suppliers.dfy`): one module per view.
- `Loading` (`loading.dfy`): `load_data` and its fallbacks.

Modelling conventions:

- A missing cell (NaN/NULL) is `None`. The comparisons the dashboard makes
  with such a cell (`<`, `>=`, `==`) are false, as in pandas.
- Dates are day numbers that have already been parsed. A date that does not
  parse is `None`.
- A mean is an exact `Ratio(sum, count)`, or `None` (NaN) when the count
  is 0.
- `st.selectbox` over an empty list returns nothing, which is modelled as
  `None`. No row then matches the selection.

## Model

| member | source | states |
|---|---|---|
| Frames.Where | app.py:121 | A boolean mask keeps exactly the rows that satisfy it, each as many times as it occurs in the frame, and never more rows than the frame has |
| Frames.WhereConcat | app.py:121 | A mask keeps frame order: filtering a concatenation is the concatenation of the filtered parts |
| Frames.LeftJoin | app.py:69 | A left merge has at least as many rows as its left frame; its rows are stated by `LeftJoinRows`, `LeftJoinUnique` and `LeftJoinAppend` |
| Frames.JoinRowRows | app.py:69 | One left row contributes itself paired with each right row that has its key, or itself with a missing right side when no right row has that key |
| Frames.LeftJoinRows | app.py:69 | Every row of a left merge pairs a left row with a right row of the same key, or with nothing when no right row has that key; every such pair occurs, and so does every unmatched left row |
| Frames.LeftJoinKeeps | app.py:69 | A left merge drops no left row |
| Frames.LeftJoinUnique | app.py:69 | With unique right keys the merge is one-to-one: as many rows as the left frame, and row i comes from left row i |
| Frames.LeftJoinAppend | app.py:94 | Appending a left row appends exactly that row's contribution to the merge |
| Frames.SumKey | app.py:131 | One cell of a per-key sum; it is not negative when the summed column is not negative |
| Frames.SumKeyAbsent | app.py:131 | A key that no row carries has sum 0 |
| Frames.SumKeyAppend | app.py:99-100 | Per-key sums add up over concatenated frames |
| Frames.GroupSumsPartition | app.py:131 | Over distinct keys, the per-group sums add up to the sum over the rows whose key is one of them |
| Ordering.Less | app.py:70 | Python's string `<`: a proper prefix sorts before each of its extensions |
| Ordering.LessIrreflexive | app.py:70 | No string sorts before itself |
| Ordering.LessTransitive | app.py:70 | Python's string order is transitive |
| Ordering.LessTotal | app.py:70 | Any two different strings are ordered one way or the other |
| Ordering.SortedDistinct | app.py:70 | `sorted(unique())` is strictly ascending and holds exactly the values of its input |
| Ordering.StrictlySortedUnique | app.py:70 | Two strictly ascending lists with the same values are equal, so the sorted distinct list is unique |
| Inventory.StockFrame | app.py:69 | The merge of the warehouse rows with the product minimums keeps at least every warehouse row |
| Inventory.StockFrameUnique | app.py:69 | With unique product codes, the merged frame keeps the warehouse rows one for one, and each row carries the minimum of the product with its code, or a missing minimum when no product has that code |
| Inventory.StockFrameFrom | app.py:69 | Every merged row comes from a warehouse row |
| Inventory.Branches | app.py:70 | `dropna()` keeps exactly the present branch cells |
| Inventory.BranchChoices | app.py:70 | The branch choices are strictly ascending (no duplicates) and are exactly the non-null branches of the merged frame |
| Inventory.StockFrameBranches | app.py:69-70 | The branch choices are exactly the non-null branches of the warehouse table |
| Inventory.BranchChoicesIgnoreProducts | app.py:69-70 | The branch choices do not depend on the products table |
| Inventory.AtBranch | app.py:73 | No row matches when nothing is selected, no row without a branch matches, and a matching row is at the selected branch |
| Inventory.StatusOf | app.py:74-76 | A row is "Perlu Restok" if and only if its minimum is missing or its stock is below that minimum |
| Inventory.InventoryView | app.py:73-76 | The table of a branch holds exactly the merged rows at that branch, with their multiplicities; a row is "Aman" if and only if its minimum is known and its stock reaches it, and "Perlu Restok" otherwise |
| Inventory.NoSelectionEmptyView | app.py:71-73 | When there is no branch to select, the inventory table is empty |
| Inventory.BranchOfferedIffRows | app.py:70-73 | A branch is offered if and only if its inventory table has rows |
| Inventory.BelowMinimum | app.py:121 | A row with a missing minimum is never below it; a row below its minimum has stock strictly less than that minimum |
| Inventory.Alerts | app.py:121 | The alert list holds exactly the merged rows whose stock is strictly below a known minimum, with their multiplicities |
| Inventory.AlertsCenter | app.py:120-125 | The success message shows if and only if no merged row is below its minimum; otherwise the table shows the non-empty alert list |
| Inventory.AlertedIffPerluRestok | app.py:121 | A row is alerted if and only if it is in the frame, its minimum is known, and it is labelled "Perlu Restok"; a row with a missing minimum is "Perlu Restok" but never alerted |
| Inventory.AlertsAtBranch | app.py:120-121 | The alerts at a branch are exactly the rows with a known minimum that the branch's table labels "Perlu Restok" |
| Inventory.MinimumOfMember | app.py:69 | With unique product codes, looking up a product's code gives its minimum |
| Inventory.MinimumOfAbsent | app.py:69 | A code that no product has gives a missing minimum |
| Restock.TotalSold | app.py:131 | The total sold of a code that no sales item carries is 0, and it is not negative when no quantity is negative |
| Restock.SalesTotals | app.py:131 | One row per code sold, in strictly ascending code order, carrying the total `jumlah` of all that code's sales items |
| Restock.TotalsForSum | app.py:131 | The totals for a list of codes add up to the per-code sums for those codes |
| Restock.SalesTotalsConserve | app.py:131 | Grouping loses and duplicates nothing: the per-code totals add up to the total quantity sold |
| Restock.PredictWeekly | app.py:133 | The prediction is within half of total/12, and at an exact half it is the even neighbour |
| Restock.PredictionUnique | app.py:133 | Only one integer satisfies that rounding rule |
| Restock.PredictWeeklyMonotone | app.py:133 | Selling more never predicts less |
| Restock.Forecasts | app.py:131-133 | Every forecast row belongs to a code that was sold and predicts the rounded twelfth of that code's total; every code sold has a forecast row |
| Restock.FilledPrediction | app.py:140 | `fillna(0)` agrees with the prediction rule: a warehouse row with no forecast belongs to a code never sold, whose prediction is 0 |
| Restock.Recommend | app.py:140-141 | A merged row keeps its warehouse row; without a forecast it predicts 0 and, with stock that is not negative, is not flagged; with one, it takes the forecast's prediction; it is flagged if and only if its stock is below its prediction |
| Restock.Recommendations | app.py:135-141 | Every warehouse row appears and every row comes from the warehouse; each predicts the rounded twelfth of its code's total sales (0 if never sold) and is flagged "Butuh Restok" if and only if its stock is below that prediction |
| Restock.RecommendationsUnique | app.py:135-139 | With unique product codes the recommendation table keeps the warehouse rows one for one, in order |
| Restock.UnsoldNeverFlagged | app.py:140-141 | An item never sold is predicted 0, and with non-negative stock it is never flagged |
| Restock.MlRecommendations | app.py:130-145 | The view warns if and only if there are no sales items; otherwise it shows the recommendation table |
| Suppliers.OrderFrame | app.py:94 | The merge of the purchase orders with the suppliers keeps at least every order |
| Suppliers.LeadTime | app.py:97 | A lead time is present if and only if both dates are, and then the order date plus the lead time is the receive date |
| Suppliers.Counted | app.py:100 | A row counts 1 towards `count` if and only if both its dates are present, and 0 otherwise |
| Suppliers.LeadDays | app.py:100 | A row without a lead time adds 0 to the sum behind `mean`; one with a lead time adds the days from order to receipt |
| Suppliers.StatsFor | app.py:97-102 | "Total Orders" is the number of the supplier's merged rows whose two dates are both present; the average is missing if and only if that count is 0, and otherwise it is the sum of those lead times over that count |
| Suppliers.Names | app.py:99 | The group keys come from exactly the present supplier-name cells |
| Suppliers.StatsForAll | app.py:99-101 | One statistics row per name, in the order of the names |
| Suppliers.SupplierPerformance | app.py:94-102 | One row per supplier name present in the merged frame, strictly ascending by name, each with that name's count and mean; orders without a supplier name fall out |
| Suppliers.SupplierOrdersConserve | app.py:99-102 | Summed over all suppliers, "Total Orders" equals the number of merged rows that have both a supplier name and a lead time |
| Suppliers.SumOrdersOverKeys | app.py:99-102 | The Total Orders of the groups for a list of names add up to the per-name counts |
| Suppliers.MissingDatesIgnored | app.py:95-100 | An order with a missing or unparseable date changes neither the count nor the mean of any supplier |
| Suppliers.SupplierView | app.py:93-115 | The view warns if and only if the purchase orders or the suppliers are empty; otherwise it shows the performance table |
| Loading.OrEmpty | app.py:39-42 | A query in its own `try` gives its rows, or an empty frame when it fails |
| Loading.PairOrEmpty | app.py:44-48 | Two queries in one `try`: when either fails, both frames are empty |
| Loading.LoadData | app.py:34-61 | Loading fails if and only if the products or warehouse query fails; otherwise the required tables are as queried, and each optional table is its rows or an empty frame when its `try` failed |
| Loading.SupplierQueryFailureWarns | app.py:39-48 | A failed suppliers, purchase-order or order-item query still loads, and the Supplier Performance view then warns |
| Loading.SalesQueryFailureWarns | app.py:50-54 | A failed sales-order or sales-item query still loads, and the ML Recommendations view then warns |
| Loading.RequiredTablesOnly | app.py:35-36 | The optional tables never change the merged stock frame or the Alerts Center |

## Left out

- The MySQL connection and the SQL text (app.py:9-14, 35-57) are external I/O. Each query is an input `Query<T>`: either its rows or a failure.
- The `@st.cache_data` memoisation (app.py:33) is caching by the framework. The model loads once.
- The sidebar menu, page configuration, `st.dataframe` column selection and the Plotly charts (app.py:17-30, 78-88, 104-113, 125, 143) are rendering only. The model returns the table each view would show.
- The Safety Stock Calculator (app.py:147-155) is left out. It computes a floating-point square root with the float constant 1.65.
- `pd.to_datetime(..., errors='coerce')` (app.py:95-96) is not modelled. A date is an already-parsed day number, or missing. `.dt.days` is therefore an exact difference of day numbers; the flooring of a time-of-day remainder is not modelled.
- Restock.Recommend: assumes pandas before 3.0, where the chained `rekomendasi['prediksi_minggu_depan'].fillna(0, inplace=True)` writes through to the frame. Under pandas 3.0 copy-on-write it does not: a row without a forecast keeps NaN, and `jumlah < NaN` never flags it, even with negative stock. The model predicts 0 for such a row and flags it when its stock is negative.
- Restock.PredictWeekly: rounds the exact rational total/12. The source divides in floating point, which agrees when the total is below 2^53 in absolute value.
- Suppliers.StatsFor: gives the mean as an exact ratio, not the floating-point mean pandas prints.
- A NULL `code` or `jumlah` in a warehouse row or a sales item is not modelled: both are always present in the model. In pandas, a warehouse row with a NULL `jumlah` is "Perlu Restok", never alerted and never flagged "Butuh Restok". A sales item with a NULL `code` falls out of the grouping, and a NULL `jumlah` adds nothing to its group. A missing `stok_minimum` and a missing supplier name (no match, or a NULL name) are modelled.
- `purchase_order_items`, `sales_orders` and `inventory_transactions` are loaded but never read by a view. They are modelled only as "loaded or empty", with abstract row types.
- The columns that the views carry along but never compute on (`namabarang`, `kategori` and the other columns of `products` and `suppliers`) are kept only where a view displays them.
- `pd.DataFrame.empty` is also true for a frame with rows but no columns. This case cannot arise from a successful `SELECT *` and is not modelled. Emptiness means no rows.
