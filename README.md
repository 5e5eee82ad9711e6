# Shopify & Razorpay reconciliation — a Dafny model

`reco_app.py` reconciles a storefront's orders with the settlements of its
payment gateway and reports sales per product category. This project models
the reconciliation itself (reco_app.py lines 24–109) and proves what it
promises. The model follows the script's six stages:

1. **Order keys** (`keys.dfy`, module `OrderKeys`). Orders without a subtotal
   are dropped. Each order's canonical key is its payment reference, or its
   name when it has none, with a trailing `.` plus one digit removed (an
   instalment suffix). The in-place column rewrite of lines 36–37 is also
   modelled on an array: one method per rewrite and one running both.
2. **Settlement** (`settlement.dfy`, module `Settlement`). A payment feeds
   the credit stream and a refund feeds the debit stream. A row counts only
   when it settled strictly before 1 July 2024 and its receipt starts with `#`
   or `r`. Each stream is summed per (receipt, month name). The two streams
   are outer-merged, with 0 for a missing side. `sales = amount − debit` is
   then summed per receipt.
3. **Join** (`matching.dfy`, module `Matching`). The per-receipt totals are
   joined one-to-one to the order keys. A repeated key on either side is an
   error.
4. **Classification** (`classify.dfy`, module `Classify`). Receipts are
   return-only, order-only or mixed. Line items are selected by receipt or by
   order name, then by sale kind.
5. **Report** (`report.dfy`, module `Report`). The final table holds the
   order-only items, the return-only items, one "Shipping" row per order
   named by the return items, and another per order named by the order items
   (so an order named by both gets two). Missing categories are back-filled with the most frequent one,
   both as a function and in place on an array.
   The table is summed per category, and the five largest categories are kept.
6. **The run end to end** (`pipeline.dfy`, module `Pipeline`). It composes the
   stages, and its failure cases and summary are stated as lemmas. A
   one-order scenario is worked through in full.

Generic table operations live in `tables.dfy` (module `Tables`): sums over
rows, boolean-mask filters, and group-by-sum. The spreadsheet records live in
`records.dfy` (module `Records`).

Modelling choices:
- Amounts are integers in minor currency units.
- Timestamps are integer seconds. The cutoff is 1719792000, which is
  2024-07-01T00:00:00Z.
- The month name (`strftime('%B')`) is a function parameter `monthName`.
- An empty spreadsheet cell is `Option.None`.
- A grouped table is a sequence of `Bucket(key, total)` rows with distinct
  keys.

## Model

| member | source | states |
|---|---|---|
| `OrderKeys.CompleteOrders` | reco_app.py:27 | an order is kept exactly when it has a subtotal, as many times as it occurs; nothing is added |
| `OrderKeys.CompleteOrdersSharedKey` | reco_app.py:27 | two kept orders share a canonical key exactly when two orders with a subtotal do |
| `OrderKeys.StripDotDigit` | reco_app.py:37 | a trailing `.`+digit (also just before a final newline, as Python's `$` allows) is removed and the rest is kept; any other reference is unchanged; the length drops by 2 or not at all |
| `OrderKeys.StripUndoesSuffix` | reco_app.py:37 | appending `.`+digit to any reference and stripping gives the reference back |
| `OrderKeys.StripKeepsPlainReference` | reco_app.py:37 | a reference not ending in a digit or newline is left as it is |
| `OrderKeys.StripIsNotRepeated` | reco_app.py:37 | only one suffix is removed: `#7.1.2` becomes `#7.1`, not `#7` |
| `OrderKeys.CanonicalRef` | reco_app.py:36-37 | the key is the stripped payment reference when present, else the stripped order name |
| `OrderKeys.KeyTable` | reco_app.py:35-37 | one key row per order, in order, holding its name and its canonical key |
| `OrderKeys.FillReferences` | reco_app.py:36 | in place: every empty reference becomes the order's name; filled ones and names are unchanged |
| `OrderKeys.StripReferences` | reco_app.py:37 | in place: every reference is replaced by its stripped form |
| `OrderKeys.NormalizeReferences` | reco_app.py:35-37 | in place: after both rewrites each row holds its order's canonical key |
| `Settlement.StreamAgg` | reco_app.py:42-53 | a stream's per-(receipt, month) groups have distinct keys |
| `Settlement.StreamAggValue` | reco_app.py:42-53 | the group of a (receipt, month) holds the sum of the amounts (credit) or debits (debit) of that receipt's eligible transactions settled in that month, and 0 when there are none |
| `Settlement.StreamRowsSkip` | reco_app.py:42-43 | a transaction outside a stream (wrong type, settled on or after the cutoff or never, receipt not starting with `#`/`r`) contributes no row to it |
| `Settlement.StreamRowsSum` | reco_app.py:42-53 | per receipt, a stream's rows (`StreamRows`, lines 42–45 and 49–52) sum to the receipt's eligible amounts (credit) or debits (debit), across all months |
| `Settlement.StreamRowsKeys` | reco_app.py:42-53 | a (receipt, month) key occurs in a stream's rows (`StreamRows`) exactly when some eligible transaction of that receipt settled in that month |
| `Settlement.OuterMerge` | reco_app.py:56 | the merged keys are the union of both streams' keys, without repeats |
| `Settlement.OuterMergeSums` | reco_app.py:56 | under any key filter the merged amount column sums to the credit stream and the debit column to the debit stream |
| `Settlement.OuterMergeRows` | reco_app.py:56 | each merged row carries its key's credit and debit; a key missing from one side has 0 there |
| `Settlement.ReduceByReceipt` | reco_app.py:59-60 | one row per receipt of the merged rows, no repeats, and each has `sales == amount - debit` |
| `Settlement.ReduceIntoSum` | reco_app.py:60 | folding merged rows into per-receipt totals preserves each receipt's sum of every column |
| `Settlement.ReduceByReceiptRow` | reco_app.py:59-60 | each receipt's totals are the sums of its merged rows' amount, debit and sales |
| `Settlement.Settle` | reco_app.py:42-60 | the settled table never repeats a receipt and always has `sales == amount - debit` |
| `Settlement.SettleConserves` | reco_app.py:42-60 | a receipt's credit is the sum of its eligible payments and its debit the sum of its eligible refunds, whatever months they fall in, and its sales is their difference |
| `Settlement.SettleReceipts` | reco_app.py:42-60 | a receipt is settled exactly when it has an eligible payment or refund |
| `Settlement.SettleIgnores` | reco_app.py:42-60 | removing a transaction that is in neither stream leaves the settled table unchanged |
| `Matching.FindOrder` | reco_app.py:63 | finds a key row whose canonical key is the receipt, and finds none exactly when no such row exists |
| `Matching.FindOrderUnique` | reco_app.py:63 | with distinct keys, the order found for a key is the one that carries it |
| `Matching.InnerJoin` | reco_app.py:63 | the join has no more rows than there are receipts |
| `Matching.InnerJoinSound` | reco_app.py:63 | every joined row pairs a receipt's totals with an order whose key is that receipt |
| `Matching.InnerJoinComplete` | reco_app.py:63 | every receipt that has an order is joined to it |
| `Matching.InnerJoinDistinct` | reco_app.py:63 | the join repeats no receipt and invents none |
| `Matching.JoinOneToOne` | reco_app.py:63 | the join fails exactly when a key repeats on either side, and names the offending side; otherwise it is the inner join |
| `Matching.JoinPairsExactly` | reco_app.py:63 | after a successful join each receipt with an order appears exactly once, paired with that order |
| `Matching.SettledJoinFailsOnlyOnOrders` | reco_app.py:63 | against settled totals, the join fails exactly when two orders share a canonical key, and then on the orders' side |
| `Classify.ClassesExclusive` | reco_app.py:69-79 | return-only, order-only and mixed are pairwise exclusive; a receipt with no credit and no debit is in none |
| `Classify.OnlyReturns` | reco_app.py:69 | holds exactly the matched receipts with debit > 0 and amount = 0 |
| `Classify.OnlyOrders` | reco_app.py:74 | holds exactly the matched receipts with amount > 0 and debit = 0 |
| `Classify.BothKinds` | reco_app.py:79 | holds exactly the matched receipts with amount > 0 and debit > 0 |
| `Classify.ClassSetsDisjoint` | reco_app.py:69-79 | no receipt falls in two of the three class tables |
| `Classify.LinesOf` | reco_app.py:66 | a line item is selected exactly when its order name is the receipt or the order name of a given receipt, and then as many times as it occurs |
| `Classify.ReturnLinesExactly` | reco_app.py:70-71 | a line is in `ReturnLines` exactly when it is of kind "return" and names a return-only receipt or its order |
| `Classify.ReturnLinesCount` | reco_app.py:70-71 | a selected return line occurs as often as in the line items; any other line does not occur |
| `Classify.OrderLinesExactly` | reco_app.py:75-76 | a line is in `OrderLines` exactly when it is of kind "order" and names an order-only receipt or its order |
| `Classify.OrderLinesCount` | reco_app.py:75-76 | a selected order line occurs as often as in the line items; any other line does not occur |
| `Classify.MixedLinesExactly` | reco_app.py:80 | the mixed selection keeps the lines of either kind naming a mixed receipt or its order |
| `Report.ItemRows` | reco_app.py:71-76 | one final-table row per selected line, in order, keeping only its order name, category, sales and units |
| `Report.ShippingRows` | reco_app.py:83-86 | one "Shipping" row per order, with total sales equal to its shipping and 0 units |
| `Report.ShippingFor` | reco_app.py:89-90 | holds exactly the shipping rows of the orders whose name occurs among the given items |
| `Report.ShippingForCount` | reco_app.py:89-90 | a row occurs once for each order named among the items whose shipping row it is |
| `Report.FinalTableRows` | reco_app.py:93 | the final table (`FinalTable`) holds exactly the order-only items, the return-only items and the shipping rows of the orders they name |
| `Report.FinalTableCount` | reco_app.py:93 | a row occurs as often as among the order items, plus among the return items, plus once per order whose shipping it is and that the return items name, plus once per such order that the order items name |
| `Report.ShippingTwice` | reco_app.py:89-93 | an order named by both an order item and a return item gets two Shipping rows, as the two concatenated shipping tables give |
| `Report.Categories` | reco_app.py:94 | lists exactly the categories present in the table, each as many times as rows carry it |
| `Report.ModeFrom` | reco_app.py:94 | the scan ends with a most frequent category, no earlier category being as frequent |
| `Report.Mode` | reco_app.py:94 | the chosen category is a most frequent one, the first such to occur |
| `Report.FillWith` | reco_app.py:94 | every empty category gets the given one; categorised rows are unchanged |
| `Report.FillMissing` | reco_app.py:94 | fails exactly when no row has a category; otherwise every row has one, filled rows get the mode, and no other field changes |
| `Report.FillInPlace` | reco_app.py:94 | in place: the array becomes the back-fill of its old contents with the given category |
| `Report.FillMissingInPlace` | reco_app.py:94 | in place: succeeds exactly when some row has a category, and then fills the empty ones with the mode; otherwise leaves the table unchanged |
| `Report.CategoryTotals` | reco_app.py:96 | one group per category, no repeats |
| `Report.CategoryTotalsValue` | reco_app.py:96 | each category's group holds the total sales of the rows of that category, and 0 when there are none |
| `Report.CategoryRowsSum` | reco_app.py:96 | once every row has a category, the category column rows sum to the table's total sales |
| `Report.CategoryRowsKeys` | reco_app.py:96 | a category is grouped exactly when some row carries it |
| `Report.CategoryTotalsConserve` | reco_app.py:96 | the category totals sum to the table's total sales, with a group for each category present and no other |
| `Report.ArgMaxIsMax` | reco_app.py:109 | the picked group is at least as large as every other and strictly larger than any before it |
| `Report.TopN` | reco_app.py:109 | keeps `min(n, number of groups)` groups |
| `Report.TopNKeeps` | reco_app.py:109 | every kept group is one of the groups, and none is kept twice |
| `Report.TopNSorted` | reco_app.py:109 | the kept groups are in descending order of total |
| `Report.TopNLargest` | reco_app.py:109 | no left-out group is larger than a kept one |
| `Pipeline.Reconcile` | reco_app.py:24-109 | a successful run has every row categorised, distinct category groups and `min(5, groups)` top categories |
| `Pipeline.ReconcileFailures` | reco_app.py:27-94 | a run fails at the join (`Matches`, lines 27–63) exactly when two orders with a subtotal share a canonical key, always on the orders' side; it fails at the back-fill exactly when the join succeeds and no unified row has a category |
| `Pipeline.ReconcileSummary` | reco_app.py:93-109 | each category's total is the sales of the final table's rows of that category, the totals add up to the final table's sales, a category is grouped exactly when present, and the top five are distinct groups in descending order with no larger one left out |
| `Pipeline.UnifiedRows` | reco_app.py:66-93 | a row is in the unified table (`Unified`) exactly when it is an order line naming an order-only receipt, a return line naming a return-only receipt, or the shipping row of an order with a subtotal that such a line names |
| `Pipeline.ReconcileRows` | reco_app.py:66-94 | row `i` of a successful run's table is row `i` of the unified table, which comes from the sources as above, with sales, units and order kept, and a missing category replaced by a most frequent one |
| `Pipeline.ReconcileCovers` | reco_app.py:66-94 | every row the sources call for appears, back-filled, in a successful run's table |
| `Pipeline.SinglePaymentSettles` | reco_app.py:42-60 | one payment of 90 settled in June 2024 gives its receipt credit 90, debit 0, sales 90 |
| `Pipeline.SingleOrderMatches` | reco_app.py:27-63 | an order without a payment reference is keyed by its name and joined to that receipt |
| `Pipeline.SingleOrderUnified` | reco_app.py:66-93 | that order-only receipt yields its Apparel item and its Shipping row |
| `Pipeline.SingleOrderScenario` | reco_app.py:24-109 | the whole run reports Apparel 80 and Shipping 10, Apparel first |

## Left out

- The Streamlit interface (title, uploaders, `st.write`, `st.dataframe`) and the missing-file branch: presentation only.
- Reading the three Excel files and the header normalisation of line 24: I/O and schema plumbing; the model starts from typed records.
- The matplotlib charts after line 109: rendering only.
- The `orders_report` projection (lines 30–32): never used later.
- The `day` column and the column drops of lines 71, 76 and 80: `FinalRow` keeps only order name, category, total sales and units. The `index` column added by `reset_index()` at lines 89–90 is dropped too.
- Floating-point amounts and NaN propagation: amounts are integers, and an empty cell is an `Option`.
- The locale and year of `strftime('%B')`: the month name is an uninterpreted function of the timestamp, so months of different years with the same name share a group, as in the script.
- Unicode digits: `\d` is modelled as ASCII `0`–`9`.
- The exact `MergeError` type: a failed join is the `JoinError` value `NotOneToOne(side)`.
- The order of groups: pandas sorts group keys, while the model keeps first-appearance order. Sums and memberships do not depend on it.
- `Report.Mode`: when several categories are equally frequent, the model picks the one that occurs first. pandas' `value_counts().idxmax()` picks by its own count ordering, which the model does not reproduce.
- `Report.TopN`: among groups with equal totals, which one `nlargest` keeps depends on pandas' key order; the model keeps the earliest. Only "at most five, descending, none larger left out" is stated.
- `Settlement.OuterMerge`: it adds each debit into the row for its key rather than aligning two indexes. This equals pandas' outer join because both streams were grouped first, so their keys are distinct.
- Mixed receipts: `Classify.MixedLines` models the selection of line 80, but its result never reaches the final table, as in the script. Mixed receipts therefore contribute no rows and no shipping.
- `OrderKeys.CompleteOrders`: its contract states which orders are kept and how many times each, not that they keep their original relative order; the sums, memberships and counts stated downstream do not depend on that order.

Behaviour of the script worth noting:
- A receipt with no order is dropped by the inner join. It is not an error.
- `validate='one_to_one'` checks uniqueness over all keys of each side, whether or not they match. So two orders sharing a canonical key fail the run even when no receipt carries that key.
- An empty final table, or one with no category at all, makes `idxmax` fail. The run then stops with `NothingToImpute`.
