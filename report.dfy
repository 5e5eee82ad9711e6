/** Stage 6: the final sales table (classified line items plus synthetic
    shipping rows), the back-fill of missing categories with the most frequent
    one, the per-category totals and the five largest of them
    (reco_app.py lines 83-96 and 109). */
module Report {
  import opened Tables
  import opened Records

  /** A row of `final_table`. */
  datatype FinalRow = FinalRow(orderName: string, productType: Option<string>, totalSales: int, units: int)

  /** A line item as it enters the final table, with only the columns the report uses. */
  function ItemRow(l: SaleLine): FinalRow
  {
    FinalRow(l.orderName, l.productType, l.totalSales, l.units)
  }

  function ItemRows(ls: seq<SaleLine>): (r: seq<FinalRow>)
    ensures |r| == |ls|
    ensures forall i :: 0 <= i < |ls| ==> r[i] == ItemRow(ls[i])
  {
    if ls == [] then [] else [ItemRow(ls[0])] + ItemRows(ls[1..])
  }

  lemma {:induction false} ItemRowsMembers(ls: seq<SaleLine>, row: FinalRow)
    ensures row in ItemRows(ls) <==> exists l :: l in ls && row == ItemRow(l)
  {
    if row in ItemRows(ls) {
      var i :| 0 <= i < |ls| && ItemRows(ls)[i] == row;
      assert ls[i] in ls;
    }
    if l :| l in ls && row == ItemRow(l) {
      var i :| 0 <= i < |ls| && ls[i] == l;
      assert ItemRows(ls)[i] == row;
    }
  }

  /** The synthetic line item that carries an order's shipping charge. */
  function ShippingRow(o: Order): FinalRow
  {
    FinalRow(o.name, Some("Shipping"), o.shipping, 0)
  }

  predicate NameIn(name: string, rows: seq<FinalRow>)
  {
    exists row :: row in rows && row.orderName == name
  }

  lemma NameInItems(ls: seq<SaleLine>, name: string)
    ensures NameIn(name, ItemRows(ls)) <==> exists l :: l in ls && l.orderName == name
  {
    if NameIn(name, ItemRows(ls)) {
      var row :| row in ItemRows(ls) && row.orderName == name;
      ItemRowsMembers(ls, row);
    }
    if l :| l in ls && l.orderName == name {
      ItemRowsMembers(ls, ItemRow(l));
    }
  }

  function ShippingRows(orders: seq<Order>): (r: seq<FinalRow>)
    ensures |r| == |orders|
    ensures forall i :: 0 <= i < |orders| ==> r[i] == ShippingRow(orders[i])
  {
    if orders == [] then [] else [ShippingRow(orders[0])] + ShippingRows(orders[1..])
  }

  /** `shipping_value[shipping_value['order_name'].isin(items['order_name'])]`:
      one shipping row per order whose name occurs among `items`. */
  function ShippingFor(orders: seq<Order>, items: seq<FinalRow>): (r: seq<FinalRow>)
    ensures forall row :: row in r <==> exists o :: o in orders && NameIn(o.name, items) && row == ShippingRow(o)
  {
    var named := Filter(orders, NamedBy(items));
    var r := ShippingRows(named);
    assert forall row :: row in r ==> exists o :: o in named && row == ShippingRow(o) by {
      forall row | row in r ensures exists o :: o in named && row == ShippingRow(o) {
        var i :| 0 <= i < |r| && r[i] == row;
        assert named[i] in named;
      }
    }
    assert forall o :: o in named ==> ShippingRow(o) in r by {
      forall o | o in named ensures ShippingRow(o) in r {
        var i :| 0 <= i < |named| && named[i] == o;
        assert r[i] == ShippingRow(o);
      }
    }
    r
  }

  /** The orders whose name occurs among `items` (`isin`). */
  function NamedBy(items: seq<FinalRow>): Order -> bool
  {
    (o: Order) => NameIn(o.name, items)
  }

  /** Counts an order when `row` is its shipping row. */
  function ShipsAs(row: FinalRow): Order -> int
  {
    (o: Order) => if ShippingRow(o) == row then 1 else 0
  }

  lemma {:induction false} ShippingRowsCount(orders: seq<Order>, row: FinalRow)
    ensures multiset(ShippingRows(orders))[row] == Sum(orders, ShipsAs(row))
  {
    if orders != [] {
      assert ShippingRows(orders) == [ShippingRow(orders[0])] + ShippingRows(orders[1..]);
      ShippingRowsCount(orders[1..], row);
    }
  }

  /** A shipping row occurs once for each order named among `items` whose
      shipping row it is. */
  lemma ShippingForCount(orders: seq<Order>, items: seq<FinalRow>, row: FinalRow)
    ensures multiset(ShippingFor(orders, items))[row] == Sum(orders, Masked(NamedBy(items), ShipsAs(row)))
  {
    ShippingRowsCount(Filter(orders, NamedBy(items)), row);
    FilterSum(orders, NamedBy(items), ShipsAs(row));
  }

  /** `final_table`: order items, return items, shipping for returns, shipping
      for orders, in that order. */
  function FinalTable(orderItems: seq<FinalRow>, returnItems: seq<FinalRow>, orders: seq<Order>): seq<FinalRow>
  {
    orderItems + returnItems + ShippingFor(orders, returnItems) + ShippingFor(orders, orderItems)
  }

  /** The final table holds the items, the shipping rows of the orders named by
      the items, and nothing else. */
  lemma FinalTableRows(orderItems: seq<FinalRow>, returnItems: seq<FinalRow>, orders: seq<Order>, row: FinalRow)
    ensures row in FinalTable(orderItems, returnItems, orders) <==>
      || row in orderItems
      || row in returnItems
      || exists o :: o in orders && (NameIn(o.name, returnItems) || NameIn(o.name, orderItems)) && row == ShippingRow(o)
  {
  }

  /** Each row occurs in the final table as often as among the order items,
      plus as often as among the return items, plus once per order named by a
      return item and once more per order named by an order item whose
      shipping row it is. */
  lemma FinalTableCount(orderItems: seq<FinalRow>, returnItems: seq<FinalRow>, orders: seq<Order>, row: FinalRow)
    ensures multiset(FinalTable(orderItems, returnItems, orders))[row] ==
      multiset(orderItems)[row] + multiset(returnItems)[row]
      + Sum(orders, Masked(NamedBy(returnItems), ShipsAs(row)))
      + Sum(orders, Masked(NamedBy(orderItems), ShipsAs(row)))
  {
    ShippingForCount(orders, returnItems, row);
    ShippingForCount(orders, orderItems, row);
  }

  /** An order named both by an order item and by a return item gets two
      shipping rows, one from each of the concatenated shipping tables. */
  lemma ShippingTwice()
    ensures multiset(FinalTable([FinalRow("#1", Some("Apparel"), 50, 1)], [FinalRow("#1", Some("Apparel"), -50, -1)],
      [Order("#1", Some(50), 7, None)]))[FinalRow("#1", Some("Shipping"), 7, 0)] == 2
  {
    var o := Order("#1", Some(50), 7, None);
    var oi := [FinalRow("#1", Some("Apparel"), 50, 1)];
    var ri := [FinalRow("#1", Some("Apparel"), -50, -1)];
    FinalTableCount(oi, ri, [o], ShippingRow(o));
    assert NameIn("#1", oi) && NameIn("#1", ri) by {
      assert oi[0] in oi && ri[0] in ri;
    }
    assert [o][1..] == [];
  }

  function TotalSales(row: FinalRow): int
  {
    row.totalSales
  }

  // ---------------------------------------------------------------------------
  // Back-fill of missing categories with the most frequent one

  /** Counts a row when its category is `c`. */
  function Tally(c: string): FinalRow -> int
  {
    (row: FinalRow) => if row.productType == Some(c) then 1 else 0
  }

  /** A row's sales when its category is `c`, else 0. */
  function SalesIn(c: string): FinalRow -> int
  {
    (row: FinalRow) => if row.productType == Some(c) then row.totalSales else 0
  }

  /** The categories present, in row order (`value_counts` skips empty cells). */
  function Categories(rows: seq<FinalRow>): (r: seq<string>)
    ensures forall c :: c in r <==> exists row :: row in rows && row.productType == Some(c)
    ensures forall c :: Count(r, c) == Sum(rows, Tally(c))
  {
    if rows == [] then []
    else (if rows[0].productType.Some? then [rows[0].productType.value] else []) + Categories(rows[1..])
  }

  function Count(s: seq<string>, x: string): nat
  {
    multiset(s)[x]
  }

  function FirstIndex(s: seq<string>, x: string): (i: nat)
    requires x in s
    ensures i < |s| && s[i] == x
    ensures forall j :: 0 <= j < i ==> s[j] != x
  {
    if s[0] == x then 0 else 1 + FirstIndex(s[1..], x)
  }

  /** `c` is the category `value_counts().idxmax()` is taken to be: no category
      occurs more often, and every category met before it occurs less often. */
  predicate IsMode(cats: seq<string>, c: string)
  {
    && c in cats
    && (forall j :: 0 <= j < |cats| ==> Count(cats, cats[j]) <= Count(cats, c))
    && (forall j :: 0 <= j < FirstIndex(cats, c) ==> Count(cats, cats[j]) < Count(cats, c))
  }

  /** Scans `cats` from index `i` on, keeping the earliest most frequent
      category seen so far in `best`. */
  function ModeFrom(cats: seq<string>, i: nat, best: string): (r: string)
    requires i <= |cats|
    requires best in cats[..i]
    requires forall j :: 0 <= j < i ==> Count(cats, cats[j]) <= Count(cats, best)
    requires forall j :: 0 <= j < FirstIndex(cats, best) ==> Count(cats, cats[j]) < Count(cats, best)
    ensures IsMode(cats, r)
    decreases |cats| - i
  {
    if i == |cats| then
      assert cats[..i] == cats;
      best
    else if Count(cats, cats[i]) > Count(cats, best) then
      assert forall j :: 0 <= j < i ==> cats[j] != cats[i];
      assert FirstIndex(cats, cats[i]) == i;
      ModeFrom(cats, i + 1, cats[i])
    else
      assert cats[..i + 1] == cats[..i] + [cats[i]];
      ModeFrom(cats, i + 1, best)
  }

  function Mode(cats: seq<string>): (r: string)
    requires cats != []
    ensures IsMode(cats, r)
  {
    assert cats[..1] == [cats[0]];
    ModeFrom(cats, 1, cats[0])
  }

  /** Every row without a category gets `c`; the others are left as they are. */
  function FillWith(rows: seq<FinalRow>, c: string): (r: seq<FinalRow>)
    ensures |r| == |rows|
    ensures forall i :: 0 <= i < |rows| ==>
      r[i] == rows[i].(productType := Some(rows[i].productType.GetOr(c)))
  {
    if rows == [] then []
    else [rows[0].(productType := Some(rows[0].productType.GetOr(c)))] + FillWith(rows[1..], c)
  }

  datatype ReportError = NoCategoryToImpute

  predicate AllCategorised(rows: seq<FinalRow>)
  {
    forall i :: 0 <= i < |rows| ==> rows[i].productType.Some?
  }

  /** Line 94: fills the empty categories with the most frequent one. With no
      category at all `idxmax` has nothing to pick and the script fails. */
  function FillMissing(rows: seq<FinalRow>): (r: Result<seq<FinalRow>, ReportError>)
    ensures r.Err? <==> forall i :: 0 <= i < |rows| ==> rows[i].productType.None?
    ensures r.Ok? ==> AllCategorised(r.value) && |r.value| == |rows|
    ensures r.Ok? ==> forall i :: 0 <= i < |rows| ==>
      && r.value[i].orderName == rows[i].orderName
      && r.value[i].totalSales == rows[i].totalSales
      && r.value[i].units == rows[i].units
      && (rows[i].productType.Some? ==> r.value[i].productType == rows[i].productType)
      && (rows[i].productType.None? ==> IsMode(Categories(rows), r.value[i].productType.value))
  {
    var cats := Categories(rows);
    if cats == [] then
      assert forall i :: 0 <= i < |rows| ==> rows[i].productType.None? by {
        forall i | 0 <= i < |rows| ensures rows[i].productType.None? {
          assert rows[i] in rows;
        }
      }
      Err(NoCategoryToImpute)
    else
      Ok(FillWith(rows, Mode(cats)))
  }

  /** Line 94 as the script runs it, on the table in place. */
  method FillMissingInPlace(table: array<FinalRow>) returns (ok: bool)
    modifies table
    ensures ok <==> Categories(old(table[..])) != []
    ensures ok ==> table[..] == FillWith(old(table[..]), Mode(Categories(old(table[..]))))
    ensures !ok ==> table[..] == old(table[..])
  {
    var cats := Categories(table[..]);
    if cats == [] {
      return false;
    }
    FillInPlace(table, Mode(cats));
    ok := true;
  }

  /** The loop of line 94: every empty category in `table` becomes `c`. */
  method FillInPlace(table: array<FinalRow>, c: string)
    modifies table
    ensures table[..] == FillWith(old(table[..]), c)
  {
    ghost var orig := table[..];
    for i := 0 to table.Length
      invariant forall j :: 0 <= j < i ==> table[j] == orig[j].(productType := Some(orig[j].productType.GetOr(c)))
      invariant forall j :: i <= j < table.Length ==> table[j] == orig[j]
    {
      if table[i].productType.None? {
        table[i] := table[i].(productType := Some(c));
      }
    }
  }

  // ---------------------------------------------------------------------------
  // Per-category totals

  /** The rows as (category, total sales); `groupby` leaves out rows without a
      category. */
  function CategoryRows(rows: seq<FinalRow>): (r: seq<Bucket<string>>)
  {
    if rows == [] then []
    else
      var head := if rows[0].productType.Some? then [Bucket(rows[0].productType.value, rows[0].totalSales)] else [];
      head + CategoryRows(rows[1..])
  }

  /** `grouped_table`: total sales per category. */
  function CategoryTotals(rows: seq<FinalRow>): (r: seq<Bucket<string>>)
    ensures DistinctKeys(r)
  {
    GroupSum(CategoryRows(rows))
  }

  lemma {:induction false} CategoryRowsSum(rows: seq<FinalRow>)
    requires AllCategorised(rows)
    ensures Sum(CategoryRows(rows), Where(AllKeys())) == Sum(rows, TotalSales)
  {
    if rows != [] {
      assert AllCategorised(rows[1..]);
      CategoryRowsSum(rows[1..]);
    }
  }

  lemma {:induction false} CategoryRowsKeys(rows: seq<FinalRow>, c: string)
    ensures c in Keys(CategoryRows(rows)) <==> exists row :: row in rows && row.productType == Some(c)
  {
    if rows != [] {
      var head := if rows[0].productType.Some? then [Bucket(rows[0].productType.value, rows[0].totalSales)] else [];
      KeysConcat(head, CategoryRows(rows[1..]));
      CategoryRowsKeys(rows[1..], c);
      assert forall row :: row in rows <==> row == rows[0] || row in rows[1..];
    }
  }

  /** The category rows of `c` carry the sales of the rows of category `c`. */
  lemma {:induction false} CategoryRowsValue(rows: seq<FinalRow>, c: string)
    ensures Sum(CategoryRows(rows), Where(KeyIs(c))) == Sum(rows, SalesIn(c))
  {
    if rows != [] {
      var head := if rows[0].productType.Some? then [Bucket(rows[0].productType.value, rows[0].totalSales)] else [];
      SumConcat(head, CategoryRows(rows[1..]), Where(KeyIs(c)));
      CategoryRowsValue(rows[1..], c);
    }
  }

  /** `grouped_table`'s entry for `c` is the total sales of the rows of
      category `c`; a category no row carries reads 0. */
  lemma CategoryTotalsValue(rows: seq<FinalRow>, c: string)
    ensures Lookup(CategoryTotals(rows), c) == Sum(rows, SalesIn(c))
  {
    GroupSumLookup(CategoryRows(rows), c);
    CategoryRowsValue(rows, c);
  }

  /** Grouping by category loses no sale: once every row has a category, the
      category totals sum to the table's total sales, and there is one group
      per category present. */
  lemma CategoryTotalsConserve(rows: seq<FinalRow>, c: string)
    requires AllCategorised(rows)
    ensures Sum(CategoryTotals(rows), Where(AllKeys())) == Sum(rows, TotalSales)
    ensures c in Keys(CategoryTotals(rows)) <==> exists row :: row in rows && row.productType == Some(c)
  {
    GroupSumConserves(CategoryRows(rows), AllKeys());
    CategoryRowsSum(rows);
    CategoryRowsKeys(rows, c);
  }

  // ---------------------------------------------------------------------------
  // The five largest categories

  /** The index of the largest total, the earliest on a tie. */
  function ArgMax<K>(bs: seq<Bucket<K>>): (i: nat)
    requires bs != []
    ensures i < |bs|
  {
    if |bs| == 1 then 0
    else
      var k := ArgMax(bs[1..]);
      if bs[0].total >= bs[k + 1].total then 0 else k + 1
  }

  /** `ArgMax` finds a largest total, and the first one. */
  lemma {:induction false} ArgMaxIsMax<K>(bs: seq<Bucket<K>>)
    requires bs != []
    ensures forall j :: 0 <= j < |bs| ==> bs[j].total <= bs[ArgMax(bs)].total
    ensures forall j :: 0 <= j < ArgMax(bs) ==> bs[j].total < bs[ArgMax(bs)].total
  {
    if |bs| > 1 {
      ArgMaxIsMax(bs[1..]);
    }
  }

  /** `bs` without its row at index `i`. */
  function RemoveAt<K>(bs: seq<Bucket<K>>, i: nat): (r: seq<Bucket<K>>)
    requires i < |bs|
    ensures |r| == |bs| - 1
  {
    bs[..i] + bs[i + 1..]
  }

  /** `RemoveAt` drops exactly the row at `i`: every other row stays, nothing
      new appears, and with distinct keys the dropped key is gone. */
  lemma RemoveAtRows<K>(bs: seq<Bucket<K>>, i: nat, y: Bucket<K>)
    requires i < |bs|
    ensures y in RemoveAt(bs, i) ==> y in bs
    ensures y in bs && y != bs[i] ==> y in RemoveAt(bs, i)
    ensures DistinctKeys(bs) ==> DistinctKeys(RemoveAt(bs, i)) && bs[i].key !in Keys(RemoveAt(bs, i))
  {
    var r := RemoveAt(bs, i);
    assert forall j :: 0 <= j < i ==> r[j] == bs[j];
    assert forall j :: i <= j < |r| ==> r[j] == bs[j + 1];
    if y in bs && y != bs[i] {
      var j :| 0 <= j < |bs| && bs[j] == y;
      if j < i {
        assert r[j] == y;
      } else {
        assert r[j - 1] == y;
      }
    }
  }

  /** `nlargest(n)`: repeatedly takes the largest remaining group, `n` times
      or until none is left. */
  function TopN<K>(bs: seq<Bucket<K>>, n: nat): (r: seq<Bucket<K>>)
    ensures |r| == if n < |bs| then n else |bs|
    decreases n
  {
    if n == 0 || bs == [] then []
    else
      var i := ArgMax(bs);
      [bs[i]] + TopN(RemoveAt(bs, i), n - 1)
  }

  lemma TopNStep<K>(bs: seq<Bucket<K>>, n: nat)
    requires n != 0 && bs != []
    ensures TopN(bs, n) == [bs[ArgMax(bs)]] + TopN(RemoveAt(bs, ArgMax(bs)), n - 1)
  {
  }

  /** `TopN` only takes groups of `bs`, and takes no key twice when `bs` has
      distinct keys. */
  lemma {:induction false} TopNKeeps<K>(bs: seq<Bucket<K>>, n: nat)
    ensures forall x :: x in TopN(bs, n) ==> x in bs
    ensures DistinctKeys(bs) ==> DistinctKeys(TopN(bs, n))
    decreases n
  {
    if n != 0 && bs != [] {
      var i := ArgMax(bs);
      var rest := RemoveAt(bs, i);
      var tail := TopN(rest, n - 1);
      TopNStep(bs, n);
      TopNKeeps(rest, n - 1);
      forall x | x in tail
        ensures x in bs
      {
        RemoveAtRows(bs, i, x);
      }
      if DistinctKeys(bs) {
        RemoveAtRows(bs, i, bs[i]);
        assert bs[i].key !in Keys(tail);
        DistinctCons(bs[i], tail);
      }
    }
  }

  /** The groups come largest first. */
  predicate Descending<K>(bs: seq<Bucket<K>>)
  {
    forall i, j :: 0 <= i < j < |bs| ==> bs[j].total <= bs[i].total
  }

  lemma ConsDescending<K>(x: Bucket<K>, tail: seq<Bucket<K>>)
    requires Descending(tail)
    requires forall y :: y in tail ==> y.total <= x.total
    ensures Descending([x] + tail)
  {
    var r := [x] + tail;
    forall a, b | 0 <= a < b < |r|
      ensures r[b].total <= r[a].total
    {
      assert r[b] == tail[b - 1] && tail[b - 1] in tail;
      if a > 0 {
        assert r[a] == tail[a - 1];
      }
    }
  }

  /** A group still left after the largest is taken is no larger than it. */
  lemma BelowMax<K>(bs: seq<Bucket<K>>, y: Bucket<K>)
    requires bs != [] && y in RemoveAt(bs, ArgMax(bs))
    ensures y.total <= bs[ArgMax(bs)].total
  {
    ArgMaxIsMax(bs);
    RemoveAtRows(bs, ArgMax(bs), y);
  }

  lemma SortedStep<K>(bs: seq<Bucket<K>>, tail: seq<Bucket<K>>)
    requires bs != []
    requires Descending(tail)
    requires forall y :: y in tail ==> y in RemoveAt(bs, ArgMax(bs))
    ensures Descending([bs[ArgMax(bs)]] + tail)
  {
    forall y | y in tail
      ensures y.total <= bs[ArgMax(bs)].total
    {
      BelowMax(bs, y);
    }
    ConsDescending(bs[ArgMax(bs)], tail);
  }

  /** The groups kept come largest first. */
  lemma {:induction false} TopNSorted<K>(bs: seq<Bucket<K>>, n: nat)
    ensures Descending(TopN(bs, n))
    decreases n
  {
    if n != 0 && bs != [] {
      var rest := RemoveAt(bs, ArgMax(bs));
      TopNStep(bs, n);
      TopNSorted(rest, n - 1);
      TopNKeeps(rest, n - 1);
      SortedStep(bs, TopN(rest, n - 1));
    }
  }

  /** No group of `all` left out of `kept` is larger than a group kept. */
  predicate NoneLargerLeftOut<K(==)>(kept: seq<Bucket<K>>, all: seq<Bucket<K>>)
  {
    forall x, y :: x in kept && y in all && y !in kept ==> y.total <= x.total
  }

  /** No group left out by `TopN` is larger than a group it keeps. */
  lemma {:induction false} TopNLargest<K>(bs: seq<Bucket<K>>, n: nat)
    ensures NoneLargerLeftOut(TopN(bs, n), bs)
    decreases n
  {
    if n != 0 && bs != [] {
      var rest := RemoveAt(bs, ArgMax(bs));
      TopNStep(bs, n);
      TopNLargest(rest, n - 1);
      LargestStep(bs, TopN(rest, n - 1));
    }
  }

  lemma LargestStep<K>(bs: seq<Bucket<K>>, tail: seq<Bucket<K>>)
    requires bs != []
    requires NoneLargerLeftOut(tail, RemoveAt(bs, ArgMax(bs)))
    ensures NoneLargerLeftOut([bs[ArgMax(bs)]] + tail, bs)
  {
    var i := ArgMax(bs);
    ArgMaxIsMax(bs);
    forall x, y | x in [bs[i]] + tail && y in bs && y !in [bs[i]] + tail
      ensures y.total <= x.total
    {
      RemoveAtRows(bs, i, y);
    }
  }
}
