/** The reconciliation run end to end (reco_app.py lines 24-109): complete
    orders and their canonical keys, settled receipts, the one-to-one join,
    the classified line items with their shipping, the category back-fill, the
    per-category totals and the five largest categories. */
module Pipeline {
  import opened Tables
  import opened Records
  import opened OrderKeys
  import opened Settlement
  import opened Matching
  import opened Classify
  import opened Report

  /** Why a run stops without a summary: the join found a repeated key, or no
      row of the final table has a category to back-fill the others with. */
  datatype Failure = JoinFailed(error: JoinError) | NothingToImpute

  /** What a run hands to the presentation layer: the unified sales table,
      `grouped_table` and `top_5_products`. */
  datatype Summary = Summary(finalTable: seq<FinalRow>, grouped: seq<Bucket<string>>, top5: seq<Bucket<string>>)

  /** The receipts joined to their orders, or the join's failure. */
  function Matches(orders: seq<Order>, txs: seq<Transaction>, monthName: Timestamp -> string): Result<seq<Matched>, JoinError>
  {
    JoinOneToOne(Settle(txs, monthName), KeyTable(CompleteOrders(orders)))
  }

  /** `final_table` before the back-fill: order-only items, return-only items
      and the shipping rows of the orders they name. */
  function Unified(sales: seq<SaleLine>, orders: seq<Order>, matched: seq<Matched>): seq<FinalRow>
  {
    FinalTable(ItemRows(OrderLines(sales, matched)), ItemRows(ReturnLines(sales, matched)), CompleteOrders(orders))
  }

  function Reconcile(sales: seq<SaleLine>, orders: seq<Order>, txs: seq<Transaction>, monthName: Timestamp -> string): (r: Result<Summary, Failure>)
    ensures r.Ok? ==> AllCategorised(r.value.finalTable)
    ensures r.Ok? ==> DistinctKeys(r.value.grouped)
    ensures r.Ok? ==> |r.value.top5| == if |r.value.grouped| < 5 then |r.value.grouped| else 5
  {
    match Matches(orders, txs, monthName)
    case Err(e) => Err(JoinFailed(e))
    case Ok(matched) =>
      match FillMissing(Unified(sales, orders, matched))
      case Err(_) => Err(NothingToImpute)
      case Ok(filled) =>
        var grouped := CategoryTotals(filled);
        Ok(Summary(filled, grouped, TopN(grouped, 5)))
  }

  /** The run fails at the join exactly when two complete orders share a
      canonical payment key, and then always on the orders' side; otherwise it
      fails only when no row of the unified table has a category. */
  lemma ReconcileFailures(sales: seq<SaleLine>, orders: seq<Order>, txs: seq<Transaction>, monthName: Timestamp -> string)
    ensures Reconcile(sales, orders, txs, monthName).Err? && Reconcile(sales, orders, txs, monthName).error.JoinFailed? <==>
      exists i, j :: 0 <= i < j < |orders| && orders[i].subtotal.Some? && orders[j].subtotal.Some? &&
        CanonicalKey(orders[i]) == CanonicalKey(orders[j])
    ensures Reconcile(sales, orders, txs, monthName).Err? && Reconcile(sales, orders, txs, monthName).error.JoinFailed? ==>
      Reconcile(sales, orders, txs, monthName).error == JoinFailed(NotOneToOne(RightSide))
    ensures Reconcile(sales, orders, txs, monthName) == Err(NothingToImpute) <==>
      Matches(orders, txs, monthName).Ok? &&
      forall i :: 0 <= i < |Unified(sales, orders, Matches(orders, txs, monthName).value)| ==>
        Unified(sales, orders, Matches(orders, txs, monthName).value)[i].productType.None?
  {
    var m := Matches(orders, txs, monthName);
    SettledJoinFailsOnlyOnOrders(txs, monthName, CompleteOrders(orders));
    CompleteOrdersSharedKey(orders);
    if m.Err? {
      assert Reconcile(sales, orders, txs, monthName) == Err(JoinFailed(m.error));
    } else {
      var table := Unified(sales, orders, m.value);
      assert FillMissing(table).Err? <==> Reconcile(sales, orders, txs, monthName) == Err(NothingToImpute);
    }
  }

  /** A successful run loses no sale: each category's total is the sales of
      the final table's rows of that category, the totals add up to the
      table's total sales, there is a group for each category in the table and
      no other, and the five kept categories are groups, distinct, largest
      first, with no left-out category above a kept one. */
  lemma ReconcileSummary(sales: seq<SaleLine>, orders: seq<Order>, txs: seq<Transaction>, monthName: Timestamp -> string, c: string)
    requires Reconcile(sales, orders, txs, monthName).Ok?
    ensures var s := Reconcile(sales, orders, txs, monthName).value;
      Sum(s.grouped, Where(AllKeys())) == Sum(s.finalTable, TotalSales)
    ensures var s := Reconcile(sales, orders, txs, monthName).value;
      Lookup(s.grouped, c) == Sum(s.finalTable, SalesIn(c))
    ensures var s := Reconcile(sales, orders, txs, monthName).value;
      c in Keys(s.grouped) <==> exists row :: row in s.finalTable && row.productType == Some(c)
    ensures var s := Reconcile(sales, orders, txs, monthName).value;
      (forall x :: x in s.top5 ==> x in s.grouped) && DistinctKeys(s.top5) &&
      Descending(s.top5) && NoneLargerLeftOut(s.top5, s.grouped)
  {
    var s := Reconcile(sales, orders, txs, monthName).value;
    CategoryTotalsConserve(s.finalTable, c);
    CategoryTotalsValue(s.finalTable, c);
    TopNKeeps(s.grouped, 5);
    TopNSorted(s.grouped, 5);
    TopNLargest(s.grouped, 5);
  }

  /** A line item the classification selects: an order line naming an
      order-only receipt or its order, or a return line naming a return-only
      receipt or its order. */
  predicate Selected(sales: seq<SaleLine>, matched: seq<Matched>, l: SaleLine)
  {
    && l in sales
    && ((l.saleKind == "order" && Mentions(OnlyOrders(matched), l.orderName))
        || (l.saleKind == "return" && Mentions(OnlyReturns(matched), l.orderName)))
  }

  /** A row of the unified table as the source tables give it: a selected line
      item, or the shipping row of a complete order that a selected line names. */
  predicate FromSource(sales: seq<SaleLine>, orders: seq<Order>, matched: seq<Matched>, row: FinalRow)
  {
    || (exists l :: l in sales && Selected(sales, matched, l) && row == ItemRow(l))
    || (exists o, l :: o in orders && l in sales && o.subtotal.Some? && Selected(sales, matched, l)
          && l.orderName == o.name && row == ShippingRow(o))
  }

  lemma UnifiedItems(sales: seq<SaleLine>, matched: seq<Matched>, row: FinalRow)
    ensures row in ItemRows(OrderLines(sales, matched)) || row in ItemRows(ReturnLines(sales, matched)) <==>
      exists l :: Selected(sales, matched, l) && row == ItemRow(l)
  {
    ItemRowsMembers(OrderLines(sales, matched), row);
    ItemRowsMembers(ReturnLines(sales, matched), row);
    forall l
      ensures l in OrderLines(sales, matched) <==>
        l in sales && l.saleKind == "order" && Mentions(OnlyOrders(matched), l.orderName)
      ensures l in ReturnLines(sales, matched) <==>
        l in sales && l.saleKind == "return" && Mentions(OnlyReturns(matched), l.orderName)
    {
      OrderLinesExactly(sales, matched, l);
      ReturnLinesExactly(sales, matched, l);
    }
  }

  lemma UnifiedNames(sales: seq<SaleLine>, matched: seq<Matched>, name: string)
    ensures NameIn(name, ItemRows(ReturnLines(sales, matched))) || NameIn(name, ItemRows(OrderLines(sales, matched))) <==>
      exists l :: l in sales && Selected(sales, matched, l) && l.orderName == name
  {
    NameInItems(OrderLines(sales, matched), name);
    NameInItems(ReturnLines(sales, matched), name);
    if NameIn(name, ItemRows(ReturnLines(sales, matched))) {
      var l :| l in ReturnLines(sales, matched) && l.orderName == name;
      ReturnLinesExactly(sales, matched, l);
      assert Selected(sales, matched, l);
    }
    if NameIn(name, ItemRows(OrderLines(sales, matched))) {
      var l :| l in OrderLines(sales, matched) && l.orderName == name;
      OrderLinesExactly(sales, matched, l);
      assert Selected(sales, matched, l);
    }
    if l :| l in sales && Selected(sales, matched, l) && l.orderName == name {
      OrderLinesExactly(sales, matched, l);
      ReturnLinesExactly(sales, matched, l);
    }
  }

  lemma UnifiedShipping(sales: seq<SaleLine>, orders: seq<Order>, matched: seq<Matched>, row: FinalRow)
    ensures
      (exists o :: o in CompleteOrders(orders) && (NameIn(o.name, ItemRows(ReturnLines(sales, matched))) || NameIn(o.name, ItemRows(OrderLines(sales, matched)))) && row == ShippingRow(o))
      <==>
      (exists o, l :: o in orders && l in sales && o.subtotal.Some? && Selected(sales, matched, l) && l.orderName == o.name && row == ShippingRow(o))
  {
    if o :| o in CompleteOrders(orders) && (NameIn(o.name, ItemRows(ReturnLines(sales, matched))) || NameIn(o.name, ItemRows(OrderLines(sales, matched)))) && row == ShippingRow(o) {
      UnifiedNames(sales, matched, o.name);
      var l :| l in sales && Selected(sales, matched, l) && l.orderName == o.name;
    }
    if o, l :| o in orders && l in sales && o.subtotal.Some? && Selected(sales, matched, l) && l.orderName == o.name && row == ShippingRow(o) {
      UnifiedNames(sales, matched, o.name);
      assert o in CompleteOrders(orders);
    }
  }

  /** The unified table holds exactly the selected line items and the shipping
      rows of the complete orders they name: no row from a mixed receipt, no
      shipping of an order without a selected line. */
  lemma UnifiedRows(sales: seq<SaleLine>, orders: seq<Order>, matched: seq<Matched>, row: FinalRow)
    ensures row in Unified(sales, orders, matched) <==> FromSource(sales, orders, matched, row)
  {
    FinalTableRows(ItemRows(OrderLines(sales, matched)), ItemRows(ReturnLines(sales, matched)), CompleteOrders(orders), row);
    UnifiedItems(sales, matched, row);
    UnifiedShipping(sales, orders, matched, row);
  }

  /** A back-filled row keeps the source row's order, sales and units, and its
      category when it had one. */
  predicate FilledFrom(source: FinalRow, row: FinalRow)
  {
    && row.orderName == source.orderName
    && row.totalSales == source.totalSales
    && row.units == source.units
    && (source.productType.Some? ==> row.productType == source.productType)
  }

  /** Row `i` of a successful run's table is row `i` of the unified table,
      which comes from the source tables, with its category back-filled by the
      most frequent one when it had none. */
  lemma ReconcileRows(sales: seq<SaleLine>, orders: seq<Order>, txs: seq<Transaction>, monthName: Timestamp -> string, i: nat)
    requires Reconcile(sales, orders, txs, monthName).Ok?
    requires i < |Reconcile(sales, orders, txs, monthName).value.finalTable|
    ensures var table := Unified(sales, orders, Matches(orders, txs, monthName).value);
      var row := Reconcile(sales, orders, txs, monthName).value.finalTable[i];
      && |table| == |Reconcile(sales, orders, txs, monthName).value.finalTable|
      && FromSource(sales, orders, Matches(orders, txs, monthName).value, table[i])
      && FilledFrom(table[i], row)
      && (table[i].productType.None? ==> IsMode(Categories(table), row.productType.value))
  {
    var matched := Matches(orders, txs, monthName).value;
    var table := Unified(sales, orders, matched);
    ReconcileTable(sales, orders, txs, monthName);
    assert table[i] in table;
    UnifiedRows(sales, orders, matched, table[i]);
  }

  /** A successful run's table is the unified table, back-filled. */
  lemma ReconcileTable(sales: seq<SaleLine>, orders: seq<Order>, txs: seq<Transaction>, monthName: Timestamp -> string)
    requires Reconcile(sales, orders, txs, monthName).Ok?
    ensures Matches(orders, txs, monthName).Ok?
    ensures FillMissing(Unified(sales, orders, Matches(orders, txs, monthName).value)).Ok?
    ensures Reconcile(sales, orders, txs, monthName).value.finalTable
      == FillMissing(Unified(sales, orders, Matches(orders, txs, monthName).value)).value
  {
  }

  /** Conversely, every selected line item and every shipping row due to a
      complete order appears in a successful run's table, back-filled. */
  lemma ReconcileCovers(sales: seq<SaleLine>, orders: seq<Order>, txs: seq<Transaction>, monthName: Timestamp -> string, source: FinalRow)
    requires Reconcile(sales, orders, txs, monthName).Ok?
    requires FromSource(sales, orders, Matches(orders, txs, monthName).value, source)
    ensures var finalTable := Reconcile(sales, orders, txs, monthName).value.finalTable;
      exists i :: 0 <= i < |finalTable| && FilledFrom(source, finalTable[i])
  {
    var matched := Matches(orders, txs, monthName).value;
    var table := Unified(sales, orders, matched);
    ReconcileTable(sales, orders, txs, monthName);
    var finalTable := FillMissing(table).value;
    UnifiedRows(sales, orders, matched, source);
    var i :| 0 <= i < |table| && table[i] == source;
    assert FilledFrom(source, finalTable[i]);
  }

  /** The credit stream of the scenario below: one group of 90. */
  lemma SinglePaymentCredit(monthName: Timestamp -> string)
    ensures StreamAgg([Transaction("#100", "payment", Some(1718000000), 90, 0)], Credit, monthName)
      == [Bucket(("#100", monthName(1718000000)), 90)]
  {
    var t := Transaction("#100", "payment", Some(1718000000), 90, 0);
    var b := Bucket(("#100", monthName(1718000000)), 90);
    assert InStream(t, Credit);
    var rows := StreamRows([t], Credit, monthName);
    assert rows == [b] by {
      assert [t][1..] == [];
    }
    assert rows[1..] == [];
    assert AddTo([], b.key, b.total) == [b];
    assert GroupInto([], rows) == GroupInto([b], rows[1..]);
  }

  /** The debit stream of the scenario below: empty. */
  lemma SinglePaymentDebit(monthName: Timestamp -> string)
    ensures StreamAgg([Transaction("#100", "payment", Some(1718000000), 90, 0)], Debit, monthName) == []
  {
    var t := Transaction("#100", "payment", Some(1718000000), 90, 0);
    assert !InStream(t, Debit);
    assert StreamRows([t], Debit, monthName) == [] by {
      assert [t][1..] == [];
    }
  }

  /** The settlement side of the scenario below: one payment of 90 settled in
      June 2024 gives receipt "#100" a credit of 90 and no debit. */
  lemma SinglePaymentSettles(monthName: Timestamp -> string)
    ensures Settle([Transaction("#100", "payment", Some(1718000000), 90, 0)], monthName)
      == [ReceiptTotals("#100", 90, 0, 90)]
  {
    var k := ("#100", monthName(1718000000));
    SinglePaymentCredit(monthName);
    SinglePaymentDebit(monthName);
    var m := MergedRow(k, 90, 0);
    assert CreditSide([Bucket(k, 90)]) == [m];
    assert OuterMerge([Bucket(k, 90)], []) == [m];
    assert [m][1..] == [];
    assert Accumulate([], m) == [ReceiptTotals("#100", 90, 0, 90)];
    assert ReduceInto([], [m]) == ReduceInto([ReceiptTotals("#100", 90, 0, 90)], []);
  }

  /** The key table of the scenario below: the order without a payment
      reference is keyed by its own name. */
  lemma SingleOrderKeys()
    ensures KeyTable(CompleteOrders([Order("#100", Some(80), 10, None)])) == [KeyRow("#100", "#100")]
  {
    var orders := [Order("#100", Some(80), 10, None)];
    assert CompleteOrders(orders) == orders by {
      assert orders[1..] == [];
    }
    assert !EndsWithDotDigit("#100");
    assert StripDotDigit("#100") == "#100";
    assert CanonicalKey(orders[0]) == "#100";
  }

  /** The join of the scenario below: the receipt meets its order. */
  lemma SingleOrderJoin()
    ensures InnerJoin([ReceiptTotals("#100", 90, 0, 90)], [KeyRow("#100", "#100")])
      == [Matched("#100", 90, 0, 90, "#100")]
  {
    var totals := [ReceiptTotals("#100", 90, 0, 90)];
    var keys := [KeyRow("#100", "#100")];
    assert FindOrder(keys, "#100") == Some(KeyRow("#100", "#100"));
    assert totals[1..] == [];
  }

  /** The join and the classification of the scenario below: the order's key is
      its own name, and the paid, never refunded receipt is order-only. */
  lemma SingleOrderMatches(monthName: Timestamp -> string)
    ensures Matches([Order("#100", Some(80), 10, None)],
      [Transaction("#100", "payment", Some(1718000000), 90, 0)], monthName)
      == Ok([Matched("#100", 90, 0, 90, "#100")])
  {
    SinglePaymentSettles(monthName);
    SingleOrderKeys();
    SingleOrderJoin();
    var totals := [ReceiptTotals("#100", 90, 0, 90)];
    var keys := [KeyRow("#100", "#100")];
    assert DistinctReceipts(totals);
    assert DistinctRefs(keys);
  }

  /** The order-side items of the scenario below: the paid, never refunded
      receipt is order-only, so its order-kind line is kept. */
  lemma SingleOrderItems()
    ensures ItemRows(OrderLines([SaleLine("#100", "order", Some("Apparel"), 80, 1)], [Matched("#100", 90, 0, 90, "#100")]))
      == [FinalRow("#100", Some("Apparel"), 80, 1)]
  {
    var sales := [SaleLine("#100", "order", Some("Apparel"), 80, 1)];
    var m := Matched("#100", 90, 0, 90, "#100");
    assert sales[1..] == [] && [m][1..] == [];
    assert OnlyOrders([m]) == [m];
    assert Mentions([m], "#100");
    assert LinesOf(sales, [m]) == sales;
    assert OrderLines(sales, [m]) == sales;
  }

  /** The return-side items of the scenario below: none, since the receipt
      was never refunded. */
  lemma SingleOrderNoReturns()
    ensures ItemRows(ReturnLines([SaleLine("#100", "order", Some("Apparel"), 80, 1)], [Matched("#100", 90, 0, 90, "#100")]))
      == []
  {
    var m := Matched("#100", 90, 0, 90, "#100");
    assert [m][1..] == [];
    assert OnlyReturns([m]) == [];
  }

  /** The shipping of the scenario below: the order named by the Apparel item
      gets one shipping row, after the items. */
  lemma SingleOrderShipping()
    ensures FinalTable([FinalRow("#100", Some("Apparel"), 80, 1)], [], [Order("#100", Some(80), 10, None)])
      == [FinalRow("#100", Some("Apparel"), 80, 1), FinalRow("#100", Some("Shipping"), 10, 0)]
  {
    var orders := [Order("#100", Some(80), 10, None)];
    var item := FinalRow("#100", Some("Apparel"), 80, 1);
    var ship := FinalRow("#100", Some("Shipping"), 10, 0);
    assert orders[1..] == [];
    assert NameIn("#100", [item]);
    assert ShippingFor(orders, [item]) == [ship];
    assert ShippingFor(orders, []) == [];
    assert [item] + [] + [] + [ship] == [item, ship];
  }

  /** The only order of the scenario below is complete. */
  lemma SingleOrderComplete()
    ensures CompleteOrders([Order("#100", Some(80), 10, None)]) == [Order("#100", Some(80), 10, None)]
  {
    assert [Order("#100", Some(80), 10, None)][1..] == [];
  }

  /** The unified table of the scenario below: the Apparel item and the
      order's shipping. */
  lemma SingleOrderUnified()
    ensures Unified([SaleLine("#100", "order", Some("Apparel"), 80, 1)], [Order("#100", Some(80), 10, None)],
      [Matched("#100", 90, 0, 90, "#100")])
      == [FinalRow("#100", Some("Apparel"), 80, 1), FinalRow("#100", Some("Shipping"), 10, 0)]
  {
    SingleOrderItems();
    SingleOrderNoReturns();
    SingleOrderComplete();
    SingleOrderShipping();
  }

  /** The back-fill of the scenario below changes nothing: both rows have a
      category. */
  lemma SingleOrderFill()
    ensures FillMissing([FinalRow("#100", Some("Apparel"), 80, 1), FinalRow("#100", Some("Shipping"), 10, 0)])
      == Ok([FinalRow("#100", Some("Apparel"), 80, 1), FinalRow("#100", Some("Shipping"), 10, 0)])
  {
    var rows := [FinalRow("#100", Some("Apparel"), 80, 1), FinalRow("#100", Some("Shipping"), 10, 0)];
    assert rows[0] in rows;
    assert Categories(rows) != [];
    var filled := FillWith(rows, Mode(Categories(rows)));
    assert filled == rows by {
      assert |filled| == |rows|;
      assert filled[0] == rows[0];
      assert filled[1] == rows[1];
    }
  }

  /** The category totals of the scenario below: one group per row. */
  lemma SingleOrderGroups()
    ensures CategoryTotals([FinalRow("#100", Some("Apparel"), 80, 1), FinalRow("#100", Some("Shipping"), 10, 0)])
      == [Bucket("Apparel", 80), Bucket("Shipping", 10)]
  {
    var rows := [FinalRow("#100", Some("Apparel"), 80, 1), FinalRow("#100", Some("Shipping"), 10, 0)];
    var a := Bucket("Apparel", 80);
    var b := Bucket("Shipping", 10);
    assert CategoryRows(rows) == [a, b] by {
      assert rows[1..][1..] == [];
      assert CategoryRows(rows[1..]) == [b];
    }
    assert [a, b][1..] == [b];
    assert AddTo([], a.key, a.total) == [a];
    assert AddTo([a], b.key, b.total) == [a, b] by {
      assert [a][1..] == [];
      assert AddTo([a][1..], b.key, b.total) == [b];
    }
    assert GroupInto([], [a, b]) == GroupInto([a], [b]);
    assert GroupInto([a], [b]) == GroupInto([a, b], []);
  }

  /** The top five of the scenario below: both groups, the larger first. */
  lemma SingleOrderTop()
    ensures TopN([Bucket("Apparel", 80), Bucket("Shipping", 10)], 5)
      == [Bucket("Apparel", 80), Bucket("Shipping", 10)]
  {
    var a := Bucket("Apparel", 80);
    var b := Bucket("Shipping", 10);
    assert [a, b][1..] == [b];
    assert ArgMax([b]) == 0;
    assert ArgMax([a, b]) == 0;
    assert RemoveAt([a, b], 0) == [b];
    assert RemoveAt([b], 0) == [];
    assert TopN([b], 4) == [b] + TopN([], 3);
  }

  /** An end-to-end scenario: one order "#100" with no payment
      reference and 10 of shipping, one payment of 90 for it settled in June
      2024, and one "Apparel" line item of 80. The order is order-only, and the
      run reports Apparel 80 and Shipping 10. */
  lemma SingleOrderScenario(monthName: Timestamp -> string)
    ensures Reconcile(
        [SaleLine("#100", "order", Some("Apparel"), 80, 1)],
        [Order("#100", Some(80), 10, None)],
        [Transaction("#100", "payment", Some(1718000000), 90, 0)],
        monthName)
      == Ok(Summary(
        [FinalRow("#100", Some("Apparel"), 80, 1), FinalRow("#100", Some("Shipping"), 10, 0)],
        [Bucket("Apparel", 80), Bucket("Shipping", 10)],
        [Bucket("Apparel", 80), Bucket("Shipping", 10)]))
  {
    SingleOrderMatches(monthName);
    SingleOrderUnified();
    SingleOrderFill();
    SingleOrderGroups();
    SingleOrderTop();
  }
}
