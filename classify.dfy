/** Stage 5: each matched receipt is return-only, order-only or mixed, and the
    sales line items of each class are selected by order name
    (reco_app.py lines 66-80). */
module Classify {
  import opened Tables
  import opened Records
  import opened Matching

  /** Refunded and never paid within the window (line 69). */
  predicate ReturnOnly(m: Matched)
  {
    m.debit > 0 && m.amount == 0
  }

  /** Paid and never refunded within the window (line 74). */
  predicate OrderOnly(m: Matched)
  {
    m.amount > 0 && m.debit == 0
  }

  /** Both paid and refunded within the window (line 79). */
  predicate Mixed(m: Matched)
  {
    m.amount > 0 && m.debit > 0
  }

  /** The three classes exclude each other, and a receipt with neither credit
      nor debit is in none of them. */
  lemma ClassesExclusive(m: Matched)
    ensures !(ReturnOnly(m) && OrderOnly(m))
    ensures !(ReturnOnly(m) && Mixed(m))
    ensures !(OrderOnly(m) && Mixed(m))
    ensures m.amount == 0 && m.debit == 0 ==> !ReturnOnly(m) && !OrderOnly(m) && !Mixed(m)
  {
  }

  function OnlyReturns(matched: seq<Matched>): (r: seq<Matched>)
    ensures forall m :: m in r <==> m in matched && ReturnOnly(m)
  {
    Filter(matched, ReturnOnly)
  }

  function OnlyOrders(matched: seq<Matched>): (r: seq<Matched>)
    ensures forall m :: m in r <==> m in matched && OrderOnly(m)
  {
    Filter(matched, OrderOnly)
  }

  function BothKinds(matched: seq<Matched>): (r: seq<Matched>)
    ensures forall m :: m in r <==> m in matched && Mixed(m)
  {
    Filter(matched, Mixed)
  }

  /** Once the join has made receipts unique, no receipt is in two classes. */
  lemma ClassSetsDisjoint(matched: seq<Matched>, x: Matched, y: Matched)
    requires DistinctMatches(matched)
    requires x in matched && y in matched && x.receipt == y.receipt
    ensures (x in OnlyReturns(matched)) ==> y !in OnlyOrders(matched) && y !in BothKinds(matched)
    ensures (x in OnlyOrders(matched)) ==> y !in BothKinds(matched)
  {
    var i :| 0 <= i < |matched| && matched[i] == x;
    var j :| 0 <= j < |matched| && matched[j] == y;
    assert i == j;
  }

  /** `order_name.isin(cls['order_receipt']) | order_name.isin(cls['name'])`:
      a line item belongs to a class when its order name is the receipt or the
      order name of one of the class's rows. */
  predicate Mentions(cls: seq<Matched>, orderName: string)
  {
    exists m :: m in cls && (m.receipt == orderName || m.name == orderName)
  }

  function LinesOf(sales: seq<SaleLine>, cls: seq<Matched>): (r: seq<SaleLine>)
    ensures forall l :: l in r <==> l in sales && Mentions(cls, l.orderName)
    ensures forall l :: multiset(r)[l] == if Mentions(cls, l.orderName) then multiset(sales)[l] else 0
  {
    var r := Filter(sales, MentionedBy(cls));
    assert forall l :: multiset(r)[l] == if Mentions(cls, l.orderName) then multiset(sales)[l] else 0 by {
      forall l ensures multiset(r)[l] == if Mentions(cls, l.orderName) then multiset(sales)[l] else 0 {
        FilterCount(sales, MentionedBy(cls), l);
      }
    }
    r
  }

  function MentionedBy(cls: seq<Matched>): SaleLine -> bool
  {
    (l: SaleLine) => Mentions(cls, l.orderName)
  }

  function OfKind(kind: string): SaleLine -> bool
  {
    (l: SaleLine) => l.saleKind == kind
  }

  /** `sales_return_filtered`: the return-kind line items of return-only receipts. */
  function ReturnLines(sales: seq<SaleLine>, matched: seq<Matched>): seq<SaleLine>
  {
    Filter(LinesOf(LinesOf(sales, matched), OnlyReturns(matched)), OfKind("return"))
  }

  /** `sales_order_filtered`: the order-kind line items of order-only receipts. */
  function OrderLines(sales: seq<SaleLine>, matched: seq<Matched>): seq<SaleLine>
  {
    Filter(LinesOf(LinesOf(sales, matched), OnlyOrders(matched)), OfKind("order"))
  }

  /** `order_return_filter`: every line item of mixed receipts, of either kind.
      The script computes it and never uses it. */
  function MixedLines(sales: seq<SaleLine>, matched: seq<Matched>): seq<SaleLine>
  {
    LinesOf(LinesOf(sales, matched), BothKinds(matched))
  }

  /** A line item is a selected return exactly when it is of kind "return" and
      names a return-only receipt or its order; the first selection against all
      matched receipts (`salesMatchRzr`) removes nothing more. */
  lemma ReturnLinesExactly(sales: seq<SaleLine>, matched: seq<Matched>, l: SaleLine)
    ensures l in ReturnLines(sales, matched) <==>
      l in sales && l.saleKind == "return" && Mentions(OnlyReturns(matched), l.orderName)
  {
    if Mentions(OnlyReturns(matched), l.orderName) {
      var m :| m in OnlyReturns(matched) && (m.receipt == l.orderName || m.name == l.orderName);
      assert Mentions(matched, l.orderName);
    }
  }

  /** A line item is a selected order item exactly when it is of kind "order"
      and names an order-only receipt or its order. */
  lemma OrderLinesExactly(sales: seq<SaleLine>, matched: seq<Matched>, l: SaleLine)
    ensures l in OrderLines(sales, matched) <==>
      l in sales && l.saleKind == "order" && Mentions(OnlyOrders(matched), l.orderName)
  {
    if Mentions(OnlyOrders(matched), l.orderName) {
      var m :| m in OnlyOrders(matched) && (m.receipt == l.orderName || m.name == l.orderName);
      assert Mentions(matched, l.orderName);
    }
  }

  /** Every copy of a selected return line is kept: a line occurs among the
      selected returns as often as in the sales report when it is a return
      naming a return-only receipt or its order, and never otherwise. */
  lemma ReturnLinesCount(sales: seq<SaleLine>, matched: seq<Matched>, l: SaleLine)
    ensures multiset(ReturnLines(sales, matched))[l] ==
      if l.saleKind == "return" && Mentions(OnlyReturns(matched), l.orderName) then multiset(sales)[l] else 0
  {
    FilterCount(LinesOf(LinesOf(sales, matched), OnlyReturns(matched)), OfKind("return"), l);
    if Mentions(OnlyReturns(matched), l.orderName) {
      var m :| m in OnlyReturns(matched) && (m.receipt == l.orderName || m.name == l.orderName);
      assert Mentions(matched, l.orderName);
    }
  }

  /** Every copy of a selected order line is kept, and nothing else. */
  lemma OrderLinesCount(sales: seq<SaleLine>, matched: seq<Matched>, l: SaleLine)
    ensures multiset(OrderLines(sales, matched))[l] ==
      if l.saleKind == "order" && Mentions(OnlyOrders(matched), l.orderName) then multiset(sales)[l] else 0
  {
    FilterCount(LinesOf(LinesOf(sales, matched), OnlyOrders(matched)), OfKind("order"), l);
    if Mentions(OnlyOrders(matched), l.orderName) {
      var m :| m in OnlyOrders(matched) && (m.receipt == l.orderName || m.name == l.orderName);
      assert Mentions(matched, l.orderName);
    }
  }

  /** The mixed selection keeps both kinds of line item. */
  lemma MixedLinesExactly(sales: seq<SaleLine>, matched: seq<Matched>, l: SaleLine)
    ensures l in MixedLines(sales, matched) <==> l in sales && Mentions(BothKinds(matched), l.orderName)
  {
    if Mentions(BothKinds(matched), l.orderName) {
      var m :| m in BothKinds(matched) && (m.receipt == l.orderName || m.name == l.orderName);
      assert Mentions(matched, l.orderName);
    }
  }
}
