/** Stage 4: the one-to-one join of each receipt's settlement totals with the
    order whose canonical key equals the receipt (reco_app.py line 63). */
module Matching {
  import opened Tables
  import opened Records
  import opened OrderKeys
  import opened Settlement

  /** A row of `new_rzr`: a receipt's totals beside the name of its order. The
      order's canonical key is the receipt itself, so it is not repeated. */
  datatype Matched = Matched(receipt: string, amount: int, debit: int, sales: int, name: string)

  /** Which side of the join has a repeated key. */
  datatype Side = LeftSide | RightSide | BothSides

  /** `validate='one_to_one'` failed (pandas raises `MergeError`). */
  datatype JoinError = NotOneToOne(side: Side)

  predicate DistinctRefs(keys: seq<KeyRow>)
  {
    forall i, j :: 0 <= i < j < |keys| ==> keys[i].paymentReference != keys[j].paymentReference
  }

  predicate DistinctMatches(ms: seq<Matched>)
  {
    forall i, j :: 0 <= i < j < |ms| ==> ms[i].receipt != ms[j].receipt
  }

  /** The first order whose canonical key is `receipt`, if any. */
  function FindOrder(keys: seq<KeyRow>, receipt: string): (r: Option<KeyRow>)
    ensures r.Some? ==> r.value in keys && r.value.paymentReference == receipt
    ensures r.None? <==> forall j :: 0 <= j < |keys| ==> keys[j].paymentReference != receipt
  {
    if keys == [] then None
    else if keys[0].paymentReference == receipt then Some(keys[0])
    else FindOrder(keys[1..], receipt)
  }

  lemma FindOrderUnique(keys: seq<KeyRow>, j: nat)
    requires DistinctRefs(keys) && j < |keys|
    ensures FindOrder(keys, keys[j].paymentReference) == Some(keys[j])
  {
    if j > 0 {
      FindOrderUnique(keys[1..], j - 1);
    }
  }

  function Pair(t: ReceiptTotals, k: KeyRow): Matched
  {
    Matched(t.receipt, t.amount, t.debit, t.sales, k.name)
  }

  /** The inner join on receipt = canonical key, in the receipts' order: a
      receipt without an order, and an order without a receipt, are dropped. */
  function InnerJoin(totals: seq<ReceiptTotals>, keys: seq<KeyRow>): (r: seq<Matched>)
    ensures |r| <= |totals|
  {
    if totals == [] then []
    else
      var head := match FindOrder(keys, totals[0].receipt)
        case None => []
        case Some(k) => [Pair(totals[0], k)];
      head + InnerJoin(totals[1..], keys)
  }

  /** Every joined row pairs a receipt's totals with an order whose canonical
      key is that receipt. */
  lemma {:induction false} InnerJoinSound(totals: seq<ReceiptTotals>, keys: seq<KeyRow>, m: Matched)
    requires m in InnerJoin(totals, keys)
    ensures exists t, k :: t in totals && k in keys && k.paymentReference == t.receipt && m == Pair(t, k)
  {
    var head := match FindOrder(keys, totals[0].receipt)
      case None => []
      case Some(k) => [Pair(totals[0], k)];
    if m !in head {
      InnerJoinSound(totals[1..], keys, m);
    }
  }

  /** Every receipt that has an order is joined to the first such order. */
  lemma {:induction false} InnerJoinComplete(totals: seq<ReceiptTotals>, keys: seq<KeyRow>, i: nat)
    requires i < |totals| && FindOrder(keys, totals[i].receipt).Some?
    ensures Pair(totals[i], FindOrder(keys, totals[i].receipt).value) in InnerJoin(totals, keys)
  {
    if i > 0 {
      InnerJoinComplete(totals[1..], keys, i - 1);
    }
  }

  lemma MatchedCons(m: Matched, rest: seq<Matched>, receipts: set<string>)
    requires DistinctMatches(rest)
    requires forall x :: x in rest ==> x.receipt in receipts
    requires m.receipt !in receipts
    ensures DistinctMatches([m] + rest)
  {
    var r := [m] + rest;
    forall i, j | 0 <= i < j < |r|
      ensures r[i].receipt != r[j].receipt
    {
      assert r[j] == rest[j - 1] && rest[j - 1] in rest;
    }
  }

  /** The join never repeats a receipt that the settlement side does not repeat. */
  lemma {:induction false} InnerJoinDistinct(totals: seq<ReceiptTotals>, keys: seq<KeyRow>)
    requires DistinctReceipts(totals)
    ensures DistinctMatches(InnerJoin(totals, keys))
    ensures forall m :: m in InnerJoin(totals, keys) ==> m.receipt in Receipts(totals)
  {
    if totals != [] {
      var head := match FindOrder(keys, totals[0].receipt)
        case None => []
        case Some(k) => [Pair(totals[0], k)];
      var rest := InnerJoin(totals[1..], keys);
      TotalsUncons(totals);
      InnerJoinDistinct(totals[1..], keys);
      if head != [] {
        MatchedCons(head[0], rest, Receipts(totals[1..]));
        assert head == [head[0]];
      }
    }
  }

  /** `merge(left_on='order_receipt', right_on='payment_reference',
      validate='one_to_one')`: fails when a key repeats on either side, whether
      or not the repeated key has a partner, and otherwise is the inner join. */
  function JoinOneToOne(totals: seq<ReceiptTotals>, keys: seq<KeyRow>): (r: Result<seq<Matched>, JoinError>)
    ensures r.Err? <==> !DistinctReceipts(totals) || !DistinctRefs(keys)
    ensures r.Err? ==> r.error.side == (if !DistinctReceipts(totals) && !DistinctRefs(keys) then BothSides
                                        else if !DistinctReceipts(totals) then LeftSide else RightSide)
    ensures r.Ok? ==> r.value == InnerJoin(totals, keys)
  {
    var leftUnique := DistinctReceipts(totals);
    var rightUnique := DistinctRefs(keys);
    if !leftUnique && !rightUnique then Err(NotOneToOne(BothSides))
    else if !leftUnique then Err(NotOneToOne(LeftSide))
    else if !rightUnique then Err(NotOneToOne(RightSide))
    else Ok(InnerJoin(totals, keys))
  }

  /** When the join succeeds, each result row pairs one receipt with the one
      order whose key it is, each receipt that has an order appears exactly
      once, and no receipt appears twice. */
  lemma JoinPairsExactly(totals: seq<ReceiptTotals>, keys: seq<KeyRow>, i: nat, j: nat)
    requires JoinOneToOne(totals, keys).Ok?
    requires i < |totals| && j < |keys| && keys[j].paymentReference == totals[i].receipt
    ensures Pair(totals[i], keys[j]) in JoinOneToOne(totals, keys).value
    ensures forall m :: m in JoinOneToOne(totals, keys).value && m.receipt == totals[i].receipt ==>
      m == Pair(totals[i], keys[j])
  {
    var r := JoinOneToOne(totals, keys).value;
    FindOrderUnique(keys, j);
    InnerJoinComplete(totals, keys, i);
    forall m | m in r && m.receipt == totals[i].receipt
      ensures m == Pair(totals[i], keys[j])
    {
      InnerJoinSound(totals, keys, m);
      var t, k :| t in totals && k in keys && k.paymentReference == t.receipt && m == Pair(t, k);
      var i' :| 0 <= i' < |totals| && totals[i'] == t;
      var j' :| 0 <= j' < |keys| && keys[j'] == k;
      assert i' == i;
      assert j' == j;
    }
  }

  /** Settlement totals never repeat a receipt, so the join can only fail on
      the orders' side: exactly when two orders share a canonical key, even a
      key no receipt carries. */
  lemma SettledJoinFailsOnlyOnOrders(txs: seq<Transaction>, monthName: Timestamp -> string, orders: seq<Order>)
    ensures JoinOneToOne(Settle(txs, monthName), KeyTable(orders)).Err? <==>
      exists i, j :: 0 <= i < j < |orders| && CanonicalKey(orders[i]) == CanonicalKey(orders[j])
    ensures JoinOneToOne(Settle(txs, monthName), KeyTable(orders)).Err? ==>
      JoinOneToOne(Settle(txs, monthName), KeyTable(orders)).error == NotOneToOne(RightSide)
  {
    var keys := KeyTable(orders);
    if !DistinctRefs(keys) {
      var i, j :| 0 <= i < j < |keys| && keys[i].paymentReference == keys[j].paymentReference;
      assert CanonicalKey(orders[i]) == CanonicalKey(orders[j]);
    }
  }
}
