/** Stages 2 and 3: the gateway's settlements, filtered to the reconciliation
    window, summed per (receipt, month) in a credit and a debit stream,
    outer-merged and reduced to one row of totals per receipt
    (reco_app.py lines 42-60). */
module Settlement {
  import opened Tables
  import opened Records

  /** 1 July 2024 00:00:00, the end of the reconciled window, in seconds since
      the Unix epoch. */
  const Cutoff: Timestamp := 1719792000

  /** Receipts of storefront orders start with '#' or 'r'; other receipts are
      not orders. An empty receipt starts with neither. */
  predicate HasOrderPrefix(receipt: string)
  {
    |receipt| > 0 && (receipt[0] == '#' || receipt[0] == 'r')
  }

  /** Settled strictly before the cutoff (an unsettled transaction compares
      false) and carrying an order receipt. */
  predicate InWindow(t: Transaction)
  {
    t.settledAt.Some? && t.settledAt.value < Cutoff && HasOrderPrefix(t.receipt)
  }

  /** The two streams the report is split into: payments (credit, column
      `amount`) and refunds (debit, column `debit`). */
  datatype Stream = Credit | Debit

  function KindOf(s: Stream): string
  {
    match s
    case Credit => "payment"
    case Debit => "refund"
  }

  predicate InStream(t: Transaction, s: Stream)
  {
    t.kind == KindOf(s) && InWindow(t)
  }

  /** The amount a transaction carries in a stream. */
  function ValueIn(t: Transaction, s: Stream): int
  {
    match s
    case Credit => t.amount
    case Debit => t.debit
  }

  /** A (receipt, month name) group key. */
  type MonthKey = (string, string)

  function ReceiptIs(r: string): MonthKey -> bool
  {
    (k: MonthKey) => k.0 == r
  }

  /** The rows of one stream, keyed by receipt and the month name of their
      settlement (the boolean-mask filter and the `month_name` column).
      `monthName` stands for `strftime('%B')`. */
  function StreamRows(txs: seq<Transaction>, s: Stream, monthName: Timestamp -> string): (r: seq<Bucket<MonthKey>>)
    ensures |r| <= |txs|
  {
    if txs == [] then [] else StreamRow(txs[0], s, monthName) + StreamRows(txs[1..], s, monthName)
  }

  /** The row one transaction contributes to a stream: none when it is outside
      the stream. */
  function StreamRow(t: Transaction, s: Stream, monthName: Timestamp -> string): (r: seq<Bucket<MonthKey>>)
    ensures |r| <= 1
  {
    if InStream(t, s) then [Bucket((t.receipt, monthName(t.settledAt.value)), ValueIn(t, s))] else []
  }

  /** One stream summed per (receipt, month). */
  function StreamAgg(txs: seq<Transaction>, s: Stream, monthName: Timestamp -> string): (r: seq<Bucket<MonthKey>>)
    ensures DistinctKeys(r)
  {
    GroupSum(StreamRows(txs, s, monthName))
  }

  /** Reference definition: what a receipt settled in a stream, over all
      transactions of the stream in the window, whatever their month. */
  function StreamTotal(txs: seq<Transaction>, s: Stream, receipt: string): int
  {
    Sum(txs, (t: Transaction) => if InStream(t, s) && t.receipt == receipt then ValueIn(t, s) else 0)
  }

  /** A transaction outside the stream's kind or window adds no row, wherever
      it stands. */
  lemma {:induction false} StreamRowsSkip(a: seq<Transaction>, t: Transaction, b: seq<Transaction>, s: Stream, monthName: Timestamp -> string)
    requires !InStream(t, s)
    ensures StreamRows(a + [t] + b, s, monthName) == StreamRows(a + b, s, monthName)
  {
    if a == [] {
      assert a + [t] + b == [t] + b;
      assert ([t] + b)[1..] == b;
      assert a + b == b;
    } else {
      assert (a + [t] + b)[0] == a[0] == (a + b)[0];
      assert (a + [t] + b)[1..] == a[1..] + [t] + b;
      assert (a + b)[1..] == a[1..] + b;
      StreamRowsSkip(a[1..], t, b, s, monthName);
    }
  }

  /** The stream's rows for a receipt sum to what the receipt settled in the stream. */
  lemma {:induction false} StreamRowsSum(txs: seq<Transaction>, s: Stream, monthName: Timestamp -> string, r: string)
    ensures Sum(StreamRows(txs, s, monthName), Where(ReceiptIs(r))) == StreamTotal(txs, s, r)
  {
    if txs != [] {
      var head := StreamRow(txs[0], s, monthName);
      SumConcat(head, StreamRows(txs[1..], s, monthName), Where(ReceiptIs(r)));
      StreamRowsSum(txs[1..], s, monthName, r);
    }
  }

  /** Reference definition: what a transaction adds to the (receipt, month)
      group `k` of a stream. */
  function SettledIn(s: Stream, monthName: Timestamp -> string, k: MonthKey): Transaction -> int
  {
    (t: Transaction) => if InStream(t, s) && (t.receipt, monthName(t.settledAt.value)) == k then ValueIn(t, s) else 0
  }

  lemma {:induction false} StreamRowsKeySum(txs: seq<Transaction>, s: Stream, monthName: Timestamp -> string, k: MonthKey)
    ensures Sum(StreamRows(txs, s, monthName), Where(KeyIs(k))) == Sum(txs, SettledIn(s, monthName, k))
  {
    if txs != [] {
      var head := StreamRow(txs[0], s, monthName);
      SumConcat(head, StreamRows(txs[1..], s, monthName), Where(KeyIs(k)));
      StreamRowsKeySum(txs[1..], s, monthName, k);
    }
  }

  /** Each (receipt, month) group of a stream holds the sum of the receipt's
      in-window amounts (credit) or debits (debit) settled in a month of that
      name; a key without such a transaction reads 0. */
  lemma StreamAggValue(txs: seq<Transaction>, s: Stream, monthName: Timestamp -> string, k: MonthKey)
    ensures Lookup(StreamAgg(txs, s, monthName), k) == Sum(txs, SettledIn(s, monthName, k))
  {
    GroupSumLookup(StreamRows(txs, s, monthName), k);
    StreamRowsKeySum(txs, s, monthName, k);
  }

  /** The (receipt, month) keys a stream produces: exactly those of its transactions. */
  lemma {:induction false} StreamRowsKeys(txs: seq<Transaction>, s: Stream, monthName: Timestamp -> string, k: MonthKey)
    ensures k in Keys(StreamRows(txs, s, monthName)) <==>
      exists t :: t in txs && InStream(t, s) && k == (t.receipt, monthName(t.settledAt.value))
  {
    if txs != [] {
      var head := StreamRow(txs[0], s, monthName);
      KeysConcat(head, StreamRows(txs[1..], s, monthName));
      StreamRowsKeys(txs[1..], s, monthName, k);
      assert forall t :: t in txs <==> t == txs[0] || t in txs[1..];
    }
  }

  // ---------------------------------------------------------------------------
  // Outer merge on (receipt, month)

  /** A row of `rzr_final`: one (receipt, month), with its credit `amount` and
      its `debit`, 0 for a side that had no group. */
  datatype MergedRow = MergedRow(key: MonthKey, amount: int, debit: int)

  /** The `sales` column of line 59. */
  function NetSales(m: MergedRow): int
  {
    m.amount - m.debit
  }

  function MergedKeys(rows: seq<MergedRow>): set<MonthKey>
  {
    set m | m in rows :: m.key
  }

  predicate DistinctMergedKeys(rows: seq<MergedRow>)
  {
    forall i, j :: 0 <= i < j < |rows| ==> rows[i].key != rows[j].key
  }

  lemma MergedKeysConcat(a: seq<MergedRow>, b: seq<MergedRow>)
    ensures MergedKeys(a + b) == MergedKeys(a) + MergedKeys(b)
  {
  }

  /** The amounts of the merged rows a column and a key filter select. */
  datatype Column = Amount | DebitColumn | Sales

  function MergedWhere(p: MonthKey -> bool, c: Column): MergedRow -> int
  {
    (m: MergedRow) =>
      if !p(m.key) then 0
      else match c
        case Amount => m.amount
        case DebitColumn => m.debit
        case Sales => NetSales(m)
  }

  /** Every credit group becomes a merged row with no debit yet. */
  function CreditSide(credit: seq<Bucket<MonthKey>>): (r: seq<MergedRow>)
    ensures |r| == |credit|
    ensures forall i :: 0 <= i < |r| ==> r[i] == MergedRow(credit[i].key, credit[i].total, 0)
  {
    if credit == [] then [] else [MergedRow(credit[0].key, credit[0].total, 0)] + CreditSide(credit[1..])
  }

  lemma MergedCons(m: MergedRow, rest: seq<MergedRow>)
    ensures MergedKeys([m] + rest) == {m.key} + MergedKeys(rest)
    ensures DistinctMergedKeys(rest) && m.key !in MergedKeys(rest) ==> DistinctMergedKeys([m] + rest)
  {
    MergedKeysConcat([m], rest);
    if DistinctMergedKeys(rest) && m.key !in MergedKeys(rest) {
      var r := [m] + rest;
      forall i, j | 0 <= i < j < |r|
        ensures r[i].key != r[j].key
      {
        assert r[j] == rest[j - 1] && rest[j - 1] in rest;
      }
    }
  }

  lemma MergedUncons(rows: seq<MergedRow>)
    requires rows != []
    ensures MergedKeys(rows) == {rows[0].key} + MergedKeys(rows[1..])
    ensures DistinctMergedKeys(rows) ==> DistinctMergedKeys(rows[1..]) && rows[0].key !in MergedKeys(rows[1..])
  {
    assert rows == [rows[0]] + rows[1..];
    MergedKeysConcat([rows[0]], rows[1..]);
  }

  /** Files one debit group: onto the row with the same key, or as a new row
      with no credit. */
  function PutDebit(rows: seq<MergedRow>, k: MonthKey, v: int): (r: seq<MergedRow>)
    ensures MergedKeys(r) == MergedKeys(rows) + {k}
    ensures DistinctMergedKeys(rows) ==> DistinctMergedKeys(r)
  {
    if rows == [] then [MergedRow(k, 0, v)]
    else
      MergedUncons(rows);
      if rows[0].key == k then
        var m := rows[0].(debit := rows[0].debit + v);
        MergedCons(m, rows[1..]);
        [m] + rows[1..]
      else
        var rest := PutDebit(rows[1..], k, v);
        MergedCons(rows[0], rest);
        [rows[0]] + rest
  }

  function MergeDebits(rows: seq<MergedRow>, debit: seq<Bucket<MonthKey>>): (r: seq<MergedRow>)
    ensures MergedKeys(r) == MergedKeys(rows) + Keys(debit)
    ensures DistinctMergedKeys(rows) ==> DistinctMergedKeys(r)
    decreases debit
  {
    if debit == [] then rows
    else
      assert debit == [debit[0]] + debit[1..];
      KeysConcat([debit[0]], debit[1..]);
      MergeDebits(PutDebit(rows, debit[0].key, debit[0].total), debit[1..])
  }

  /** `merge(..., on=['order_receipt', 'month_name'], how='outer').fillna(0)`. */
  function OuterMerge(credit: seq<Bucket<MonthKey>>, debit: seq<Bucket<MonthKey>>): (r: seq<MergedRow>)
    ensures MergedKeys(r) == Keys(credit) + Keys(debit)
    ensures DistinctKeys(credit) ==> DistinctMergedKeys(r)
  {
    var side := CreditSide(credit);
    assert MergedKeys(side) == Keys(credit) by {
      forall k | k in Keys(credit) ensures k in MergedKeys(side) {
        var b :| b in credit && b.key == k;
        var i :| 0 <= i < |credit| && credit[i] == b;
        assert side[i].key == k;
      }
    }
    MergeDebits(side, debit)
  }

  lemma {:induction false} PutDebitSum(rows: seq<MergedRow>, k: MonthKey, v: int, p: MonthKey -> bool)
    ensures Sum(PutDebit(rows, k, v), MergedWhere(p, Amount)) == Sum(rows, MergedWhere(p, Amount))
    ensures Sum(PutDebit(rows, k, v), MergedWhere(p, DebitColumn)) == Sum(rows, MergedWhere(p, DebitColumn)) + (if p(k) then v else 0)
  {
    if rows != [] && rows[0].key != k {
      PutDebitSum(rows[1..], k, v, p);
    }
  }

  lemma {:induction false} MergeDebitsSum(rows: seq<MergedRow>, debit: seq<Bucket<MonthKey>>, p: MonthKey -> bool)
    ensures Sum(MergeDebits(rows, debit), MergedWhere(p, Amount)) == Sum(rows, MergedWhere(p, Amount))
    ensures Sum(MergeDebits(rows, debit), MergedWhere(p, DebitColumn)) == Sum(rows, MergedWhere(p, DebitColumn)) + Sum(debit, Where(p))
    decreases debit
  {
    if debit != [] {
      PutDebitSum(rows, debit[0].key, debit[0].total, p);
      MergeDebitsSum(PutDebit(rows, debit[0].key, debit[0].total), debit[1..], p);
    }
  }

  lemma {:induction false} CreditSideSum(credit: seq<Bucket<MonthKey>>, p: MonthKey -> bool)
    ensures Sum(CreditSide(credit), MergedWhere(p, Amount)) == Sum(credit, Where(p))
    ensures Sum(CreditSide(credit), MergedWhere(p, DebitColumn)) == 0
  {
    if credit != [] {
      CreditSideSum(credit[1..], p);
    }
  }

  /** The outer merge keeps every credit and every debit: under any key filter
      the merged credit column sums to the credit groups and the merged debit
      column to the debit groups. */
  lemma OuterMergeSums(credit: seq<Bucket<MonthKey>>, debit: seq<Bucket<MonthKey>>, p: MonthKey -> bool)
    ensures Sum(OuterMerge(credit, debit), MergedWhere(p, Amount)) == Sum(credit, Where(p))
    ensures Sum(OuterMerge(credit, debit), MergedWhere(p, DebitColumn)) == Sum(debit, Where(p))
  {
    CreditSideSum(credit, p);
    MergeDebitsSum(CreditSide(credit), debit, p);
  }

  /** Each merged (receipt, month) row carries that key's credit group and
      debit group, and 0 for a side on which the key has no group. */
  lemma OuterMergeRows(credit: seq<Bucket<MonthKey>>, debit: seq<Bucket<MonthKey>>, i: nat)
    requires DistinctKeys(credit) && DistinctKeys(debit)
    requires i < |OuterMerge(credit, debit)|
    ensures OuterMerge(credit, debit)[i].amount == Lookup(credit, OuterMerge(credit, debit)[i].key)
    ensures OuterMerge(credit, debit)[i].debit == Lookup(debit, OuterMerge(credit, debit)[i].key)
    ensures OuterMerge(credit, debit)[i].key !in Keys(credit) ==> OuterMerge(credit, debit)[i].amount == 0
    ensures OuterMerge(credit, debit)[i].key !in Keys(debit) ==> OuterMerge(credit, debit)[i].debit == 0
  {
    var rows := OuterMerge(credit, debit);
    var k := rows[i].key;
    OuterMergeSums(credit, debit, KeyIs(k));
    LookupIsSum(credit, k);
    LookupIsSum(debit, k);
    SumSingle(rows, MergedWhere(KeyIs(k), Amount), i);
    SumSingle(rows, MergedWhere(KeyIs(k), DebitColumn), i);
  }

  // ---------------------------------------------------------------------------
  // Reduction to one row per receipt

  /** A row of `rzr_sales`: a receipt's credit, debit and net sales summed over
      its months. */
  datatype ReceiptTotals = ReceiptTotals(receipt: string, amount: int, debit: int, sales: int)

  function Receipts(ts: seq<ReceiptTotals>): set<string>
  {
    set t | t in ts :: t.receipt
  }

  predicate DistinctReceipts(ts: seq<ReceiptTotals>)
  {
    forall i, j :: 0 <= i < j < |ts| ==> ts[i].receipt != ts[j].receipt
  }

  lemma ReceiptsConcat(a: seq<ReceiptTotals>, b: seq<ReceiptTotals>)
    ensures Receipts(a + b) == Receipts(a) + Receipts(b)
  {
  }

  /** Every row's net sales is its credit minus its debit. */
  predicate Balanced(ts: seq<ReceiptTotals>)
  {
    forall i :: 0 <= i < |ts| ==> ts[i].sales == ts[i].amount - ts[i].debit
  }

  function TotalsWhere(r: string, c: Column): ReceiptTotals -> int
  {
    (t: ReceiptTotals) =>
      if t.receipt != r then 0
      else match c
        case Amount => t.amount
        case DebitColumn => t.debit
        case Sales => t.sales
  }

  lemma TotalsCons(t: ReceiptTotals, rest: seq<ReceiptTotals>)
    ensures Receipts([t] + rest) == {t.receipt} + Receipts(rest)
    ensures DistinctReceipts(rest) && t.receipt !in Receipts(rest) ==> DistinctReceipts([t] + rest)
  {
    ReceiptsConcat([t], rest);
    if DistinctReceipts(rest) && t.receipt !in Receipts(rest) {
      var r := [t] + rest;
      forall i, j | 0 <= i < j < |r|
        ensures r[i].receipt != r[j].receipt
      {
        assert r[j] == rest[j - 1] && rest[j - 1] in rest;
      }
    }
  }

  lemma TotalsUncons(ts: seq<ReceiptTotals>)
    requires ts != []
    ensures Receipts(ts) == {ts[0].receipt} + Receipts(ts[1..])
    ensures DistinctReceipts(ts) ==> DistinctReceipts(ts[1..]) && ts[0].receipt !in Receipts(ts[1..])
  {
    assert ts == [ts[0]] + ts[1..];
    ReceiptsConcat([ts[0]], ts[1..]);
  }

  /** Adds one merged row into its receipt's totals. */
  function Accumulate(ts: seq<ReceiptTotals>, m: MergedRow): (r: seq<ReceiptTotals>)
    ensures Receipts(r) == Receipts(ts) + {m.key.0}
    ensures DistinctReceipts(ts) ==> DistinctReceipts(r)
  {
    if ts == [] then [ReceiptTotals(m.key.0, m.amount, m.debit, NetSales(m))]
    else
      TotalsUncons(ts);
      if ts[0].receipt == m.key.0 then
        var t := ReceiptTotals(m.key.0, ts[0].amount + m.amount, ts[0].debit + m.debit, ts[0].sales + NetSales(m));
        TotalsCons(t, ts[1..]);
        [t] + ts[1..]
      else
        var rest := Accumulate(ts[1..], m);
        TotalsCons(ts[0], rest);
        [ts[0]] + rest
  }

  lemma {:induction false} AccumulateBalanced(ts: seq<ReceiptTotals>, m: MergedRow)
    ensures Balanced(ts) ==> Balanced(Accumulate(ts, m))
  {
    if ts != [] && ts[0].receipt != m.key.0 {
      assert Balanced(ts) ==> Balanced(ts[1..]);
      AccumulateBalanced(ts[1..], m);
    }
  }

  function ReduceInto(acc: seq<ReceiptTotals>, rows: seq<MergedRow>): (r: seq<ReceiptTotals>)
    ensures Receipts(r) == Receipts(acc) + (set m | m in rows :: m.key.0)
    ensures DistinctReceipts(acc) ==> DistinctReceipts(r)
    ensures Balanced(acc) ==> Balanced(r)
    decreases rows
  {
    if rows == [] then acc
    else
      assert (set m | m in rows :: m.key.0) == {rows[0].key.0} + (set m | m in rows[1..] :: m.key.0) by {
        assert forall m :: m in rows <==> m == rows[0] || m in rows[1..];
      }
      AccumulateBalanced(acc, rows[0]);
      ReduceInto(Accumulate(acc, rows[0]), rows[1..])
  }

  /** `groupby('order_receipt').agg(sum)` over `amount`, `debit` and `sales`:
      one row per receipt, whose net sales is its credit minus its debit. */
  function ReduceByReceipt(rows: seq<MergedRow>): (r: seq<ReceiptTotals>)
    ensures DistinctReceipts(r)
    ensures Receipts(r) == set m | m in rows :: m.key.0
    ensures Balanced(r)
  {
    ReduceInto([], rows)
  }

  lemma {:induction false} AccumulateSum(ts: seq<ReceiptTotals>, m: MergedRow, r: string, c: Column)
    ensures Sum(Accumulate(ts, m), TotalsWhere(r, c)) == Sum(ts, TotalsWhere(r, c)) + MergedWhere(ReceiptIs(r), c)(m)
  {
    if ts != [] && ts[0].receipt != m.key.0 {
      AccumulateSum(ts[1..], m, r, c);
    }
  }

  lemma {:induction false} ReduceIntoSum(acc: seq<ReceiptTotals>, rows: seq<MergedRow>, r: string, c: Column)
    ensures Sum(ReduceInto(acc, rows), TotalsWhere(r, c)) == Sum(acc, TotalsWhere(r, c)) + Sum(rows, MergedWhere(ReceiptIs(r), c))
    decreases rows
  {
    if rows != [] {
      AccumulateSum(acc, rows[0], r, c);
      ReduceIntoSum(Accumulate(acc, rows[0]), rows[1..], r, c);
    }
  }

  /** A receipt's totals are the sums of its merged rows over all months. */
  lemma ReduceByReceiptRow(rows: seq<MergedRow>, i: nat, c: Column)
    requires i < |ReduceByReceipt(rows)|
    ensures TotalsWhere(ReduceByReceipt(rows)[i].receipt, c)(ReduceByReceipt(rows)[i])
         == Sum(rows, MergedWhere(ReceiptIs(ReduceByReceipt(rows)[i].receipt), c))
  {
    var ts := ReduceByReceipt(rows);
    var r := ts[i].receipt;
    ReduceIntoSum([], rows, r, c);
    SumSingle(ts, TotalsWhere(r, c), i);
  }

  // ---------------------------------------------------------------------------
  // The whole settlement stage

  /** `rzr_sales`: the settled credit, debit and net sales of each receipt. */
  function Settle(txs: seq<Transaction>, monthName: Timestamp -> string): (r: seq<ReceiptTotals>)
    ensures DistinctReceipts(r)
    ensures Balanced(r)
  {
    ReduceByReceipt(OuterMerge(StreamAgg(txs, Credit, monthName), StreamAgg(txs, Debit, monthName)))
  }

  /** Per receipt, the total credit is the sum of the receipt's payments in the
      window and the total debit the sum of its refunds, whatever months they
      were settled in; net sales is credit minus debit. */
  lemma SettleConserves(txs: seq<Transaction>, monthName: Timestamp -> string, i: nat)
    requires i < |Settle(txs, monthName)|
    ensures Settle(txs, monthName)[i].amount == StreamTotal(txs, Credit, Settle(txs, monthName)[i].receipt)
    ensures Settle(txs, monthName)[i].debit == StreamTotal(txs, Debit, Settle(txs, monthName)[i].receipt)
    ensures Settle(txs, monthName)[i].sales == Settle(txs, monthName)[i].amount - Settle(txs, monthName)[i].debit
  {
    var credit := StreamAgg(txs, Credit, monthName);
    var debit := StreamAgg(txs, Debit, monthName);
    var merged := OuterMerge(credit, debit);
    var t := Settle(txs, monthName)[i];
    var p := ReceiptIs(t.receipt);
    ReduceByReceiptRow(merged, i, Amount);
    ReduceByReceiptRow(merged, i, DebitColumn);
    OuterMergeSums(credit, debit, p);
    GroupSumConserves(StreamRows(txs, Credit, monthName), p);
    GroupSumConserves(StreamRows(txs, Debit, monthName), p);
    StreamRowsSum(txs, Credit, monthName, t.receipt);
    StreamRowsSum(txs, Debit, monthName, t.receipt);
    assert t in Settle(txs, monthName);
  }

  /** A receipt has a row exactly when it has a payment or a refund in the window. */
  lemma SettleReceipts(txs: seq<Transaction>, monthName: Timestamp -> string, r: string)
    ensures r in Receipts(Settle(txs, monthName)) <==>
      exists t :: t in txs && (InStream(t, Credit) || InStream(t, Debit)) && t.receipt == r
  {
    var credit := StreamAgg(txs, Credit, monthName);
    var debit := StreamAgg(txs, Debit, monthName);
    var merged := OuterMerge(credit, debit);
    assert (set m | m in merged :: m.key.0) == set k | k in MergedKeys(merged) :: k.0;
    if r in Receipts(Settle(txs, monthName)) {
      var k :| k in MergedKeys(merged) && k.0 == r;
      StreamRowsKeys(txs, Credit, monthName, k);
      StreamRowsKeys(txs, Debit, monthName, k);
    }
    if t :| t in txs && (InStream(t, Credit) || InStream(t, Debit)) && t.receipt == r {
      var k := (t.receipt, monthName(t.settledAt.value));
      StreamRowsKeys(txs, Credit, monthName, k);
      StreamRowsKeys(txs, Debit, monthName, k);
      assert k in MergedKeys(merged);
    }
  }

  /** A transaction outside both streams (another type, settled on or after the
      cutoff, unsettled, or without an order receipt) changes nothing. */
  lemma SettleIgnores(a: seq<Transaction>, t: Transaction, b: seq<Transaction>, monthName: Timestamp -> string)
    requires !InStream(t, Credit) && !InStream(t, Debit)
    ensures Settle(a + [t] + b, monthName) == Settle(a + b, monthName)
  {
    StreamRowsSkip(a, t, b, Credit, monthName);
    StreamRowsSkip(a, t, b, Debit, monthName);
  }
}
