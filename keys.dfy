/** Stage 1: complete orders and the canonical payment-reference key of each
    order (reco_app.py lines 27 and 35-37). */
module OrderKeys {
  import opened Tables
  import opened Records

  /** `dropna(subset=['subtotal'])`: the continuation rows of the orders export
      (no subtotal) are not orders of their own. */
  function CompleteOrders(orders: seq<Order>): (r: seq<Order>)
    ensures forall o :: o in r <==> o in orders && o.subtotal.Some?
    ensures forall o :: multiset(r)[o] == if o.subtotal.Some? then multiset(orders)[o] else 0
    ensures |r| <= |orders|
  {
    assert forall o :: multiset(Filter(orders, IsComplete))[o] == if o.subtotal.Some? then multiset(orders)[o] else 0 by {
      forall o ensures multiset(Filter(orders, IsComplete))[o] == if o.subtotal.Some? then multiset(orders)[o] else 0 {
        FilterCount(orders, IsComplete, o);
      }
    }
    Filter(orders, IsComplete)
  }

  predicate IsComplete(o: Order)
  {
    o.subtotal.Some?
  }

  /** An ASCII decimal digit. */
  predicate IsDigit(c: char)
  {
    '0' <= c <= '9'
  }

  /** `s` ends with a dot and one digit, the suffix the pattern `\.\d$`
      matches at the very end. */
  predicate EndsWithDotDigit(s: string)
  {
    |s| >= 2 && s[|s| - 2] == '.' && IsDigit(s[|s| - 1])
  }

  /** `s` ends with a dot, one digit and a newline: Python's `$` also matches
      just before a final newline, so the pattern matches there too. */
  predicate EndsWithDotDigitNewline(s: string)
  {
    |s| >= 3 && s[|s| - 1] == '\n' && s[|s| - 3] == '.' && IsDigit(s[|s| - 2])
  }

  /** `str.replace(r'\.\d$', '', regex=True)` on one string: removes a
      trailing `.N` installment suffix, if there is one. */
  function StripDotDigit(s: string): (r: string)
    ensures |r| == |s| || |r| == |s| - 2
    ensures EndsWithDotDigit(s) ==> r + s[|s| - 2..] == s
    ensures EndsWithDotDigitNewline(s) ==> r[..|r| - 1] + s[|s| - 3..|s| - 1] + "\n" == s && r[|r| - 1] == '\n'
    ensures !EndsWithDotDigit(s) && !EndsWithDotDigitNewline(s) ==> r == s
  {
    if EndsWithDotDigit(s) then s[..|s| - 2]
    else if EndsWithDotDigitNewline(s) then
      var r := s[..|s| - 3] + "\n";
      assert r[..|s| - 3] == s[..|s| - 3];
      assert r[..|r| - 1] + s[|s| - 3..|s| - 1] + "\n" == s;
      r
    else s
  }

  /** Stripping undoes appending an installment suffix to any reference. */
  lemma StripUndoesSuffix(base: string, d: char)
    requires IsDigit(d)
    ensures StripDotDigit(base + ['.', d]) == base
  {
    var s := base + ['.', d];
    assert EndsWithDotDigit(s);
    assert s[..|s| - 2] == base;
  }

  /** A reference with no installment suffix is its own key. */
  lemma StripKeepsPlainReference(s: string)
    requires |s| == 0 || (!IsDigit(s[|s| - 1]) && s[|s| - 1] != '\n')
    ensures StripDotDigit(s) == s
  {
  }

  /** The key is stripped once only: a reference with two installment suffixes
      keeps the first (`"#7.1.2"` becomes `"#7.1"`). */
  lemma StripIsNotRepeated()
    ensures StripDotDigit("#7.1.2") == "#7.1"
    ensures StripDotDigit(StripDotDigit("#7.1.2")) == "#7"
  {
    assert EndsWithDotDigit("#7.1.2");
    assert "#7.1.2"[..4] == "#7.1";
    assert EndsWithDotDigit("#7.1");
    assert "#7.1"[..2] == "#7";
  }

  /** The canonical key of an order: its payment reference, or its name when
      the reference is missing (`fillna`), without a trailing `.N`. */
  function CanonicalRef(name: string, paymentReference: Option<string>): (key: string)
    ensures paymentReference.None? ==> key == StripDotDigit(name)
    ensures paymentReference.Some? ==> key == StripDotDigit(paymentReference.value)
  {
    StripDotDigit(paymentReference.GetOr(name))
  }

  function CanonicalKey(o: Order): string
  {
    CanonicalRef(o.name, o.paymentReference)
  }

  /** Dropping the incomplete orders keeps every clash of canonical keys
      between complete orders and creates none. */
  lemma CompleteOrdersSharedKey(orders: seq<Order>)
    ensures
      (exists i, j :: 0 <= i < j < |CompleteOrders(orders)| && CanonicalKey(CompleteOrders(orders)[i]) == CanonicalKey(CompleteOrders(orders)[j]))
      <==>
      (exists i, j :: 0 <= i < j < |orders| && orders[i].subtotal.Some? && orders[j].subtotal.Some? && CanonicalKey(orders[i]) == CanonicalKey(orders[j]))
  {
    var complete := CompleteOrders(orders);
    FilterClash(orders, CanonicalKey, IsComplete);
    if i, j :| 0 <= i < j < |complete| && CanonicalKey(complete[i]) == CanonicalKey(complete[j]) {
      assert complete[i] in complete && complete[j] in complete;
      assert Clash(complete, CanonicalKey, IsComplete);
    }
  }

  /** A row of `order_payment_id` after normalisation: an order's name and its
      canonical payment reference. */
  datatype KeyRow = KeyRow(name: string, paymentReference: string)

  /** `order_payment_id`: one key row per order, in the orders' order. */
  function KeyTable(orders: seq<Order>): (r: seq<KeyRow>)
    ensures |r| == |orders|
    ensures forall i :: 0 <= i < |orders| ==>
      r[i].name == orders[i].name && r[i].paymentReference == CanonicalKey(orders[i])
  {
    if orders == [] then []
    else [KeyRow(orders[0].name, CanonicalKey(orders[0]))] + KeyTable(orders[1..])
  }

  /** A row of `order_payment_id` as it is first projected from the orders,
      before its reference column is rewritten in place. */
  datatype RefRow = RefRow(name: string, paymentReference: Option<string>)

  /** Line 36 as the script runs it: an empty reference is filled with the
      order's name, in place. */
  method FillReferences(table: array<RefRow>)
    modifies table
    ensures forall i :: 0 <= i < table.Length ==>
      table[i] == RefRow(old(table[i].name), Some(old(table[i].paymentReference).GetOr(old(table[i].name))))
  {
    ghost var orig := table[..];
    for i := 0 to table.Length
      invariant forall j :: 0 <= j < i ==>
        table[j] == RefRow(orig[j].name, Some(orig[j].paymentReference.GetOr(orig[j].name)))
      invariant forall j :: i <= j < table.Length ==> table[j] == orig[j]
    {
      if table[i].paymentReference.None? {
        table[i] := table[i].(paymentReference := Some(table[i].name));
      }
    }
  }

  /** Line 37 as the script runs it: every filled reference is stripped of its
      installment suffix, in place. */
  method StripReferences(table: array<RefRow>)
    modifies table
    requires forall i :: 0 <= i < table.Length ==> table[i].paymentReference.Some?
    ensures forall i :: 0 <= i < table.Length ==>
      table[i] == RefRow(old(table[i].name), Some(StripDotDigit(old(table[i].paymentReference.value))))
  {
    ghost var orig := table[..];
    for i := 0 to table.Length
      invariant forall j :: 0 <= j < i ==>
        table[j] == RefRow(orig[j].name, Some(StripDotDigit(orig[j].paymentReference.value)))
      invariant forall j :: i <= j < table.Length ==> table[j] == orig[j]
    {
      table[i] := table[i].(paymentReference := Some(StripDotDigit(table[i].paymentReference.value)));
    }
  }

  /** Lines 35-37: the key table's reference column, filled and stripped, holds
      each order's canonical key. */
  method NormalizeReferences(table: array<RefRow>)
    modifies table
    ensures forall i :: 0 <= i < table.Length ==>
      table[i] == RefRow(old(table[i].name), Some(CanonicalRef(old(table[i].name), old(table[i].paymentReference))))
  {
    FillReferences(table);
    StripReferences(table);
  }
}
