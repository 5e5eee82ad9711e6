/** Generic table operations the reconciliation pipeline is built from:
    optional cells, error results, sums over rows, filters and group-by-sum. */
module Tables {

  /** A cell that may be empty (a NaN / NaT in the spreadsheet). */
  datatype Option<T> = None | Some(value: T)
  {
    /** The value, or `default` when the cell is empty (`fillna`). */
    function GetOr(default: T): T
    {
      match this
      case Some(v) => v
      case None => default
    }
  }

  datatype Result<T, E> = Ok(value: T) | Err(error: E)

  // ---------------------------------------------------------------------------
  // Sums over rows

  /** The sum of the weight `f` over the rows of `s`. */
  function Sum<R>(s: seq<R>, f: R -> int): int
  {
    if s == [] then 0 else f(s[0]) + Sum(s[1..], f)
  }

  lemma {:induction false} SumConcat<R>(a: seq<R>, b: seq<R>, f: R -> int)
    ensures Sum(a + b, f) == Sum(a, f) + Sum(b, f)
  {
    if a == [] {
      assert a + b == b;
    } else {
      assert (a + b)[1..] == a[1..] + b;
      SumConcat(a[1..], b, f);
    }
  }

  /** Rows of weight zero add nothing. */
  lemma {:induction false} SumZero<R>(s: seq<R>, f: R -> int)
    requires forall j :: 0 <= j < |s| ==> f(s[j]) == 0
    ensures Sum(s, f) == 0
  {
    if s != [] {
      SumZero(s[1..], f);
    }
  }

  /** When only the row at index `i` can weigh anything, the sum is that row's weight. */
  lemma {:induction false} SumSingle<R>(s: seq<R>, f: R -> int, i: nat)
    requires i < |s|
    requires forall j :: 0 <= j < |s| && j != i ==> f(s[j]) == 0
    ensures Sum(s, f) == f(s[i])
  {
    if i == 0 {
      SumZero(s[1..], f);
    } else {
      SumSingle(s[1..], f, i - 1);
    }
  }

  // ---------------------------------------------------------------------------
  // Boolean-mask selection

  /** The rows of `s` that satisfy `p`, in their original order (`df[mask]`). */
  function Filter<T(!new)>(s: seq<T>, p: T -> bool): (r: seq<T>)
    ensures |r| <= |s|
    ensures forall x :: x in r <==> x in s && p(x)
    ensures forall i :: 0 <= i < |r| ==> p(r[i])
  {
    if s == [] then [] else (if p(s[0]) then [s[0]] else []) + Filter(s[1..], p)
  }

  /** The weight `f` on rows that satisfy `p`, and 0 on the others. */
  function Masked<T>(p: T -> bool, f: T -> int): T -> int
  {
    x => if p(x) then f(x) else 0
  }

  /** Summing over the selected rows is summing the masked weight over all rows. */
  lemma {:induction false} FilterSum<T(!new)>(s: seq<T>, p: T -> bool, f: T -> int)
    ensures Sum(Filter(s, p), f) == Sum(s, Masked(p, f))
  {
    if s != [] {
      var head := if p(s[0]) then [s[0]] else [];
      SumConcat(head, Filter(s[1..], p), f);
      FilterSum(s[1..], p, f);
    }
  }

  /** The selection keeps every copy of a selected row and no copy of another. */
  lemma {:induction false} FilterCount<T(!new)>(s: seq<T>, p: T -> bool, x: T)
    ensures multiset(Filter(s, p))[x] == if p(x) then multiset(s)[x] else 0
  {
    if s != [] {
      assert s == [s[0]] + s[1..];
      FilterCount(s[1..], p, x);
    }
  }

  /** Two rows of `xs` that satisfy `p` share a key. */
  predicate Clash<T, K(==)>(xs: seq<T>, key: T -> K, p: T -> bool)
  {
    exists i, j :: 0 <= i < j < |xs| && p(xs[i]) && p(xs[j]) && key(xs[i]) == key(xs[j])
  }

  lemma ClashCons<T, K>(a: T, rest: seq<T>, key: T -> K, p: T -> bool)
    ensures Clash([a] + rest, key, p) <==>
      (Clash(rest, key, p) || (p(a) && exists x :: x in rest && p(x) && key(x) == key(a)))
  {
    var r := [a] + rest;
    if Clash(r, key, p) {
      var i, j :| 0 <= i < j < |r| && p(r[i]) && p(r[j]) && key(r[i]) == key(r[j]);
      if i == 0 {
        assert r[j] in rest;
      } else {
        assert p(rest[i - 1]) && p(rest[j - 1]) && key(rest[i - 1]) == key(rest[j - 1]);
      }
    }
    if Clash(rest, key, p) {
      var i, j :| 0 <= i < j < |rest| && p(rest[i]) && p(rest[j]) && key(rest[i]) == key(rest[j]);
      assert r[i + 1] == rest[i] && r[j + 1] == rest[j];
    }
    if p(a) && exists x :: x in rest && p(x) && key(x) == key(a) {
      var x :| x in rest && p(x) && key(x) == key(a);
      var j :| 0 <= j < |rest| && rest[j] == x;
      assert r[0] == a && r[j + 1] == x;
    }
  }

  /** Selecting the rows that satisfy `p` keeps every clash among them and
      creates none. */
  lemma {:induction false} FilterClash<T(!new), K>(xs: seq<T>, key: T -> K, p: T -> bool)
    ensures Clash(Filter(xs, p), key, p) <==> Clash(xs, key, p)
  {
    if xs != [] {
      var a, rest := xs[0], xs[1..];
      assert xs == [a] + rest;
      FilterClash(rest, key, p);
      ClashCons(a, rest, key, p);
      if p(a) {
        assert Filter(xs, p) == [a] + Filter(rest, p);
        ClashCons(a, Filter(rest, p), key, p);
      } else {
        assert Filter(xs, p) == Filter(rest, p);
      }
    }
  }

  // ---------------------------------------------------------------------------
  // Group-by-sum

  /** One row of a keyed table: a key and an amount. Used both for the rows fed
      to a group-by and for the groups it produces. */
  datatype Bucket<K> = Bucket(key: K, total: int)

  function Keys<K>(bs: seq<Bucket<K>>): set<K>
  {
    set b | b in bs :: b.key
  }

  lemma KeysConcat<K>(a: seq<Bucket<K>>, b: seq<Bucket<K>>)
    ensures Keys(a + b) == Keys(a) + Keys(b)
  {
  }

  predicate DistinctKeys<K(==)>(bs: seq<Bucket<K>>)
  {
    forall i, j :: 0 <= i < j < |bs| ==> bs[i].key != bs[j].key
  }

  /** The weight that counts a row's amount when its key satisfies `p`. */
  function Where<K>(p: K -> bool): Bucket<K> -> int
  {
    (b: Bucket<K>) => if p(b.key) then b.total else 0
  }

  /** The key predicate that admits every key. */
  function AllKeys<K>(): K -> bool
  {
    (k: K) => true
  }

  /** The key predicate "equals `k`". */
  function KeyIs<K(==)>(k: K): K -> bool
  {
    x => x == k
  }

  /** The amount filed under `k` in a grouped table; 0 when `k` has no group
      (the `fillna(0)` of a missing side). */
  function Lookup<K(==)>(bs: seq<Bucket<K>>, k: K): (v: int)
    ensures k !in Keys(bs) ==> v == 0
    ensures forall i :: 0 <= i < |bs| && bs[i].key == k && (forall j :: 0 <= j < i ==> bs[j].key != k) ==> v == bs[i].total
  {
    if bs == [] then 0
    else if bs[0].key == k then bs[0].total
    else Lookup(bs[1..], k)
  }

  /** In a table with distinct keys, the looked-up amount is the amount of all
      rows filed under the key. */
  lemma {:induction false} LookupIsSum<K>(bs: seq<Bucket<K>>, k: K)
    requires DistinctKeys(bs)
    ensures Lookup(bs, k) == Sum(bs, Where(KeyIs(k)))
  {
    if bs != [] {
      if bs[0].key == k {
        SumZero(bs[1..], Where(KeyIs(k)));
      } else {
        LookupIsSum(bs[1..], k);
      }
    }
  }

  /** A row in front of rows with distinct keys keeps them distinct when its
      key is new. */
  lemma DistinctCons<K>(b: Bucket<K>, rest: seq<Bucket<K>>)
    ensures DistinctKeys(rest) && b.key !in Keys(rest) ==> DistinctKeys([b] + rest)
  {
    if DistinctKeys(rest) && b.key !in Keys(rest) {
      var r := [b] + rest;
      forall i, j | 0 <= i < j < |r|
        ensures r[i].key != r[j].key
      {
        assert r[j] == rest[j - 1] && rest[j - 1] in rest;
      }
    }
  }

  /** The first row of rows with distinct keys has a key the rest lack. */
  lemma DistinctUncons<K>(bs: seq<Bucket<K>>)
    requires bs != []
    ensures Keys(bs) == {bs[0].key} + Keys(bs[1..])
    ensures DistinctKeys(bs) ==> DistinctKeys(bs[1..]) && bs[0].key !in Keys(bs[1..])
  {
    assert bs == [bs[0]] + bs[1..];
    KeysConcat([bs[0]], bs[1..]);
  }

  /** Adds `v` to the group of `k`, opening a new group at the end when there is none. */
  function AddTo<K(==)>(bs: seq<Bucket<K>>, k: K, v: int): (r: seq<Bucket<K>>)
    ensures Keys(r) == Keys(bs) + {k}
    ensures DistinctKeys(bs) ==> DistinctKeys(r)
  {
    if bs == [] then [Bucket(k, v)]
    else
      DistinctUncons(bs);
      if bs[0].key == k then
        var b := Bucket(k, bs[0].total + v);
        KeysConcat([b], bs[1..]);
        DistinctCons(b, bs[1..]);
        [b] + bs[1..]
      else
        var rest := AddTo(bs[1..], k, v);
        KeysConcat([bs[0]], rest);
        DistinctCons(bs[0], rest);
        [bs[0]] + rest
  }

  lemma {:induction false} AddToSum<K>(bs: seq<Bucket<K>>, k: K, v: int, p: K -> bool)
    ensures Sum(AddTo(bs, k, v), Where(p)) == Sum(bs, Where(p)) + (if p(k) then v else 0)
  {
    if bs != [] && bs[0].key != k {
      AddToSum(bs[1..], k, v, p);
    }
  }

  /** Folds `rows` into the grouped table `acc`, one row at a time. */
  function GroupInto<K(==)>(acc: seq<Bucket<K>>, rows: seq<Bucket<K>>): (r: seq<Bucket<K>>)
    ensures Keys(r) == Keys(acc) + Keys(rows)
    ensures DistinctKeys(acc) ==> DistinctKeys(r)
    decreases rows
  {
    if rows == [] then acc
    else
      assert Keys(rows) == {rows[0].key} + Keys(rows[1..]) by {
        assert rows == [rows[0]] + rows[1..];
        KeysConcat([rows[0]], rows[1..]);
      }
      GroupInto(AddTo(acc, rows[0].key, rows[0].total), rows[1..])
  }

  lemma {:induction false} GroupIntoSum<K>(acc: seq<Bucket<K>>, rows: seq<Bucket<K>>, p: K -> bool)
    ensures Sum(GroupInto(acc, rows), Where(p)) == Sum(acc, Where(p)) + Sum(rows, Where(p))
    decreases rows
  {
    if rows != [] {
      AddToSum(acc, rows[0].key, rows[0].total, p);
      GroupIntoSum(AddTo(acc, rows[0].key, rows[0].total), rows[1..], p);
    }
  }

  /** `groupby(key).agg(sum)`: one group per distinct key of `rows`. */
  function GroupSum<K(==)>(rows: seq<Bucket<K>>): (r: seq<Bucket<K>>)
    ensures DistinctKeys(r)
    ensures Keys(r) == Keys(rows)
  {
    GroupInto([], rows)
  }

  /** Grouping loses and invents nothing: under any key filter the groups sum to
      what the rows sum to. */
  lemma GroupSumConserves<K>(rows: seq<Bucket<K>>, p: K -> bool)
    ensures Sum(GroupSum(rows), Where(p)) == Sum(rows, Where(p))
  {
    GroupIntoSum([], rows, p);
  }

  /** Each group holds exactly the sum of the rows filed under its key. */
  lemma GroupSumLookup<K>(rows: seq<Bucket<K>>, k: K)
    ensures Lookup(GroupSum(rows), k) == Sum(rows, Where(KeyIs(k)))
  {
    GroupSumConserves(rows, KeyIs(k));
    LookupIsSum(GroupSum(rows), k);
  }
}
