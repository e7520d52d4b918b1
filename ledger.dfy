/**
 * The transaction records the helper reads back from the database, and the
 * small collection operations its aggregation loops rely on: per-kind
 * totals, dictionaries keyed by strings or day numbers (JavaScript objects,
 * kept here as association lists in insertion order), and the stable
 * `Array.prototype.sort` with a descending comparator.
 */
module Ledger {
  import opened Wrappers
  import opened Calendar

  /** `t.type`: "THUNHAP" is income, "CHITIEU" is expense; any other tag counts as neither. */
  datatype Kind = Income | Expense | OtherKind(tag: string)

  /**
   * A transaction: `amount` is absent when the field is missing or null,
   * `category` is the populated category's name, if any.
   */
  datatype Transaction = Transaction(kind: Kind, amount: Option<real>, category: Option<string>, date: DateTime)

  /** `t.amount || 0`. */
  function Amount(t: Transaction): real {
    t.amount.GetOr(0.0)
  }

  /** `t.categoryId?.name || fallback`: a missing or empty name falls back. */
  function CategoryName(t: Transaction, fallback: string): (name: string)
    ensures name == fallback || (t.category == Some(name) && name != [])
  {
    if t.category.Some? && t.category.value != [] then t.category.value else fallback
  }

  /** What one transaction adds to the running total of kind `k`. */
  function KindAmount(t: Transaction, k: Kind): real {
    if t.kind == k then Amount(t) else 0.0
  }

  /** The total of kind `k`, accumulated in transaction order. */
  function KindTotal(ts: seq<Transaction>, k: Kind): real
    decreases |ts|
  {
    if ts == [] then 0.0 else KindTotal(ts[..|ts| - 1], k) + KindAmount(ts[|ts| - 1], k)
  }

  /** The sum of every amount, whatever the kind. */
  function AmountTotal(ts: seq<Transaction>): real
    decreases |ts|
  {
    if ts == [] then 0.0 else AmountTotal(ts[..|ts| - 1]) + Amount(ts[|ts| - 1])
  }

  /** The sum of the amounts that are neither income nor expense. */
  function UnclassifiedTotal(ts: seq<Transaction>): real
    decreases |ts|
  {
    if ts == [] then 0.0
    else
      var t := ts[|ts| - 1];
      UnclassifiedTotal(ts[..|ts| - 1]) + (if t.kind.OtherKind? then Amount(t) else 0.0)
  }

  /** Income, expense and unclassified totals partition the total amount. */
  lemma {:induction false} TotalsPartition(ts: seq<Transaction>)
    ensures AmountTotal(ts) == KindTotal(ts, Income) + KindTotal(ts, Expense) + UnclassifiedTotal(ts)
    decreases |ts|
  {
    if ts != [] {
      TotalsPartition(ts[..|ts| - 1]);
    }
  }

  /** Totals of a concatenation add up. */
  lemma {:induction false} KindTotalAppend(a: seq<Transaction>, b: seq<Transaction>, k: Kind)
    ensures KindTotal(a + b, k) == KindTotal(a, k) + KindTotal(b, k)
    decreases |b|
  {
    if b != [] {
      assert (a + b)[..|a + b| - 1] == a + b[..|b| - 1];
      assert (a + b)[|a + b| - 1] == b[|b| - 1];
      KindTotalAppend(a, b[..|b| - 1], k);
    } else {
      assert a + b == a;
    }
  }

  /** With no negative amounts, every total is non-negative. */
  lemma {:induction false} KindTotalNonNegative(ts: seq<Transaction>, k: Kind)
    requires forall i :: 0 <= i < |ts| ==> Amount(ts[i]) >= 0.0
    ensures KindTotal(ts, k) >= 0.0
    decreases |ts|
  {
    if ts != [] {
      KindTotalNonNegative(ts[..|ts| - 1], k);
    }
  }

  /** The database query `date: { $gte: startOfMonth, $lte: endOfMonth }`, keeping the stored order. */
  function InWindow(all: seq<Transaction>, ym: YearMonth): (ts: seq<Transaction>)
    ensures |ts| <= |all|
    ensures forall t :: t in ts <==> t in all && InMonthWindow(t.date, ym)
    decreases |all|
  {
    if all == [] then []
    else
      var rest := InWindow(all[..|all| - 1], ym);
      var t := all[|all| - 1];
      assert forall u :: u in all <==> u in all[..|all| - 1] || u == t by {
        assert all == all[..|all| - 1] + [t];
      }
      if InMonthWindow(t.date, ym) then rest + [t] else rest
  }

  // ---------------------------------------------------------------------
  // Dictionaries: JavaScript objects as association lists in insertion order

  /** The position of key `k`, if present. */
  function Find<K(==), V>(m: seq<(K, V)>, k: K): (r: Option<nat>)
    ensures r.Some? ==> r.value < |m| && m[r.value].0 == k
    ensures r.None? ==> forall i :: 0 <= i < |m| ==> m[i].0 != k
    decreases |m|
  {
    if m == [] then None
    else if m[0].0 == k then Some(0)
    else match Find(m[1..], k)
      case None => None
      case Some(j) => Some(j + 1)
  }

  /** Each key appears once, as in an object. */
  predicate DistinctKeys<K(==), V>(m: seq<(K, V)>) {
    forall i, j :: 0 <= i < j < |m| ==> m[i].0 != m[j].0
  }

  /** In an object with distinct keys, a key sits at exactly one position. */
  lemma {:induction false} FindUnique<K, V>(m: seq<(K, V)>, k: K, i: nat)
    requires DistinctKeys(m) && i < |m| && m[i].0 == k
    ensures Find(m, k) == Some(i)
    decreases |m|
  {
    if i > 0 {
      assert m[0].0 != m[i].0;
      assert m[1..][i - 1] == m[i];
      FindUnique(m[1..], k, i - 1);
    }
  }

  /** `if (!m[k]) m[k] = 0; m[k] += x`: add to the value under `k`, creating it at the end if missing. */
  function AddTo<K(==)>(m: seq<(K, real)>, k: K, x: real): (r: seq<(K, real)>)
    ensures DistinctKeys(m) ==> DistinctKeys(r)
    ensures Find(m, k).Some? ==> |r| == |m|
    ensures Find(m, k).None? ==> |r| == |m| + 1 && r[|m|] == (k, x)
    ensures forall i :: 0 <= i < |m| ==> r[i].0 == m[i].0
    ensures DistinctKeys(m) ==> forall i :: 0 <= i < |m| ==> r[i].1 == (if m[i].0 == k then m[i].1 + x else m[i].1)
  {
    match Find(m, k)
    case Some(j) => m[j := (k, m[j].1 + x)]
    case None => m + [(k, 0.0 + x)]
  }

  /** `m[k]`: the value under `k`, or `undefined`. */
  function Lookup<K(==)>(m: seq<(K, real)>, k: K): Option<real> {
    match Find(m, k)
    case Some(j) => Some(m[j].1)
    case None => None
  }

  /** Adding `x` under `k` raises the value under `k` by `x` (from 0 when missing) and leaves every other key as it was. */
  lemma AddToLookup<K>(m: seq<(K, real)>, k: K, x: real, q: K)
    requires DistinctKeys(m)
    ensures Lookup(AddTo(m, k, x), q) == if q == k then Some(Lookup(m, k).GetOr(0.0) + x) else Lookup(m, q)
  {
    var r := AddTo(m, k, x);
    match Find(m, k)
    case Some(j) =>
      if q == k {
        FindUnique(r, k, j);
      } else if Find(m, q).Some? {
        FindUnique(r, q, Find(m, q).value);
      } else {
        assert forall i :: 0 <= i < |r| ==> r[i].0 == m[i].0;
      }
    case None =>
      if q == k {
        FindUnique(r, k, |m|);
      } else if Find(m, q).Some? {
        FindUnique(r, q, Find(m, q).value);
      } else {
        assert forall i :: 0 <= i < |r| ==> r[i].0 != q;
      }
  }

  /** The sum of `f` over a sequence, accumulated from the front. */
  function SumOf<T>(s: seq<T>, f: T -> real): real
    decreases |s|
  {
    if s == [] then 0.0 else SumOf(s[..|s| - 1], f) + f(s[|s| - 1])
  }

  /** Replacing one element changes the sum by the difference. */
  lemma {:induction false} SumOfUpdate<T>(s: seq<T>, j: nat, y: T, f: T -> real)
    requires j < |s|
    ensures SumOf(s[j := y], f) == SumOf(s, f) - f(s[j]) + f(y)
    decreases |s|
  {
    var n := |s| - 1;
    if j < n {
      assert s[j := y][..n] == s[..n][j := y];
      SumOfUpdate(s[..n], j, y, f);
    } else {
      assert s[j := y][..n] == s[..n];
    }
  }

  /** Appending one element adds its value. */
  lemma SumOfAppend<T>(s: seq<T>, y: T, f: T -> real)
    ensures SumOf(s + [y], f) == SumOf(s, f) + f(y)
  {
    assert (s + [y])[..|s|] == s;
  }

  function Value<K>(e: (K, real)): real {
    e.1
  }

  /** Adding `x` under any key raises the sum of the values by `x`. */
  lemma AddToSum<K>(m: seq<(K, real)>, k: K, x: real)
    ensures SumOf(AddTo(m, k, x), Value) == SumOf(m, Value) + x
  {
    match Find(m, k)
    case Some(j) => SumOfUpdate(m, j, (k, m[j].1 + x), Value);
    case None => SumOfAppend(m, (k, 0.0 + x), Value);
  }

  /** With non-negative values, no value exceeds the sum. */
  lemma {:induction false} ValueAtMostSum<K>(m: seq<(K, real)>, i: nat)
    requires i < |m| && forall j :: 0 <= j < |m| ==> m[j].1 >= 0.0
    ensures m[i].1 <= SumOf(m, Value)
    decreases |m|
  {
    var n := |m| - 1;
    assert SumOf(m[..n], Value) >= 0.0 by {
      SumNonNegative(m[..n]);
    }
    if i < n {
      ValueAtMostSum(m[..n], i);
    }
  }

  lemma {:induction false} SumNonNegative<K>(m: seq<(K, real)>)
    requires forall j :: 0 <= j < |m| ==> m[j].1 >= 0.0
    ensures SumOf(m, Value) >= 0.0
    decreases |m|
  {
    if m != [] {
      SumNonNegative(m[..|m| - 1]);
    }
  }

  // ---------------------------------------------------------------------
  // Sorting: `[...s].sort((a, b) => key(b) - key(a))`, which is stable

  /** Put `x` before the first element whose key is not above its own. */
  function Insert<T(==)>(x: T, r: seq<T>, key: T -> real): (o: seq<T>)
    ensures |o| == |r| + 1
    decreases |r|
  {
    if r == [] || key(x) >= key(r[0]) then [x] + r
    else
      assert r == [r[0]] + r[1..];
      [r[0]] + Insert(x, r[1..], key)
  }

  /**
   * The stable sort, descending by `key`: each element goes in front of the
   * later elements whose keys are not above its own, so ties keep their order.
   */
  function SortDescending<T(==)>(s: seq<T>, key: T -> real): (r: seq<T>)
    ensures |r| == |s|
    decreases |s|
  {
    if s == [] then []
    else
      assert s == [s[0]] + s[1..];
      Insert(s[0], SortDescending(s[1..], key), key)
  }

  /** Inserting adds `x` and keeps every element of `r`. */
  lemma {:induction false} InsertPermutes<T>(x: T, r: seq<T>, key: T -> real)
    ensures multiset(Insert(x, r, key)) == multiset(r) + multiset{x}
    decreases |r|
  {
    if r != [] && key(x) < key(r[0]) {
      InsertPermutes(x, r[1..], key);
      assert r == [r[0]] + r[1..];
    }
  }

  /** The sort is a permutation. */
  lemma {:induction false} SortPermutes<T>(s: seq<T>, key: T -> real)
    ensures multiset(SortDescending(s, key)) == multiset(s)
    decreases |s|
  {
    if s != [] {
      SortPermutes(s[1..], key);
      InsertPermutes(s[0], SortDescending(s[1..], key), key);
      assert s == [s[0]] + s[1..];
    }
  }

  predicate SortedDescending<T>(r: seq<T>, key: T -> real) {
    forall i, j :: 0 <= i < j < |r| ==> key(r[i]) >= key(r[j])
  }

  /** A head no smaller than every element of a sorted rest keeps it sorted. */
  lemma ConsSorted<T>(h: T, rest: seq<T>, key: T -> real)
    requires SortedDescending(rest, key)
    requires forall j :: 0 <= j < |rest| ==> key(h) >= key(rest[j])
    ensures SortedDescending([h] + rest, key)
  {
    var o := [h] + rest;
    forall i, j | 0 <= i < j < |o| ensures key(o[i]) >= key(o[j]) {
      assert o[j] == rest[j - 1];
      if i > 0 {
        assert o[i] == rest[i - 1];
      }
    }
  }

  lemma {:induction false} InsertSorted<T>(x: T, r: seq<T>, key: T -> real)
    requires SortedDescending(r, key)
    ensures SortedDescending(Insert(x, r, key), key)
    decreases |r|
  {
    if r == [] || key(x) >= key(r[0]) {
      assert Insert(x, r, key) == [x] + r;
      assert forall j :: 0 <= j < |r| ==> key(x) >= key(r[j]);
      ConsSorted(x, r, key);
    } else {
      var rest := Insert(x, r[1..], key);
      assert SortedDescending(rest, key) by {
        assert SortedDescending(r[1..], key);
        InsertSorted(x, r[1..], key);
      }
      assert forall j :: 0 <= j < |rest| ==> key(r[0]) >= key(rest[j]) by {
        InsertPermutes(x, r[1..], key);
        forall j | 0 <= j < |rest| ensures key(r[0]) >= key(rest[j]) {
          assert rest[j] in multiset(rest);
          assert rest[j] == x || rest[j] in multiset(r[1..]);
          if rest[j] != x {
            var k :| 0 <= k < |r[1..]| && r[1..][k] == rest[j];
            assert r[k + 1] == rest[j];
          }
        }
      }
      assert Insert(x, r, key) == [r[0]] + rest;
      ConsSorted(r[0], rest, key);
    }
  }

  /** The sort's result is ordered by descending key. */
  lemma {:induction false} SortIsSorted<T>(s: seq<T>, key: T -> real)
    ensures SortedDescending(SortDescending(s, key), key)
    decreases |s|
  {
    if s != [] {
      SortIsSorted(s[1..], key);
      InsertSorted(s[0], SortDescending(s[1..], key), key);
    }
  }

  /** The elements of `s` whose key is `v`, in their order in `s`. */
  function KeyRun<T>(s: seq<T>, key: T -> real, v: real): seq<T>
    decreases |s|
  {
    if s == [] then []
    else (if key(s[0]) == v then [s[0]] else []) + KeyRun(s[1..], key, v)
  }

  /** Inserting `x` puts it ahead of every element of `r` that has its key. */
  lemma {:induction false} InsertRun<T>(x: T, r: seq<T>, key: T -> real, v: real)
    ensures KeyRun(Insert(x, r, key), key, v) == (if key(x) == v then [x] else []) + KeyRun(r, key, v)
    decreases |r|
  {
    if r == [] || key(x) >= key(r[0]) {
      assert ([x] + r)[1..] == r;
    } else {
      var rest := Insert(x, r[1..], key);
      assert Insert(x, r, key) == [r[0]] + rest;
      assert ([r[0]] + rest)[1..] == rest;
      InsertRun(x, r[1..], key, v);
      assert KeyRun(r, key, v) == (if key(r[0]) == v then [r[0]] else []) + KeyRun(r[1..], key, v);
    }
  }

  /**
   * The sort is stable: the elements sharing any one key come out in the
   * order they went in.
   */
  lemma {:induction false} SortIsStable<T>(s: seq<T>, key: T -> real, v: real)
    ensures KeyRun(SortDescending(s, key), key, v) == KeyRun(s, key, v)
    decreases |s|
  {
    if s != [] {
      SortIsStable(s[1..], key, v);
      InsertRun(s[0], SortDescending(s[1..], key), key, v);
    }
  }

  /** `i` is the earliest position holding the largest key. */
  predicate IsFirstMax<T>(s: seq<T>, i: int, key: T -> real) {
    0 <= i < |s|
    && (forall j :: 0 <= j < |s| ==> key(s[j]) <= key(s[i]))
    && (forall j :: 0 <= j < i ==> key(s[j]) < key(s[i]))
  }

  /** `i` is the latest position holding the smallest key. */
  predicate IsLastMin<T>(s: seq<T>, i: int, key: T -> real) {
    0 <= i < |s|
    && (forall j :: 0 <= j < |s| ==> key(s[j]) >= key(s[i]))
    && (forall j :: i < j < |s| ==> key(s[j]) > key(s[i]))
  }

  /** A scan from the front for the earliest largest key. */
  function FirstMaxIndex<T>(s: seq<T>, key: T -> real): (i: nat)
    requires s != []
    ensures IsFirstMax(s, i, key)
    decreases |s|
  {
    if |s| == 1 then 0
    else
      var j := 1 + FirstMaxIndex(s[1..], key);
      if key(s[0]) >= key(s[j]) then 0 else j
  }

  /** A scan from the front for the latest smallest key. */
  function LastMinIndex<T>(s: seq<T>, key: T -> real): (i: nat)
    requires s != []
    ensures IsLastMin(s, i, key)
    decreases |s|
  {
    if |s| == 1 then 0
    else
      var j := 1 + LastMinIndex(s[1..], key);
      if key(s[0]) < key(s[j]) then 0 else j
  }

  /** An element of the sorted tail comes from the tail. */
  lemma ElementOfRest<T>(s: seq<T>, key: T -> real, y: T) returns (k: nat)
    requires s != [] && y in SortDescending(s[1..], key)
    ensures 1 <= k < |s| && s[k] == y
  {
    SortPermutes(s[1..], key);
    assert y in multiset(SortDescending(s[1..], key));
    assert y in s[1..];
    var k0 :| 0 <= k0 < |s[1..]| && s[1..][k0] == y;
    k := k0 + 1;
  }

  /** The head of the sorted copy is the earliest element with the largest key. */
  lemma {:induction false} SortHeadIsFirstMax<T>(s: seq<T>, key: T -> real, i: nat)
    requires IsFirstMax(s, i, key)
    ensures SortDescending(s, key)[0] == s[i]
    decreases |s|
  {
    var r := SortDescending(s[1..], key);
    if i == 0 {
      if r != [] {
        var k := ElementOfRest(s, key, r[0]);
      }
    } else {
      assert IsFirstMax(s[1..], i - 1, key) by {
        forall j | 0 <= j < |s[1..]| ensures key(s[1..][j]) <= key(s[1..][i - 1]) {
          assert s[1..][j] == s[j + 1];
        }
        forall j | 0 <= j < i - 1 ensures key(s[1..][j]) < key(s[1..][i - 1]) {
          assert s[1..][j] == s[j + 1];
        }
      }
      SortHeadIsFirstMax(s[1..], key, i - 1);
    }
  }

  /** Where `x` lands relative to the last element, when that element has the smallest key. */
  lemma {:induction false} InsertLast<T>(x: T, r: seq<T>, key: T -> real)
    requires r != [] && forall k :: 0 <= k < |r| ==> key(r[k]) >= key(r[|r| - 1])
    ensures var o := Insert(x, r, key);
      o[|o| - 1] == if key(x) < key(r[|r| - 1]) then x else r[|r| - 1]
    decreases |r|
  {
    var last := r[|r| - 1];
    if key(x) < key(r[0]) && |r| > 1 {
      var tail := r[1..];
      assert tail[|tail| - 1] == last;
      assert forall k :: 0 <= k < |tail| ==> key(tail[k]) >= key(last) by {
        forall k | 0 <= k < |tail| ensures key(tail[k]) >= key(last) {
          assert tail[k] == r[k + 1];
        }
      }
      InsertLast(x, tail, key);
      assert Insert(x, r, key) == [r[0]] + Insert(x, tail, key);
    }
  }

  lemma TailLastMin<T>(s: seq<T>, i: nat, key: T -> real)
    requires IsLastMin(s, i, key) && i > 0
    ensures IsLastMin(s[1..], i - 1, key)
  {
    forall j | 0 <= j < |s[1..]| ensures key(s[1..][j]) >= key(s[1..][i - 1]) {
      assert s[1..][j] == s[j + 1];
    }
    forall j | i - 1 < j < |s[1..]| ensures key(s[1..][j]) > key(s[1..][i - 1]) {
      assert s[1..][j] == s[j + 1];
    }
  }

  /** The last element of the sorted copy is the latest element with the smallest key. */
  lemma {:induction false} SortLastIsLastMin<T>(s: seq<T>, key: T -> real, i: nat)
    requires IsLastMin(s, i, key)
    ensures var r := SortDescending(s, key); r[|r| - 1] == s[i]
    decreases |s|, 2
  {
    if |s| == 1 {
      assert SortDescending(s, key) == Insert(s[0], [], key);
    } else if i == 0 {
      SortLastAtHead(s, key);
    } else {
      SortLastInTail(s, key, i);
    }
  }

  /** Where the sorted copy ends: the head when its key is below every later key, else the end of the sorted tail. */
  lemma InsertAtEnd<T>(s: seq<T>, key: T -> real)
    requires |s| > 1
    ensures var r := SortDescending(s[1..], key); var o := SortDescending(s, key);
      o[|o| - 1] == if key(s[0]) < key(r[|r| - 1]) then s[0] else r[|r| - 1]
  {
    var r := SortDescending(s[1..], key);
    assert SortDescending(s, key) == Insert(s[0], r, key);
    assert forall k :: 0 <= k < |r| ==> key(r[k]) >= key(r[|r| - 1]) by {
      SortIsSorted(s[1..], key);
    }
    InsertLast(s[0], r, key);
  }

  lemma SortLastAtHead<T>(s: seq<T>, key: T -> real)
    requires |s| > 1 && IsLastMin(s, 0, key)
    ensures var o := SortDescending(s, key); o[|o| - 1] == s[0]
  {
    var r := SortDescending(s[1..], key);
    InsertAtEnd(s, key);
    var k := ElementOfRest(s, key, r[|r| - 1]);
  }

  lemma {:induction false} SortLastInTail<T>(s: seq<T>, key: T -> real, i: nat)
    requires |s| > 1 && 0 < i && IsLastMin(s, i, key)
    ensures var o := SortDescending(s, key); o[|o| - 1] == s[i]
    decreases |s|, 1
  {
    InsertAtEnd(s, key);
    SortTailLast(s, key, i);
  }

  /** When the latest smallest key is not at the head, it is also last in the sorted tail. */
  lemma {:induction false} SortTailLast<T>(s: seq<T>, key: T -> real, i: nat)
    requires IsLastMin(s, i, key) && i > 0
    ensures var r := SortDescending(s[1..], key); r[|r| - 1] == s[i]
    decreases |s|, 0
  {
    TailLastMin(s, i, key);
    SortLastIsLastMin(s[1..], key, i - 1);
    assert s[1..][i - 1] == s[i];
  }

  /** `.sort(...).slice(0, n)`: the first `n` of the sorted copy. */
  function Top<T(==)>(s: seq<T>, n: nat, key: T -> real): seq<T> {
    var r := SortDescending(s, key);
    if n < |r| then r[..n] else r
  }

  /** The first `n` of a sorted sequence are sorted and none of the rest is above them. */
  lemma PrefixOfSorted<T>(r: seq<T>, n: nat, key: T -> real)
    requires SortedDescending(r, key)
    ensures var t := if n < |r| then r[..n] else r;
      && SortedDescending(t, key)
      && forall a, b :: 0 <= a < |t| <= b < |r| ==> key(t[a]) >= key(r[b])
  {
    var t := if n < |r| then r[..n] else r;
    assert forall a :: 0 <= a < |t| ==> t[a] == r[a];
  }

  /** The top `n` are sorted, come from `s`, and no element left out has a larger key than one kept. */
  lemma TopSelects<T>(s: seq<T>, n: nat, key: T -> real)
    ensures var t := Top(s, n, key);
      && |t| == (if n < |s| then n else |s|)
      && SortedDescending(t, key)
      && multiset(t) <= multiset(s)
    ensures var r := SortDescending(s, key); var t := Top(s, n, key);
      forall a, b :: 0 <= a < |t| <= b < |r| ==> key(t[a]) >= key(r[b])
  {
    var r := SortDescending(s, key);
    var t := Top(s, n, key);
    assert t == if n < |r| then r[..n] else r;
    assert SortedDescending(t, key) && forall a, b :: 0 <= a < |t| <= b < |r| ==> key(t[a]) >= key(r[b]) by {
      SortIsSorted(s, key);
      PrefixOfSorted(r, n, key);
    }
    SortPermutes(s, key);
    PrefixInMultiset(r, n);
  }

  /** The first `n` elements of a sequence (all of it when it is shorter) are a sub-multiset of it. */
  lemma PrefixInMultiset<T>(r: seq<T>, n: nat)
    ensures multiset(if n < |r| then r[..n] else r) <= multiset(r)
  {
    if n < |r| {
      assert r == r[..n] + r[n..];
      assert multiset(r) == multiset(r[..n]) + multiset(r[n..]);
    }
  }
}
