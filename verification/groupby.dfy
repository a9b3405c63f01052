/**
 The `groupby(key)[column].sum()` and `.mean()` aggregations the dashboard
 runs, written out over a sequence of rows with exact arithmetic.

 Each aggregation is an incremental fold over the rows (`GroupSum`,
 `GroupCount`, `GroupMean`) that updates one map entry per row; its
 contract ties it to a per-key reference definition: `SumWhere` and
 `CountWhere` add up, and count, the rows carrying one key. These are in
 turn the `Total` and the size of `Group`, the rows carrying that key.
 */
module GroupBy {
  import opened Records

  /** The distinct key values present among the rows. */
  function KeySet<K>(rows: seq<Record>, key: Record -> K): set<K>
  {
    if |rows| == 0 then {} else {key(rows[0])} + KeySet(rows[1..], key)
  }

  /** The rows carrying key `k`, in their original order. */
  function Group<K(==)>(rows: seq<Record>, key: Record -> K, k: K): seq<Record>
  {
    if |rows| == 0 then []
    else (if key(rows[0]) == k then [rows[0]] else []) + Group(rows[1..], key, k)
  }

  /** The sum of `val` over the rows carrying key `k`. */
  function SumWhere<K(==)>(rows: seq<Record>, key: Record -> K, k: K, val: Record -> real): real
  {
    if |rows| == 0 then 0.0
    else (if key(rows[0]) == k then val(rows[0]) else 0.0) + SumWhere(rows[1..], key, k, val)
  }

  /** The number of rows carrying key `k`. */
  function CountWhere<K(==)>(rows: seq<Record>, key: Record -> K, k: K): nat
  {
    if |rows| == 0 then 0
    else (if key(rows[0]) == k then 1 else 0) + CountWhere(rows[1..], key, k)
  }

  /** `m` is the result of grouping `rows` by `key` and summing `val`. */
  ghost predicate IsGroupSum<K>(rows: seq<Record>, key: Record -> K, val: Record -> real, m: map<K, real>)
  {
    && m.Keys == KeySet(rows, key)
    && forall k :: k in m ==> m[k] == SumWhere(rows, key, k, val)
  }

  /** `m` is the result of grouping `rows` by `key` and averaging `val`:
      every group is non-empty and its mean is its sum over its size. */
  ghost predicate IsGroupMean<K>(rows: seq<Record>, key: Record -> K, val: Record -> real, m: map<K, real>)
  {
    && m.Keys == KeySet(rows, key)
    && forall k :: k in m ==>
         && CountWhere(rows, key, k) >= 1
         && m[k] == SumWhere(rows, key, k, val) / (CountWhere(rows, key, k) as real)
  }

  /** The group keys are exactly the key values that occur in some row. */
  lemma {:induction false} KeySetIsKeysPresent<K>(rows: seq<Record>, key: Record -> K, k: K)
    ensures k in KeySet(rows, key) <==> exists i :: 0 <= i < |rows| && key(rows[i]) == k
  {
    if |rows| > 0 {
      KeySetIsKeysPresent(rows[1..], key, k);
      if exists i :: 0 <= i < |rows| && key(rows[i]) == k {
        var i :| 0 <= i < |rows| && key(rows[i]) == k;
        if i > 0 {
          assert key(rows[1..][i - 1]) == k;
        }
      }
      if exists i :: 0 <= i < |rows| - 1 && key(rows[1..][i]) == k {
        var i :| 0 <= i < |rows| - 1 && key(rows[1..][i]) == k;
        assert key(rows[i + 1]) == k;
      }
    }
  }

  /** The same, phrased over row membership. */
  lemma KeySetMembers<K>(rows: seq<Record>, key: Record -> K, k: K)
    ensures k in KeySet(rows, key) <==> exists r :: r in rows && key(r) == k
  {
    KeySetIsKeysPresent(rows, key, k);
    if exists r :: r in rows && key(r) == k {
      var r :| r in rows && key(r) == k;
      var i :| 0 <= i < |rows| && rows[i] == r;
    }
  }

  /** A group holds exactly the rows carrying its key. */
  lemma {:induction false} GroupIsRowsWithKey<K>(rows: seq<Record>, key: Record -> K, k: K, r: Record)
    ensures r in Group(rows, key, k) <==> r in rows && key(r) == k
  {
    if |rows| > 0 {
      GroupIsRowsWithKey(rows[1..], key, k, r);
      assert rows == [rows[0]] + rows[1..];
    }
  }

  /** A key absent from the rows has no rows to add up. */
  lemma {:induction false} AbsentKeyIsEmpty<K>(rows: seq<Record>, key: Record -> K, k: K, val: Record -> real)
    ensures k !in KeySet(rows, key) ==> SumWhere(rows, key, k, val) == 0.0 && CountWhere(rows, key, k) == 0
  {
    if |rows| > 0 {
      AbsentKeyIsEmpty(rows[1..], key, k, val);
    }
  }

  /** A key present among the rows has at least one row. */
  lemma {:induction false} PresentKeyIsNonEmpty<K>(rows: seq<Record>, key: Record -> K, k: K)
    ensures k in KeySet(rows, key) ==> CountWhere(rows, key, k) >= 1
  {
    if |rows| > 0 {
      PresentKeyIsNonEmpty(rows[1..], key, k);
    }
  }

  /** The per-key sum and count are the total and the size of the key's group. */
  lemma {:induction false} SumWhereIsGroupTotal<K>(rows: seq<Record>, key: Record -> K, k: K, val: Record -> real)
    ensures SumWhere(rows, key, k, val) == Total(Group(rows, key, k), val)
    ensures CountWhere(rows, key, k) == |Group(rows, key, k)|
  {
    if |rows| > 0 {
      SumWhereIsGroupTotal(rows[1..], key, k, val);
      var g := Group(rows, key, k);
      var g' := Group(rows[1..], key, k);
      if key(rows[0]) == k {
        assert g == [rows[0]] + g';
        assert g[0] == rows[0] && g[1..] == g';
      } else {
        assert g == [] + g' == g';
      }
    }
  }

  /** Adds `v` to the entry for `k`, creating the entry when it is absent. */
  function AddTo<K>(m: map<K, real>, k: K, v: real): map<K, real>
  {
    m[k := v + (if k in m then m[k] else 0.0)]
  }

  /** `groupby(key)[val].sum()`. */
  function GroupSum<K(==)>(rows: seq<Record>, key: Record -> K, val: Record -> real): (m: map<K, real>)
    ensures IsGroupSum(rows, key, val, m)
  {
    if |rows| == 0 then map[]
    else
      var rest := GroupSum(rows[1..], key, val);
      var k := key(rows[0]);
      AbsentKeyIsEmpty(rows[1..], key, k, val);
      AddTo(rest, k, val(rows[0]))
  }

  /** The row count per key that `.mean()` divides by; each is at least one. */
  function GroupCount<K(==)>(rows: seq<Record>, key: Record -> K): (m: map<K, nat>)
    ensures m.Keys == KeySet(rows, key)
    ensures forall k :: k in m ==> m[k] == CountWhere(rows, key, k) && m[k] >= 1
  {
    if |rows| == 0 then map[]
    else
      var rest := GroupCount(rows[1..], key);
      var k := key(rows[0]);
      AbsentKeyIsEmpty(rows[1..], key, k, (r: Record) => 0.0);
      rest[k := (if k in rest then rest[k] else 0) + 1]
  }

  /** `groupby(key)[val].mean()`: per key, the group's sum over its row count. */
  function GroupMean<K(==)>(rows: seq<Record>, key: Record -> K, val: Record -> real): (m: map<K, real>)
    ensures IsGroupMean(rows, key, val, m)
  {
    var sums := GroupSum(rows, key, val);
    var counts := GroupCount(rows, key);
    map k | k in sums :: sums[k] / (counts[k] as real)
  }

  /** An empty subset groups to an empty result: no division happens. */
  lemma EmptyGroupsAreEmpty<K>(key: Record -> K, val: Record -> real)
    ensures GroupSum([], key, val) == map[]
    ensures GroupMean([], key, val) == map[]
  {
  }

  /** The sum of the values `m` holds for the keys `ks`. */
  ghost function SetSum<K>(m: map<K, real>, ks: set<K>): real
    requires ks <= m.Keys
    decreases ks
  {
    if ks == {} then 0.0
    else
      var k :| k in ks;
      m[k] + SetSum(m, ks - {k})
  }

  /** `SetSum` does not depend on which key it takes first. */
  lemma {:induction false} SetSumRemove<K>(m: map<K, real>, ks: set<K>, x: K)
    requires ks <= m.Keys && x in ks
    ensures SetSum(m, ks) == m[x] + SetSum(m, ks - {x})
    decreases ks
  {
    var k :| k in ks && SetSum(m, ks) == m[k] + SetSum(m, ks - {k});
    if k != x {
      SetSumRemove(m, ks - {k}, x);
      SetSumRemove(m, ks - {x}, k);
      assert ks - {k} - {x} == ks - {x} - {k};
    }
  }

  /** `SetSum` reads only the keys it sums. */
  lemma {:induction false} SetSumFrame<K>(m: map<K, real>, m': map<K, real>, ks: set<K>)
    requires ks <= m.Keys && ks <= m'.Keys
    requires forall k :: k in ks ==> m[k] == m'[k]
    ensures SetSum(m, ks) == SetSum(m', ks)
    decreases ks
  {
    if ks != {} {
      var k :| k in ks;
      SetSumRemove(m, ks, k);
      SetSumRemove(m', ks, k);
      SetSumFrame(m, m', ks - {k});
    }
  }

  /** Adding `v` to one entry adds `v` to the sum over all keys. */
  lemma SetSumAdd<K>(rest: map<K, real>, k: K, v: real)
    ensures var m := AddTo(rest, k, v);
            SetSum(m, m.Keys) == v + SetSum(rest, rest.Keys)
  {
    var m := AddTo(rest, k, v);
    var ks := rest.Keys;
    if k in ks {
      assert m.Keys == ks;
      SetSumRemove(m, ks, k);
      SetSumRemove(rest, ks, k);
      SetSumFrame(m, rest, ks - {k});
    } else {
      assert m.Keys - {k} == ks;
      SetSumRemove(m, m.Keys, k);
      SetSumFrame(m, rest, ks);
    }
  }

  /** The group sums add up to the total over all rows: every row lands in
      exactly one group (the share semantics of a pie chart). */
  lemma {:induction false} GroupSumsAddUpToTotal<K>(rows: seq<Record>, key: Record -> K, val: Record -> real)
    ensures SetSum(GroupSum(rows, key, val), KeySet(rows, key)) == Total(rows, val)
  {
    if |rows| > 0 {
      var rest := GroupSum(rows[1..], key, val);
      assert GroupSum(rows, key, val) == AddTo(rest, key(rows[0]), val(rows[0]));
      GroupSumsAddUpToTotal(rows[1..], key, val);
      SetSumAdd(rest, key(rows[0]), val(rows[0]));
    }
  }

  /** Taking row `i` out of the sum. */
  lemma {:induction false} TotalRemoveAt(rows: seq<Record>, val: Record -> real, i: nat)
    requires i < |rows|
    ensures Total(rows, val) == val(rows[i]) + Total(rows[..i] + rows[i + 1..], val)
  {
    if i == 0 {
      assert rows[..0] + rows[1..] == rows[1..];
    } else {
      var tail := rows[1..];
      TotalRemoveAt(tail, val, i - 1);
      var rest := rows[..i] + rows[i + 1..];
      assert rest[0] == rows[0];
      assert rest[1..] == tail[..i - 1] + tail[i..];
    }
  }

  lemma MultisetRemoveAt(rows: seq<Record>, i: nat)
    requires i < |rows|
    ensures multiset(rows[..i] + rows[i + 1..]) == multiset(rows) - multiset{rows[i]}
  {
    assert rows == rows[..i] + [rows[i]] + rows[i + 1..];
  }

  lemma IndexOf(rows: seq<Record>, x: Record) returns (i: nat)
    requires x in multiset(rows)
    ensures i < |rows| && rows[i] == x
  {
    assert x in rows;
    i :| 0 <= i < |rows| && rows[i] == x;
  }

  /** A sum does not depend on the order of the rows. */
  lemma {:induction false} TotalPermutation(a: seq<Record>, b: seq<Record>, val: Record -> real)
    requires multiset(a) == multiset(b)
    ensures Total(a, val) == Total(b, val)
    decreases |a|
  {
    if |a| == 0 {
      assert |b| == |multiset(b)| == 0;
    } else {
      var x := a[0];
      assert x in multiset(b) by {
        assert x in multiset(a);
      }
      var i := IndexOf(b, x);
      var a', b' := a[1..], b[..i] + b[i + 1..];
      assert multiset(a') == multiset(a) - multiset{x} by {
        assert a == [x] + a';
      }
      assert multiset(b') == multiset(b) - multiset{x} by {
        MultisetRemoveAt(b, i);
      }
      TotalPermutation(a', b', val);
      TotalRemoveAt(b, val, i);
      assert Total(a, val) == val(x) + Total(a', val);
      assert Total(b, val) == val(x) + Total(b', val);
    }
  }

  /** A group holds every row with its key as often as the rows do, and nothing else. */
  lemma {:induction false} GroupMultiset<K>(rows: seq<Record>, key: Record -> K, k: K, r: Record)
    ensures multiset(Group(rows, key, k))[r] == if key(r) == k then multiset(rows)[r] else 0
  {
    if |rows| > 0 {
      GroupMultiset(rows[1..], key, k, r);
      assert rows == [rows[0]] + rows[1..];
    }
  }

  /** Two row sequences holding the same rows have the same keys. */
  lemma KeySetPermutation<K>(a: seq<Record>, b: seq<Record>, key: Record -> K)
    requires multiset(a) == multiset(b)
    ensures KeySet(a, key) == KeySet(b, key)
  {
    forall k | k in KeySet(a, key)
      ensures k in KeySet(b, key)
    {
      KeySetIsKeysPresent(a, key, k);
      KeySetIsKeysPresent(b, key, k);
      var i :| 0 <= i < |a| && key(a[i]) == k;
      assert a[i] in multiset(b);
      var j :| 0 <= j < |b| && b[j] == a[i];
      assert key(b[j]) == k;
    }
    forall k | k in KeySet(b, key)
      ensures k in KeySet(a, key)
    {
      KeySetIsKeysPresent(a, key, k);
      KeySetIsKeysPresent(b, key, k);
      var i :| 0 <= i < |b| && key(b[i]) == k;
      assert b[i] in multiset(a);
      var j :| 0 <= j < |a| && a[j] == b[i];
      assert key(a[j]) == k;
    }
  }

  /** Two row sequences holding the same rows have groups holding the same rows. */
  lemma GroupPermutation<K>(a: seq<Record>, b: seq<Record>, key: Record -> K, k: K)
    requires multiset(a) == multiset(b)
    ensures multiset(Group(a, key, k)) == multiset(Group(b, key, k))
  {
    forall r ensures multiset(Group(a, key, k))[r] == multiset(Group(b, key, k))[r] {
      GroupMultiset(a, key, k, r);
      GroupMultiset(b, key, k, r);
    }
  }

  /** Group sums and means do not depend on the order of the rows, only on
      which rows there are and how often. */
  lemma GroupByOrderIndependent<K>(a: seq<Record>, b: seq<Record>, key: Record -> K, val: Record -> real)
    requires multiset(a) == multiset(b)
    ensures GroupSum(a, key, val) == GroupSum(b, key, val)
    ensures GroupMean(a, key, val) == GroupMean(b, key, val)
  {
    KeySetPermutation(a, b, key);
    forall k | k in KeySet(a, key)
      ensures SumWhere(a, key, k, val) == SumWhere(b, key, k, val)
      ensures CountWhere(a, key, k) == CountWhere(b, key, k)
    {
      SumWhereIsGroupTotal(a, key, k, val);
      SumWhereIsGroupTotal(b, key, k, val);
      GroupPermutation(a, b, key, k);
      TotalPermutation(Group(a, key, k), Group(b, key, k), val);
      assert |multiset(Group(a, key, k))| == |multiset(Group(b, key, k))|;
    }
  }
}
