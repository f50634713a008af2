/**
 * A Python dict from names to floats, as the reward breakdown and the
 * per-episode component sums use it: insertion-ordered (key, value)
 * pairs with distinct keys.
 */
module OrderedDict {

  type Dict = seq<(string, real)>

  predicate DistinctKeys(d: Dict) {
    forall i, j :: 0 <= i < j < |d| ==> d[i].0 != d[j].0
  }

  predicate HasKey(d: Dict, k: string) {
    exists i :: 0 <= i < |d| && d[i].0 == k
  }

  /** The position of key k, or |d| when k is absent. */
  function IndexOfKey(d: Dict, k: string): (i: nat)
    ensures i <= |d|
    ensures i < |d| ==> d[i].0 == k
    ensures forall j :: 0 <= j < i ==> d[j].0 != k
  {
    if |d| == 0 then 0 else if d[0].0 == k then 0 else 1 + IndexOfKey(d[1..], k)
  }

  /** d.get(k, default). */
  function Get(d: Dict, k: string, default: real): real {
    var i := IndexOfKey(d, k);
    if i < |d| then d[i].1 else default
  }

  /** `if k not in d: d[k] = 0.0` followed by `d[k] += v`. */
  function AddTo(d: Dict, k: string, v: real): Dict {
    var i := IndexOfKey(d, k);
    if i < |d| then d[i := (k, d[i].1 + v)] else d + [(k, 0.0 + v)]
  }

  /** sum(d.values()), added left to right from 0. */
  function SumValues(d: Dict): real {
    if |d| == 0 then 0.0 else SumValues(d[..|d| - 1]) + d[|d| - 1].1
  }

  lemma {:induction false} SumValuesUpdate(d: Dict, i: nat, k: string, x: real)
    requires i < |d|
    ensures SumValues(d[i := (k, x)]) == SumValues(d) - d[i].1 + x
    decreases |d|
  {
    var d' := d[i := (k, x)];
    var n := |d|;
    if i < n - 1 {
      assert d'[..n - 1] == d[..n - 1][i := (k, x)];
      SumValuesUpdate(d[..n - 1], i, k, x);
    } else {
      assert d'[..n - 1] == d[..n - 1];
    }
  }

  /** Adding v under k keeps the keys distinct, adds v to k's value, and leaves other keys alone. */
  lemma AddToSpec(d: Dict, k: string, v: real, other: string)
    requires DistinctKeys(d)
    ensures DistinctKeys(AddTo(d, k, v))
    ensures Get(AddTo(d, k, v), k, 0.0) == Get(d, k, 0.0) + v
    ensures other != k ==> Get(AddTo(d, k, v), other, 0.0) == Get(d, other, 0.0)
    ensures SumValues(AddTo(d, k, v)) == SumValues(d) + v
  {
    AddToDistinct(d, k, v);
    AddToGetSame(d, k, v);
    if other != k {
      AddToGetOther(d, k, v, other);
    }
    AddToSum(d, k, v);
  }

  lemma AddToDistinct(d: Dict, k: string, v: real)
    requires DistinctKeys(d)
    ensures DistinctKeys(AddTo(d, k, v))
  {
    var d' := AddTo(d, k, v);
    if IndexOfKey(d, k) < |d| {
      assert forall j :: 0 <= j < |d| ==> d'[j].0 == d[j].0;
    }
  }

  lemma AddToGetSame(d: Dict, k: string, v: real)
    ensures Get(AddTo(d, k, v), k, 0.0) == Get(d, k, 0.0) + v
  {
    var i := IndexOfKey(d, k);
    var d' := AddTo(d, k, v);
    IndexOfKeyAt(d', i, k);
  }

  lemma AddToGetOther(d: Dict, k: string, v: real, other: string)
    requires other != k
    ensures Get(AddTo(d, k, v), other, 0.0) == Get(d, other, 0.0)
  {
    var d' := AddTo(d, k, v);
    var j := IndexOfKey(d, other);
    if j < |d| {
      IndexOfKeyAt(d', j, other);
    } else {
      IndexOfKeyAbsent(d', other);
    }
  }

  lemma AddToSum(d: Dict, k: string, v: real)
    ensures SumValues(AddTo(d, k, v)) == SumValues(d) + v
  {
    var i := IndexOfKey(d, k);
    var d' := AddTo(d, k, v);
    if i < |d| {
      SumValuesUpdate(d, i, k, d[i].1 + v);
    } else {
      assert d'[..|d'| - 1] == d;
    }
  }

  lemma {:induction false} IndexOfKeyAt(d: Dict, i: nat, k: string)
    requires i < |d| && d[i].0 == k
    requires forall j :: 0 <= j < i ==> d[j].0 != k
    ensures IndexOfKey(d, k) == i
  {
    if i > 0 {
      IndexOfKeyAt(d[1..], i - 1, k);
    }
  }

  lemma {:induction false} IndexOfKeyAbsent(d: Dict, k: string)
    requires forall j :: 0 <= j < |d| ==> d[j].0 != k
    ensures IndexOfKey(d, k) == |d|
  {
    if |d| > 0 {
      IndexOfKeyAbsent(d[1..], k);
    }
  }
}
