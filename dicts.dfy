/** Python dictionaries as the tracker uses them: insertion-ordered, and
    assigning to an existing key keeps that key's place. */
module Dicts {
  import opened Wrappers

  /** The entries of a dictionary keyed by category name, in iteration order. */
  type Dict<V> = seq<(string, V)>

  function Keys<V>(d: Dict<V>): (ks: seq<string>)
    ensures |ks| == |d| && forall i :: 0 <= i < |d| ==> ks[i] == d[i].0
    decreases |d|
  {
    if d == [] then [] else [d[0].0] + Keys(d[1..])
  }

  function Values<V>(d: Dict<V>): (vs: seq<V>)
    ensures |vs| == |d| && forall i :: 0 <= i < |d| ==> vs[i] == d[i].1
    decreases |d|
  {
    if d == [] then [] else [d[0].1] + Values(d[1..])
  }

  predicate DistinctKeys<V>(d: Dict<V>)
  {
    forall i, j :: 0 <= i < j < |d| ==> d[i].0 != d[j].0
  }

  /** `d[k]` if `k` is a key, None otherwise. */
  function Get<V>(d: Dict<V>, k: string): Option<V>
    decreases |d|
  {
    if d == [] then None
    else if d[0].0 == k then Some(d[0].1)
    else Get(d[1..], k)
  }

  /** A key has a value exactly when it is one of the keys. */
  lemma {:induction false} GetSome<V>(d: Dict<V>, k: string)
    ensures Get(d, k).Some? <==> k in Keys(d)
    decreases |d|
  {
    if d != [] {
      assert Keys(d) == [d[0].0] + Keys(d[1..]);
      GetSome(d[1..], k);
    }
  }

  /** In a dictionary with distinct keys, each entry is what Get finds for its key. */
  lemma {:induction false} GetEntry<V>(d: Dict<V>, i: nat)
    requires DistinctKeys(d) && i < |d|
    ensures Get(d, d[i].0) == Some(d[i].1)
    decreases |d|
  {
    if i > 0 {
      GetEntry(d[1..], i - 1);
    }
  }

  /** Python's `d.get(k, default)`. */
  function GetOr<V>(d: Dict<V>, k: string, default: V): V
  {
    match Get(d, k)
    case Some(v) => v
    case None => default
  }

  /** Python's `d[k] = v`: an existing key keeps its position and takes the new
      value; a new key goes at the end. */
  function Put<V>(d: Dict<V>, k: string, v: V): (r: Dict<V>)
    ensures Keys(r) == if k in Keys(d) then Keys(d) else Keys(d) + [k]
    decreases |d|
  {
    if d == [] then [(k, v)]
    else if d[0].0 == k then [(k, v)] + d[1..]
    else
      var r := [d[0]] + Put(d[1..], k, v);
      assert Keys(d) == [d[0].0] + Keys(d[1..]);
      assert Keys(r) == [d[0].0] + Keys(r[1..]);
      r
  }

  /** After `d[k] = v`, `d[k]` is `v` and every other key reads as before. */
  lemma {:induction false} PutGet<V>(d: Dict<V>, k: string, v: V, k': string)
    ensures Get(Put(d, k, v), k') == if k' == k then Some(v) else Get(d, k')
    decreases |d|
  {
    if d != [] && d[0].0 != k {
      PutGet(d[1..], k, v, k');
    }
  }

  /** Assignment keeps the keys distinct. */
  lemma {:induction false} PutDistinct<V>(d: Dict<V>, k: string, v: V)
    requires DistinctKeys(d)
    ensures DistinctKeys(Put(d, k, v))
    decreases |d|
  {
    if d != [] && d[0].0 != k {
      PutDistinct(d[1..], k, v);
      var r := Put(d, k, v);
      assert Keys(d) == [d[0].0] + Keys(d[1..]);
      forall i, j | 0 <= i < j < |r| ensures r[i].0 != r[j].0 {
        if i == 0 {
          assert r[j].0 == Keys(r[1..])[j - 1];
        }
      }
    }
  }

  /** Updating past the head of a sequence updates its tail. */
  lemma UpdateCons<T>(x: T, s: seq<T>, i: nat, y: T)
    requires i < |s|
    ensures ([x] + s)[i + 1 := y] == [x] + s[i := y]
  {
    assert ([x] + s)[i + 1 := y][0] == x;
  }

  /** Assigning to an existing key changes only that entry's value. */
  lemma {:induction false} PutExisting<V>(d: Dict<V>, i: nat, v: V)
    requires DistinctKeys(d) && i < |d|
    ensures Put(d, d[i].0, v) == d[i := (d[i].0, v)]
    decreases |d|
  {
    var k := d[i].0;
    if i > 0 {
      var tail := d[1..];
      assert d[0].0 != k;
      assert DistinctKeys(tail) && tail[i - 1].0 == k;
      PutExisting(tail, i - 1, v);
      assert Put(d, k, v) == [d[0]] + Put(tail, k, v);
      UpdateCons(d[0], tail, i - 1, (k, v));
      assert [d[0]] + tail == d;
    } else {
      assert Put(d, k, v) == [(k, v)] + d[1..];
    }
  }

  /** Assigning to a new key appends one entry. */
  lemma {:induction false} PutNew<V>(d: Dict<V>, k: string, v: V)
    requires k !in Keys(d)
    ensures Put(d, k, v) == d + [(k, v)]
    decreases |d|
  {
    if d != [] {
      assert Keys(d) == [d[0].0] + Keys(d[1..]);
      PutNew(d[1..], k, v);
    }
  }

  /** With distinct keys, the last entry's key is new to the entries before it. */
  lemma LastKeyNew<V>(d: Dict<V>)
    requires DistinctKeys(d) && d != []
    ensures d[|d| - 1].0 !in Keys(d[..|d| - 1])
  {
    var n := |d| - 1;
    forall i | 0 <= i < n ensures Keys(d[..n])[i] != d[n].0 {
      assert d[..n][i] == d[i];
    }
  }

  /** Python's `sum(d.values())`. */
  function SumValues(d: Dict<real>): real
    decreases |d|
  {
    if d == [] then 0.0 else d[0].1 + SumValues(d[1..])
  }

  /** Changing one value changes the sum by the difference. */
  lemma {:induction false} SumValuesUpdate(d: Dict<real>, i: nat, v: real)
    requires i < |d|
    ensures SumValues(d[i := (d[i].0, v)]) == SumValues(d) - d[i].1 + v
    decreases |d|
  {
    if i > 0 {
      SumValuesUpdate(d[1..], i - 1, v);
      assert d[i := (d[i].0, v)][1..] == d[1..][i - 1 := (d[i].0, v)];
    }
  }

  lemma {:induction false} SumValuesAppend(d: Dict<real>, k: string, v: real)
    ensures SumValues(d + [(k, v)]) == SumValues(d) + v
    decreases |d|
  {
    if d != [] {
      assert (d + [(k, v)])[1..] == d[1..] + [(k, v)];
      SumValuesAppend(d[1..], k, v);
    }
  }

  lemma PutNewSum(d: Dict<real>, k: string, v: real)
    requires k !in Keys(d)
    ensures SumValues(Put(d, k, v)) == SumValues(d) + v
  {
    PutNew(d, k, v);
    SumValuesAppend(d, k, v);
  }

  lemma PutExistingSum(d: Dict<real>, i: nat, v: real)
    requires DistinctKeys(d) && i < |d|
    ensures SumValues(Put(d, d[i].0, v)) == SumValues(d) - d[i].1 + v
  {
    PutExisting(d, i, v);
    SumValuesUpdate(d, i, v);
  }

  /** `if k not in d: d[k] = 0` followed by `d[k] += x`. */
  function AddTo(d: Dict<real>, k: string, x: real): Dict<real>
    decreases |d|
  {
    if d == [] then [(k, x)]
    else if d[0].0 == k then [(k, d[0].1 + x)] + d[1..]
    else [d[0]] + AddTo(d[1..], k, x)
  }

  /** Adding to a key keeps the keys, or appends the new key. */
  lemma {:induction false} AddToKeys(d: Dict<real>, k: string, x: real)
    ensures Keys(AddTo(d, k, x)) == if k in Keys(d) then Keys(d) else Keys(d) + [k]
    decreases |d|
  {
    if d != [] && d[0].0 != k {
      AddToKeys(d[1..], k, x);
      assert Keys(d) == [d[0].0] + Keys(d[1..]);
      var r := AddTo(d, k, x);
      assert Keys(r) == [d[0].0] + Keys(r[1..]);
    }
  }

  /** After adding `x` to `k`, `k` reads as its old value (0 when missing) plus
      `x`, and every other key reads as before. */
  lemma {:induction false} AddToGet(d: Dict<real>, k: string, x: real, c: string)
    ensures Get(AddTo(d, k, x), c) == if c == k then Some(GetOr(d, k, 0.0) + x) else Get(d, c)
    decreases |d|
  {
    if d == [] {
      assert Get([(k, x)], c) == if c == k then Some(x) else Get([(k, x)][1..], c);
      assert Get(AddTo(d, k, x), c) == if c == k then Some(GetOr(d, k, 0.0) + x) else Get(d, c);
    } else if d[0].0 == k {
      var r := [(k, d[0].1 + x)] + d[1..];
      assert AddTo(d, k, x) == r && r[1..] == d[1..];
      assert GetOr(d, k, 0.0) == d[0].1;
      assert Get(AddTo(d, k, x), c) == if c == k then Some(GetOr(d, k, 0.0) + x) else Get(d, c);
    } else {
      var t := AddTo(d[1..], k, x);
      var r := [d[0]] + t;
      assert AddTo(d, k, x) == r && r[0] == d[0] && r[1..] == t;
      assert GetOr(d, k, 0.0) == GetOr(d[1..], k, 0.0);
      if c != d[0].0 {
        assert Get(r, c) == Get(t, c) && Get(d, c) == Get(d[1..], c);
        AddToGet(d[1..], k, x, c);
      }
      assert Get(AddTo(d, k, x), c) == if c == k then Some(GetOr(d, k, 0.0) + x) else Get(d, c);
    }
  }

  /** Adding `x` to one entry adds `x` to the sum of the values. */
  lemma {:induction false} AddToSum(d: Dict<real>, k: string, x: real)
    ensures SumValues(AddTo(d, k, x)) == SumValues(d) + x
    decreases |d|
  {
    if d != [] && d[0].0 != k {
      AddToSum(d[1..], k, x);
    }
  }

  lemma AddToDistinct(d: Dict<real>, k: string, x: real)
    requires DistinctKeys(d)
    ensures DistinctKeys(AddTo(d, k, x))
  {
    var r := AddTo(d, k, x);
    AddToKeys(d, k, x);
    forall i, j | 0 <= i < j < |r| ensures r[i].0 != r[j].0 {
      assert Keys(r)[i] == r[i].0 && Keys(r)[j] == r[j].0;
      if j < |d| {
        assert Keys(d)[i] == d[i].0 && Keys(d)[j] == d[j].0;
      }
    }
  }

  /** `if k not in d: d[k] = []` followed by `d[k].append(x)`. */
  function AppendTo<T>(d: Dict<seq<T>>, k: string, x: T): Dict<seq<T>>
    decreases |d|
  {
    if d == [] then [(k, [x])]
    else if d[0].0 == k then [(k, d[0].1 + [x])] + d[1..]
    else [d[0]] + AppendTo(d[1..], k, x)
  }

  lemma {:induction false} AppendToKeys<T>(d: Dict<seq<T>>, k: string, x: T)
    ensures Keys(AppendTo(d, k, x)) == if k in Keys(d) then Keys(d) else Keys(d) + [k]
    decreases |d|
  {
    if d != [] && d[0].0 != k {
      AppendToKeys(d[1..], k, x);
      assert Keys(d) == [d[0].0] + Keys(d[1..]);
      var r := AppendTo(d, k, x);
      assert Keys(r) == [d[0].0] + Keys(r[1..]);
    }
  }

  lemma {:induction false} AppendToGet<T>(d: Dict<seq<T>>, k: string, x: T, c: string)
    ensures Get(AppendTo(d, k, x), c) == if c == k then Some(GetOr(d, k, []) + [x]) else Get(d, c)
    decreases |d|
  {
    if d == [] {
      assert GetOr(d, k, []) + [x] == [x];
    } else if d[0].0 != k {
      AppendToGet(d[1..], k, x, c);
    } else {
      assert GetOr(d, k, []) == d[0].1;
    }
  }
}
