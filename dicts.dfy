/** JavaScript objects used as dictionaries with string keys. Such an object
    keeps its keys in insertion order, and assigning to a key that is already
    present replaces its value in place; both are needed because the modelled
    code iterates over objects (`Object.entries`, `forEach`) and spreads them
    (`{ ...a, k: v, ...b }`). A dictionary is its list of entries in order. */
module Dicts {
  import opened Common

  type Dict<V> = seq<(string, V)>

  function Keys<V>(d: Dict<V>): (ks: seq<string>)
    ensures |ks| == |d|
    decreases |d|
  {
    if d == [] then [] else [d[0].0] + Keys(d[1..])
  }

  predicate DistinctKeys<V>(d: Dict<V>) {
    forall i, j :: 0 <= i < j < |d| ==> d[i].0 != d[j].0
  }

  lemma {:induction false} KeysAt<V>(d: Dict<V>, i: nat)
    requires i < |d|
    ensures Keys(d)[i] == d[i].0
    decreases |d|
  {
    if i > 0 {
      KeysAt(d[1..], i - 1);
    }
  }

  /** `d[k]`, `None` when `k` is not a key. */
  function Get<V>(d: Dict<V>, k: string): (r: Option<V>)
    ensures r.Some? <==> k in Keys(d)
    ensures r.Some? ==> (k, r.value) in d
    decreases |d|
  {
    if d == [] then None
    else if d[0].0 == k then Some(d[0].1)
    else Get(d[1..], k)
  }

  /** A key found in a dictionary is the key of one of its entries. */
  lemma EntryOfGet<V>(d: Dict<V>, k: string)
    requires Get(d, k).Some?
    ensures exists j :: 0 <= j < |d| && d[j] == (k, Get(d, k).value)
  {
    assert (k, Get(d, k).value) in d;
  }

  /** In a dictionary with distinct keys, the key of an entry finds that entry. */
  lemma {:induction false} GetOfDistinct<V>(d: Dict<V>, k: nat)
    requires DistinctKeys(d) && k < |d|
    ensures Get(d, d[k].0) == Some(d[k].1)
    decreases |d|
  {
    if k > 0 {
      DistinctKeysOf(d);
      GetOfDistinct(d[1..], k - 1);
    }
  }

  /** `d[k] = v`: replaces the value of an existing key where it stands,
      otherwise appends a new entry. */
  function Put<V>(d: Dict<V>, k: string, v: V): (r: Dict<V>)
    ensures Get(r, k) == Some(v)
    ensures forall k' :: k' != k ==> Get(r, k') == Get(d, k')
    ensures Keys(r) == if k in Keys(d) then Keys(d) else Keys(d) + [k]
    decreases |d|
  {
    if d == [] then [(k, v)]
    else if d[0].0 == k then
      var r := [(k, v)] + d[1..];
      assert r[1..] == d[1..];
      r
    else
      var t := Put(d[1..], k, v);
      var r := [d[0]] + t;
      assert r[0] == d[0] && r[1..] == t;
      assert Keys(r) == [d[0].0] + Keys(t) && Keys(d) == [d[0].0] + Keys(d[1..]);
      assert k in Keys(d) <==> k in Keys(d[1..]);
      r
  }

  lemma {:induction false} DistinctKeysOf<V>(d: Dict<V>)
    ensures DistinctKeys(d) <==> (d == [] || (d[0].0 !in Keys(d[1..]) && DistinctKeys(d[1..])))
  {
    if d != [] {
      if DistinctKeys(d) {
        forall i | 0 <= i < |d[1..]| ensures Keys(d[1..])[i] != d[0].0 {
          KeysAt(d[1..], i);
        }
      }
      if d[0].0 !in Keys(d[1..]) && DistinctKeys(d[1..]) {
        forall i, j | 0 <= i < j < |d| ensures d[i].0 != d[j].0 {
          if i == 0 {
            KeysAt(d[1..], j - 1);
          } else {
            assert d[i] == d[1..][i - 1] && d[j] == d[1..][j - 1];
          }
        }
      }
    }
  }

  lemma {:induction false} PutKeepsDistinct<V>(d: Dict<V>, k: string, v: V)
    requires DistinctKeys(d)
    ensures DistinctKeys(Put(d, k, v))
    decreases |d|
  {
    var r := Put(d, k, v);
    DistinctKeysOf(d);
    DistinctKeysOf(r);
    if d != [] {
      if d[0].0 == k {
        assert r[1..] == d[1..];
      } else {
        PutKeepsDistinct(d[1..], k, v);
        assert r[1..] == Put(d[1..], k, v);
      }
    }
  }

  /** Putting a new key into a dictionary of one or two entries appends it. */
  lemma PutNewAfterOne<V>(x: (string, V), k: string, v: V)
    requires x.0 != k
    ensures Put([x], k, v) == [x, (k, v)]
  {
    assert [x][1..] == [];
  }

  lemma PutNewAfterTwo<V>(x: (string, V), y: (string, V), k: string, v: V)
    requires x.0 != k && y.0 != k
    ensures Put([x, y], k, v) == [x, y, (k, v)]
  {
    assert [x, y][1..] == [y];
    PutNewAfterOne(y, k, v);
  }

  /** `{ ...d, ...e }`: the entries of `e` put into `d` one after another. */
  function PutAll<V>(d: Dict<V>, e: Dict<V>): (r: Dict<V>)
    decreases |e|
  {
    if e == [] then d else PutAll(Put(d, e[0].0, e[0].1), e[1..])
  }

  lemma {:induction false} PutAllKeepsDistinct<V>(d: Dict<V>, e: Dict<V>)
    requires DistinctKeys(d)
    ensures DistinctKeys(PutAll(d, e))
    decreases |e|
  {
    if e != [] {
      PutKeepsDistinct(d, e[0].0, e[0].1);
      PutAllKeepsDistinct(Put(d, e[0].0, e[0].1), e[1..]);
    }
  }

  /** A key of `e` takes its value from `e`; any other key keeps its value in `d`. */
  lemma {:induction false} PutAllGet<V>(d: Dict<V>, e: Dict<V>, k: string)
    requires DistinctKeys(e)
    ensures Get(PutAll(d, e), k) == if Get(e, k).Some? then Get(e, k) else Get(d, k)
    decreases |e|
  {
    if e != [] {
      DistinctKeysOf(e);
      PutAllGet(Put(d, e[0].0, e[0].1), e[1..], k);
    }
  }

  /** Every entry of `Put(d, k, v)` is the new one or an entry of `d`. */
  lemma {:induction false} PutEntries<V>(d: Dict<V>, k: string, v: V)
    ensures forall i :: 0 <= i < |Put(d, k, v)| ==> Put(d, k, v)[i] == (k, v) || Put(d, k, v)[i] in d
    decreases |d|
  {
    if d != [] && d[0].0 != k {
      PutEntries(d[1..], k, v);
      var r := Put(d, k, v);
      assert r == [d[0]] + Put(d[1..], k, v);
      forall i | 1 <= i < |r| ensures r[i] == (k, v) || r[i] in d {
        assert r[i] == Put(d[1..], k, v)[i - 1];
      }
    }
  }
}
