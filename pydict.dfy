/** Python dictionaries as the backend uses them: a dictionary is its list of
    items in insertion order, which is the order Python iterates, serialises and
    inverts it in. A key is never held twice. */
module PyDict {
  import opened Wrappers

  type Dict<K(==), V> = seq<(K, V)>

  predicate UniqueKeys<K(==), V>(d: Dict<K, V>) {
    forall i, j | 0 <= i < j < |d| :: d[i].0 != d[j].0
  }

  /** No two items share a value: the dictionary can be inverted without loss. */
  predicate UniqueValues<K(==), V(==)>(d: Dict<K, V>) {
    forall i, j | 0 <= i < j < |d| :: d[i].1 != d[j].1
  }

  function Keys<K(==), V>(d: Dict<K, V>): (ks: seq<K>)
    ensures |ks| == |d| && forall i | 0 <= i < |d| :: ks[i] == d[i].0
  {
    seq(|d|, i requires 0 <= i < |d| => d[i].0)
  }

  predicate HasKey<K(==), V>(d: Dict<K, V>, k: K) {
    exists i | 0 <= i < |d| :: d[i].0 == k
  }

  /** `k in d` is membership in the key list. */
  lemma KeysHasKey<K, V>(d: Dict<K, V>, k: K)
    ensures HasKey(d, k) <==> k in Keys(d)
  {
    if k in Keys(d) {
      var i :| 0 <= i < |d| && Keys(d)[i] == k;
      assert d[i].0 == k;
    }
  }

  /** `d.get(k)`: the value stored under `k`, if any. */
  function Get<K(==), V>(d: Dict<K, V>, k: K): (r: Option<V>)
    ensures r.Some? <==> HasKey(d, k)
    ensures r.Some? ==> exists i | 0 <= i < |d| :: d[i] == (k, r.value)
  {
    if d == [] then None
    else if d[0].0 == k then Some(d[0].1)
    else Get(d[1..], k)
  }

  /** `d.get(k, default)` */
  function GetOr<K(==), V>(d: Dict<K, V>, k: K, default: V): (r: V)
    ensures HasKey(d, k) ==> Some(r) == Get(d, k)
    ensures !HasKey(d, k) ==> r == default
  {
    match Get(d, k)
    case Some(v) => v
    case None => default
  }

  /** In a dictionary the item at position `i` is what its key reads. */
  lemma {:induction false} GetAt<K, V>(d: Dict<K, V>, i: nat)
    requires UniqueKeys(d) && i < |d|
    ensures Get(d, d[i].0) == Some(d[i].1)
  {
    if i > 0 {
      assert d[1..][i - 1] == d[i];
      GetAt(d[1..], i - 1);
    }
  }

  /** `d[k] = v`: an existing key keeps its position and takes the new value; a new
      key is appended. */
  function Set<K(==), V>(d: Dict<K, V>, k: K, v: V): (r: Dict<K, V>)
    ensures |r| == if HasKey(d, k) then |d| else |d| + 1
    ensures Keys(r) == if HasKey(d, k) then Keys(d) else Keys(d) + [k]
  {
    if d == [] then [(k, v)]
    else if d[0].0 == k then
      assert [d[0]] + d[1..] == d;
      KeysCons((k, v), d[1..]);
      KeysCons(d[0], d[1..]);
      HasKeyCons(d[0], d[1..], k);
      [(k, v)] + d[1..]
    else
      assert [d[0]] + d[1..] == d;
      var r := [d[0]] + Set(d[1..], k, v);
      KeysCons(d[0], Set(d[1..], k, v));
      KeysCons(d[0], d[1..]);
      HasKeyCons(d[0], d[1..], k);
      r
  }

  /** The keys of a dictionary with one more item in front. */
  lemma KeysCons<K, V>(x: (K, V), d: Dict<K, V>)
    ensures Keys([x] + d) == [x.0] + Keys(d)
  {
    var e := [x] + d;
    assert |Keys(e)| == |[x.0] + Keys(d)|;
    forall i | 0 <= i < |e|
      ensures Keys(e)[i] == ([x.0] + Keys(d))[i]
    {
      if i > 0 {
        assert e[i] == d[i - 1];
      }
    }
  }

  /** A dictionary with one more item in front holds that item's key and
      the keys it held. */
  lemma HasKeyCons<K, V>(x: (K, V), d: Dict<K, V>, k: K)
    ensures HasKey([x] + d, k) <==> x.0 == k || HasKey(d, k)
  {
    var e := [x] + d;
    if HasKey(e, k) && x.0 != k {
      var i :| 0 <= i < |e| && e[i].0 == k;
      assert e[i] == d[i - 1];
    }
    if HasKey(d, k) {
      var i :| 0 <= i < |d| && d[i].0 == k;
      assert e[i + 1] == d[i];
    }
    if x.0 == k {
      assert e[0] == x;
    }
  }

  /** After `d[k] = v`, `d.get(k)` is `v` and every other key reads as before. */
  lemma {:induction false} GetSet<K, V>(d: Dict<K, V>, k: K, v: V, k': K)
    ensures Get(Set(d, k, v), k') == if k' == k then Some(v) else Get(d, k')
  {
    if d != [] && d[0].0 != k {
      GetSet(d[1..], k, v, k');
    }
  }

  lemma {:induction false} SetUnique<K, V>(d: Dict<K, V>, k: K, v: V)
    requires UniqueKeys(d)
    ensures UniqueKeys(Set(d, k, v))
  {
    var r := Set(d, k, v);
    assert Keys(r) == if HasKey(d, k) then Keys(d) else Keys(d) + [k];
    forall i, j | 0 <= i < j < |r|
      ensures r[i].0 != r[j].0
    {
      assert Keys(r)[i] == r[i].0 && Keys(r)[j] == r[j].0;
      if j == |d| {
        assert !HasKey(d, k);
        assert d[i].0 == Keys(d)[i];
      } else {
        assert Keys(d)[i] == d[i].0 && Keys(d)[j] == d[j].0;
      }
    }
  }

  /** `{k: v for k, v in d.items() if k != key}` */
  function Without<K(==, !new), V>(d: Dict<K, V>, key: K): (r: Dict<K, V>)
    ensures !HasKey(r, key)
    ensures forall k | k != key :: Get(r, k) == Get(d, k)
    ensures |r| <= |d|
  {
    if d == [] then []
    else if d[0].0 == key then Without(d[1..], key)
    else [d[0]] + Without(d[1..], key)
  }

  /** The dictionary built from `items` one after the other, as a literal
      `{k1: v1, k2: v2, ...}` or a comprehension builds it: a repeated key keeps
      its first position and takes its last value. */
  function FromItems<K(==), V>(items: seq<(K, V)>): (d: Dict<K, V>)
    ensures UniqueKeys(d)
  {
    if items == [] then []
    else
      var last := items[|items| - 1];
      SetUnique(FromItems(items[..|items| - 1]), last.0, last.1);
      Set(FromItems(items[..|items| - 1]), last.0, last.1)
  }
  /** `dict(items)` is the dictionary of all but the last item, then `d[k] = v`
      for the last one. */
  lemma FromItemsSnoc<K, V>(items: seq<(K, V)>)
    requires items != []
    ensures var n := |items| - 1;
      FromItems(items) == Set(FromItems(items[..n]), items[n].0, items[n].1)
  {
  }


  /** A key with no item is absent. */
  lemma {:induction false} GetFromItemsAbsent<K, V>(items: seq<(K, V)>, k: K)
    requires forall i | 0 <= i < |items| :: items[i].0 != k
    ensures Get(FromItems(items), k) == None
  {
    if items != [] {
      var n := |items| - 1;
      var init := items[..n];
      assert FromItems(items) == Set(FromItems(init), items[n].0, items[n].1);
      GetFromItemsAbsent(init, k);
      GetSet(FromItems(init), items[n].0, items[n].1, k);
    }
  }

  /** A key reads as the value of its last item. */
  lemma {:induction false} GetFromItemsLast<K, V>(items: seq<(K, V)>, i: nat)
    requires i < |items| && forall j | i < j < |items| :: items[j].0 != items[i].0
    ensures Get(FromItems(items), items[i].0) == Some(items[i].1)
  {
    var n := |items| - 1;
    var init := items[..n];
    var last := items[n];
    var k := items[i].0;
    if i < n {
      assert last.0 != k;
      assert Get(FromItems(items), k) == Get(FromItems(init), k) by {
        assert FromItems(items) == Set(FromItems(init), last.0, last.1);
        GetSet(FromItems(init), last.0, last.1, k);
      }
      assert init[i] == items[i];
      GetFromItemsLast(init, i);
    } else {
      assert last == items[i];
      assert FromItems(items) == Set(FromItems(init), last.0, last.1);
      GetSet(FromItems(init), last.0, last.1, last.0);
    }
  }

  /** Items with distinct keys are already a dictionary. */
  lemma {:induction false} FromDistinctItems<K, V>(items: seq<(K, V)>)
    requires UniqueKeys(items)
    ensures FromItems(items) == items
  {
    if items != [] {
      var n := |items| - 1;
      var init := items[..n];
      assert !HasKey(init, items[n].0) by {
        assert forall i | 0 <= i < n :: init[i] == items[i];
      }
      assert FromItems(init) == init by {
        assert UniqueKeys(init) by {
          assert forall i | 0 <= i < n :: init[i] == items[i];
        }
        FromDistinctItems(init);
      }
      assert FromItems(items) == init + [items[n]] by {
        assert FromItems(items) == Set(FromItems(init), items[n].0, items[n].1);
        SetAbsent(init, items[n].0, items[n].1);
      }
      assert init + [items[n]] == items;
    }
  }

  lemma {:induction false} SetAbsent<K, V>(d: Dict<K, V>, k: K, v: V)
    requires !HasKey(d, k)
    ensures Set(d, k, v) == d + [(k, v)]
  {
    if d != [] {
      assert !HasKey(d[1..], k) by {
        assert forall i | 0 <= i < |d| - 1 :: d[1..][i] == d[i + 1];
      }
      SetAbsent(d[1..], k, v);
    }
  }

  /** Reading a dictionary with one more item at the end: the earlier items
      decide, the new item answers only for a key they do not hold. */
  lemma {:induction false} GetSnoc<K, V>(d: Dict<K, V>, k: K, v: V, k': K)
    ensures Get(d + [(k, v)], k') == if HasKey(d, k') then Get(d, k') else if k == k' then Some(v) else None
  {
    if d != [] {
      assert (d + [(k, v)])[1..] == d[1..] + [(k, v)];
      GetSnoc(d[1..], k, v, k');
      if d[0].0 != k' {
        assert HasKey(d, k') <==> HasKey(d[1..], k') by {
          if HasKey(d, k') {
            var i :| 0 <= i < |d| && d[i].0 == k';
            assert d[1..][i - 1] == d[i];
          }
          if HasKey(d[1..], k') {
            var i :| 0 <= i < |d| - 1 && d[1..][i].0 == k';
            assert d[i + 1] == d[1..][i];
          }
        }
      }
    }
  }

  /** The items with key and value swapped, in order. */
  function Swapped<K(==), V(==)>(d: Dict<K, V>): (r: seq<(V, K)>)
    ensures |r| == |d| && forall i | 0 <= i < |d| :: r[i] == (d[i].1, d[i].0)
  {
    seq(|d|, i requires 0 <= i < |d| => (d[i].1, d[i].0))
  }

  /** `{v: k for k, v in d.items()}`: for a value held twice the later key wins. */
  function Invert<K(==), V(==)>(d: Dict<K, V>): (r: Dict<V, K>)
    ensures UniqueKeys(r)
  {
    FromItems(Swapped(d))
  }

  /** Inverting a dictionary whose values are distinct reads every value back as
      its key, and knows no other value. */
  lemma InvertGet<K, V>(d: Dict<K, V>, k: K, v: V)
    requires UniqueKeys(d) && UniqueValues(d)
    ensures Get(d, k) == Some(v) <==> Get(Invert(d), v) == Some(k)
  {
    var s := Swapped(d);
    assert UniqueKeys(s);
    FromDistinctItems(s);
    if Get(d, k) == Some(v) {
      var i :| 0 <= i < |d| && d[i] == (k, v);
      GetAt(s, i);
    }
    if Get(s, v) == Some(k) {
      var i :| 0 <= i < |s| && s[i] == (v, k);
      GetAt(d, i);
    }
  }
}
