/**
 * Insertion-ordered dictionaries, the shape of a Python `dict`: an
 * association list whose keys are distinct.  Assigning to a present key
 * keeps its position; assigning to a new key appends it.
 */
module OrderedDicts {
  import opened Wrappers

  predicate DistinctKeys<K(==), V>(d: seq<(K, V)>) {
    forall i, j :: 0 <= i < j < |d| ==> d[i].0 != d[j].0
  }

  type Dict<K(==), V> = d: seq<(K, V)> | DistinctKeys(d) witness []

  /** The keys, in dictionary order. */
  function Keys<K(==), V>(d: seq<(K, V)>): (r: seq<K>)
    ensures |r| == |d|
    ensures forall i :: 0 <= i < |d| ==> r[i] == d[i].0
  {
    if d == [] then [] else [d[0].0] + Keys(d[1..])
  }

  /** The values, in dictionary order (Python's `list(d.values())`). */
  function Values<K(==), V>(d: seq<(K, V)>): (r: seq<V>)
    ensures |r| == |d|
    ensures forall i :: 0 <= i < |d| ==> r[i] == d[i].1
  {
    if d == [] then [] else [d[0].1] + Values(d[1..])
  }

  /** `d.get(k)` */
  function Get<K(==), V>(d: seq<(K, V)>, k: K): (r: Option<V>)
    ensures r.Some? <==> k in Keys(d)
  {
    if d == [] then None
    else if d[0].0 == k then Some(d[0].1)
    else Get(d[1..], k)
  }

  /** The value stored at position `i` is what a lookup of its key finds. */
  lemma {:induction false} GetAt<K(!new), V>(d: Dict<K, V>, i: nat)
    requires i < |d|
    ensures Get(d, d[i].0) == Some(d[i].1)
  {
    if i > 0 {
      GetAt(d[1..], i - 1);
    }
  }

  /** The last key of a dictionary does not occur before it. */
  lemma LastKeyNew<K(!new), V>(d: Dict<K, V>)
    requires d != []
    ensures d[|d| - 1].0 !in Keys(d[..|d| - 1])
  {
    var init := d[..|d| - 1];
    forall i | 0 <= i < |init|
      ensures Keys(init)[i] != d[|d| - 1].0
    {
      assert init[i] == d[i];
    }
  }

  /** Prepending a pair whose key is new keeps the keys distinct. */
  lemma ConsDistinct<K(!new), V>(p: (K, V), t: Dict<K, V>)
    requires p.0 !in Keys(t)
    ensures DistinctKeys([p] + t)
  {
    var d := [p] + t;
    forall i, j | 0 <= i < j < |d|
      ensures d[i].0 != d[j].0
    {
      if i == 0 {
        assert d[j].0 == Keys(t)[j - 1];
      } else {
        assert d[i] == t[i - 1] && d[j] == t[j - 1];
      }
    }
  }

  /** `d[k] = v` on a copy of `d`. */
  function Insert<K(==, !new), V>(d: Dict<K, V>, k: K, v: V): (r: Dict<K, V>)
    ensures k in Keys(d) ==> Keys(r) == Keys(d)
    ensures k !in Keys(d) ==> Keys(r) == Keys(d) + [k]
  {
    if d == [] then [(k, v)]
    else
      var t: Dict<K, V> := d[1..];
      assert d == [d[0]] + t;
      assert d[0].0 !in Keys(t);
      if d[0].0 == k then
        ConsDistinct((k, v), t);
        [(k, v)] + t
      else
        var rest := Insert(t, k, v);
        ConsDistinct(d[0], rest);
        [d[0]] + rest
  }

  /** After `d[k] = v`, `k` holds `v` and every other key what it held before. */
  lemma {:induction false} GetInsert<K(!new), V>(d: Dict<K, V>, k: K, v: V, k': K)
    ensures Get(Insert(d, k, v), k') == if k' == k then Some(v) else Get(d, k')
  {
    if d != [] && d[0].0 != k {
      var t: Dict<K, V> := d[1..];
      GetInsert(t, k, v, k');
      assert Insert(d, k, v)[1..] == Insert(t, k, v);
    }
  }

  /** A non-empty sequence is its front followed by its last element. */
  lemma FrontLast<X>(s: seq<X>)
    requires |s| > 0
    ensures s[..|s| - 1] + [s[|s| - 1]] == s
  {
  }

  /** Appending a pair whose key is new keeps the keys distinct. */
  lemma SnocDistinct<K(!new), V>(d: Dict<K, V>, p: (K, V))
    requires p.0 !in Keys(d)
    ensures DistinctKeys(d + [p])
  {
    var e := d + [p];
    forall i, j | 0 <= i < j < |e|
      ensures e[i].0 != e[j].0
    {
      if j == |d| {
        assert e[i].0 == Keys(d)[i];
      }
    }
  }

  /** Assigning a key the dictionary lacks appends the pair at the end. */
  lemma {:induction false} InsertNew<K(!new), V>(d: Dict<K, V>, k: K, v: V)
    requires k !in Keys(d)
    ensures Insert(d, k, v) == d + [(k, v)]
  {
    if d != [] {
      var t: Dict<K, V> := d[1..];
      assert k !in Keys(t) by {
        forall i | 0 <= i < |t|
          ensures Keys(t)[i] != k
        {
          assert Keys(t)[i] == Keys(d)[i + 1];
        }
      }
      InsertNew(t, k, v);
      assert d + [(k, v)] == [d[0]] + (t + [(k, v)]);
    }
  }

  /** `{**a, **b}`: the pairs of `b` assigned into a copy of `a`, in order. */
  function Merge<K(==, !new), V>(a: Dict<K, V>, b: Dict<K, V>): (r: Dict<K, V>)
    decreases |b|
  {
    if b == [] then a else Merge(Insert(a, b[0].0, b[0].1), b[1..])
  }

  /** Last writer wins, key by key: a key of `b` gets `b`'s value, every other key keeps `a`'s. */
  lemma {:induction false} GetMerge<K(!new), V>(a: Dict<K, V>, b: Dict<K, V>, k: K)
    ensures Get(Merge(a, b), k) == if k in Keys(b) then Get(b, k) else Get(a, k)
    decreases |b|
  {
    if b != [] {
      var t: Dict<K, V> := b[1..];
      var a' := Insert(a, b[0].0, b[0].1);
      GetMerge(a', t, k);
      GetInsert(a, b[0].0, b[0].1, k);
      assert Keys(b) == [b[0].0] + Keys(t);
      assert b[0].0 !in Keys(t);
    }
  }

  /** The keys of `ks` that are not in `seen`, in order. */
  function Unseen<K(==, !new)>(ks: seq<K>, seen: seq<K>): (r: seq<K>)
    ensures forall x :: x in r <==> x in ks && x !in seen
  {
    if ks == [] then [] else (if ks[0] in seen then [] else [ks[0]]) + Unseen(ks[1..], seen)
  }

  lemma {:induction false} UnseenExtend<K(!new)>(ks: seq<K>, seen: seq<K>, x: K)
    requires x !in ks
    ensures Unseen(ks, seen + [x]) == Unseen(ks, seen)
  {
    if ks != [] {
      UnseenExtend(ks[1..], seen, x);
    }
  }

  lemma {:induction false} UnseenAllSeen<K(!new)>(ks: seq<K>, seen: seq<K>)
    requires forall x :: x in ks ==> x in seen
    ensures Unseen(ks, seen) == []
  {
    if ks != [] {
      assert ks[0] in ks;
      UnseenAllSeen(ks[1..], seen);
    }
  }

  /** Key order of a merge: `a`'s keys stay where they were, new keys of `b` follow in `b`'s order. */
  lemma {:induction false} KeysMerge<K(!new), V>(a: Dict<K, V>, b: Dict<K, V>)
    ensures Keys(Merge(a, b)) == Keys(a) + Unseen(Keys(b), Keys(a))
    decreases |b|
  {
    if b != [] {
      var k := b[0].0;
      var t: Dict<K, V> := b[1..];
      var a' := Insert(a, k, b[0].1);
      KeysMerge(a', t);
      KeysMergeStep(Keys(a), k, Keys(t), Keys(b), Keys(a'));
    }
  }

  /** One step of KeysMerge, stated on key sequences only. */
  lemma KeysMergeStep<K(!new)>(ka: seq<K>, k: K, t: seq<K>, b: seq<K>, a': seq<K>)
    requires b == [k] + t && k !in t
    requires k in ka ==> a' == ka
    requires k !in ka ==> a' == ka + [k]
    ensures a' + Unseen(t, a') == ka + Unseen(b, ka)
  {
    UnseenCons(k, t, ka);
    var u := Unseen(t, ka);
    if k in ka {
      assert Unseen(b, ka) == [] + u == u;
    } else {
      UnseenExtend(t, ka, k);
      assert Unseen(t, a') == u;
      assert Unseen(b, ka) == [k] + u;
      assert a' + u == ka + ([k] + u);
    }
  }

  /** Unseen keeps the first key exactly when it has not been seen. */
  lemma UnseenCons<K(!new)>(k: K, t: seq<K>, seen: seq<K>)
    ensures Unseen([k] + t, seen) == (if k in seen then [] else [k]) + Unseen(t, seen)
  {
    assert ([k] + t)[1..] == t;
  }

  /** Two dictionaries with the same keys in the same order and the same lookups are equal. */
  lemma SameEntries<K(!new), V>(a: Dict<K, V>, b: Dict<K, V>)
    requires Keys(a) == Keys(b)
    requires forall k :: Get(a, k) == Get(b, k)
    ensures a == b
  {
    forall i | 0 <= i < |a|
      ensures a[i] == b[i]
    {
      assert a[i].0 == Keys(a)[i] == Keys(b)[i] == b[i].0;
      GetAt(a, i);
      GetAt(b, i);
    }
  }

  /** Merging two dictionaries with the same keys in the same order gives the second. */
  lemma MergeSameKeys<K(!new), V>(a: Dict<K, V>, b: Dict<K, V>)
    requires Keys(a) == Keys(b)
    ensures Merge(a, b) == b
  {
    KeysMerge(a, b);
    UnseenAllSeen(Keys(b), Keys(a));
    assert Keys(Merge(a, b)) == Keys(b);
    forall k
      ensures Get(Merge(a, b), k) == Get(b, k)
    {
      GetMerge(a, b, k);
    }
    SameEntries(Merge(a, b), b);
  }

  /** The dictionary as a Dafny map: an independent reference for lookups. */
  /** A key list filtered against nothing is itself. */
  lemma {:induction false} UnseenNothing<K(!new)>(ks: seq<K>)
    ensures Unseen(ks, []) == ks
  {
    if ks != [] {
      UnseenNothing(ks[1..]);
      assert ks == [ks[0]] + ks[1..];
    }
  }

  /** `{**{}, **b}` is b. */
  lemma MergeIntoEmpty<K(!new), V>(b: Dict<K, V>)
    ensures Merge([], b) == b
  {
    KeysMerge([], b);
    UnseenNothing(Keys(b));
    forall k
      ensures Get(Merge([], b), k) == Get(b, k)
    {
      GetMerge([], b, k);
    }
    SameEntries(Merge([], b), b);
  }

  function ToMap<K(==, !new), V>(d: Dict<K, V>): (m: map<K, V>)
    ensures forall k :: k in m <==> k in Keys(d)
    ensures forall k :: k in m ==> Get(d, k) == Some(m[k])
  {
    map k | k in Keys(d) :: Get(d, k).value
  }

  /** A merge is the map union with `b` taking precedence. */
  lemma MergeIsMapUnion<K(!new), V>(a: Dict<K, V>, b: Dict<K, V>)
    ensures ToMap(Merge(a, b)) == ToMap(a) + ToMap(b)
  {
    var l, r := ToMap(Merge(a, b)), ToMap(a) + ToMap(b);
    forall k | k in l || k in r
      ensures k in l && k in r && l[k] == r[k]
    {
      GetMerge(a, b, k);
      KeysMerge(a, b);
    }
  }

  /** The map of a non-empty dictionary is the map of its tail extended by its first entry, whose key is new. */
  lemma ToMapCons<K(!new), V>(d: Dict<K, V>)
    requires d != []
    ensures d[0].0 !in ToMap(d[1..])
    ensures ToMap(d) == ToMap(d[1..])[d[0].0 := d[0].1]
  {
    var t: Dict<K, V> := d[1..];
    assert d[0].0 !in Keys(t) by {
      forall i | 0 <= i < |t|
        ensures Keys(t)[i] != d[0].0
      {
        assert t[i] == d[i + 1];
      }
    }
    var l, r := ToMap(d), ToMap(t)[d[0].0 := d[0].1];
    forall k | k in l || k in r
      ensures k in l && k in r && l[k] == r[k]
    {
      assert Get(d, k) == if k == d[0].0 then Some(d[0].1) else Get(t, k);
    }
  }

  /** Every key of a dictionary is listed once, so it has as many entries as its map has keys. */
  lemma {:induction false} SizeIsKeyCount<K(!new), V>(d: Dict<K, V>)
    ensures |ToMap(d)| == |d|
  {
    if d != [] {
      SizeIsKeyCount(d[1..]);
      ToMapCons(d);
    }
  }
}
