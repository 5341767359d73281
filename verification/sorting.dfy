/**
  The ordering the reshaper relies on: Python 2's `list.sort(key=...)`, a
  stable sort, over keys that are either integers or strings. Python 2 orders
  every integer before every string and strings by code unit, lexicographically,
  a proper prefix first.
 */
module Sorting {

  datatype SortKey = IntKey(n: int) | TextKey(s: string)

  /** Lexicographic `<=` on strings. */
  predicate TextLe(a: string, b: string)
    decreases |a|
  {
    |a| == 0 || (|b| > 0 && (a[0] < b[0] || (a[0] == b[0] && TextLe(a[1..], b[1..]))))
  }

  predicate KeyLe(a: SortKey, b: SortKey)
  {
    match (a, b)
    case (IntKey(x), IntKey(y)) => x <= y
    case (IntKey(_), TextKey(_)) => true
    case (TextKey(_), IntKey(_)) => false
    case (TextKey(x), TextKey(y)) => TextLe(x, y)
  }

  lemma {:induction false} TextLeReflexive(a: string)
    ensures TextLe(a, a)
    decreases |a|
  {
    if |a| > 0 {
      TextLeReflexive(a[1..]);
    }
  }

  lemma {:induction false} TextLeTotal(a: string, b: string)
    ensures TextLe(a, b) || TextLe(b, a)
    decreases |a|
  {
    if |a| > 0 && |b| > 0 && a[0] == b[0] {
      TextLeTotal(a[1..], b[1..]);
    }
  }

  lemma {:induction false} TextLeTransitive(a: string, b: string, c: string)
    requires TextLe(a, b) && TextLe(b, c)
    ensures TextLe(a, c)
    decreases |a|
  {
    if |a| > 0 && a[0] == b[0] && b[0] == c[0] {
      TextLeTransitive(a[1..], b[1..], c[1..]);
    }
  }

  lemma {:induction false} TextLeAntisymmetric(a: string, b: string)
    requires TextLe(a, b) && TextLe(b, a)
    ensures a == b
    decreases |a|
  {
    if |a| > 0 {
      TextLeAntisymmetric(a[1..], b[1..]);
    }
  }

  lemma KeyLeReflexive(a: SortKey)
    ensures KeyLe(a, a)
  {
    if a.TextKey? {
      TextLeReflexive(a.s);
    }
  }

  lemma KeyLeTotal(a: SortKey, b: SortKey)
    ensures KeyLe(a, b) || KeyLe(b, a)
  {
    if a.TextKey? && b.TextKey? {
      TextLeTotal(a.s, b.s);
    }
  }

  lemma KeyLeTransitive(a: SortKey, b: SortKey, c: SortKey)
    requires KeyLe(a, b) && KeyLe(b, c)
    ensures KeyLe(a, c)
  {
    if a.TextKey? && b.TextKey? && c.TextKey? {
      TextLeTransitive(a.s, b.s, c.s);
    }
  }

  lemma KeyLeAntisymmetric(a: SortKey, b: SortKey)
    requires KeyLe(a, b) && KeyLe(b, a)
    ensures a == b
  {
    if a.TextKey? && b.TextKey? {
      TextLeAntisymmetric(a.s, b.s);
    }
  }

  /** An element paired with the sort key computed for it. */
  datatype Keyed<T> = Keyed(key: SortKey, item: T)

  predicate Sorted<T>(s: seq<Keyed<T>>)
  {
    forall i, j :: 0 <= i < j < |s| ==> KeyLe(s[i].key, s[j].key)
  }

  /** The elements of `s` whose key is `k`, in their order in `s`. */
  function WithKey<T>(s: seq<Keyed<T>>, k: SortKey): (r: seq<Keyed<T>>)
    ensures |r| <= |s|
  {
    if |s| == 0 then []
    else if s[|s| - 1].key == k then WithKey(s[..|s| - 1], k) + [s[|s| - 1]]
    else WithKey(s[..|s| - 1], k)
  }

  lemma {:induction false} WithKeyAppend<T>(a: seq<Keyed<T>>, b: seq<Keyed<T>>, k: SortKey)
    ensures WithKey(a + b, k) == WithKey(a, k) + WithKey(b, k)
    decreases |b|
  {
    if |b| == 0 {
      assert a + b == a;
    } else {
      assert (a + b)[..|a + b| - 1] == a + b[..|b| - 1];
      WithKeyAppend(a, b[..|b| - 1], k);
    }
  }

  function Items<T>(s: seq<Keyed<T>>): (r: seq<T>)
    ensures |r| == |s|
    ensures forall i :: 0 <= i < |s| ==> r[i] == s[i].item
  {
    if |s| == 0 then [] else [s[0].item] + Items(s[1..])
  }

  /**
    Inserts `x` just after the last element whose key is not greater than
    `x`'s (scanning from the back), so that `x` follows every element of equal key.
   */
  function Insert<T>(s: seq<Keyed<T>>, x: Keyed<T>): (r: seq<Keyed<T>>)
    ensures |r| == |s| + 1
    ensures multiset(r) == multiset(s) + multiset{x}
  {
    if |s| == 0 then
      [x]
    else if KeyLe(s[|s| - 1].key, x.key) then
      s + [x]
    else
      assert s == s[..|s| - 1] + [s[|s| - 1]];
      Insert(s[..|s| - 1], x) + [s[|s| - 1]]
  }

  lemma {:induction false} InsertSorted<T>(s: seq<Keyed<T>>, x: Keyed<T>)
    requires Sorted(s)
    ensures Sorted(Insert(s, x))
    decreases |s|
  {
    if |s| > 0 {
      var init, last := s[..|s| - 1], s[|s| - 1];
      var r := Insert(s, x);
      if KeyLe(last.key, x.key) {
        assert r == s + [x];
        forall i, j | 0 <= i < j < |r|
          ensures KeyLe(r[i].key, r[j].key)
        {
          if j == |s| && i < |s| - 1 {
            KeyLeTransitive(r[i].key, last.key, x.key);
          }
        }
      } else {
        KeyLeTotal(last.key, x.key);
        var m := Insert(init, x);
        InsertSorted(init, x);
        assert r == m + [last];
        forall i, j | 0 <= i < j < |r|
          ensures KeyLe(r[i].key, r[j].key)
        {
          if j == |m| {
            assert r[i] in multiset(m);
            if r[i] != x {
              assert r[i] in multiset(init);
              var i' :| 0 <= i' < |init| && init[i'] == r[i];
              assert s[i'] == r[i];
            }
          }
        }
      }
    }
  }

  lemma {:induction false} InsertWithKey<T>(s: seq<Keyed<T>>, x: Keyed<T>, k: SortKey)
    ensures WithKey(Insert(s, x), k) == if x.key == k then WithKey(s, k) + [x] else WithKey(s, k)
    decreases |s|
  {
    var r := Insert(s, x);
    if |s| == 0 {
      assert WithKey(r, k) == WithKey([], k) + (if x.key == k then [x] else []);
    } else {
      var init, last := s[..|s| - 1], s[|s| - 1];
      if KeyLe(last.key, x.key) {
        assert r[..|r| - 1] == s;
      } else {
        var m := Insert(init, x);
        InsertWithKey(init, x, k);
        assert r[..|r| - 1] == m;
        if last.key == x.key {
          KeyLeReflexive(x.key);
        }
      }
    }
  }

  /**
    Python's stable `sort`: the result is ordered by key, is a permutation of
    the input, and keeps elements of equal key in their input order.
   */
  function StableSort<T>(s: seq<Keyed<T>>): (r: seq<Keyed<T>>)
    ensures |r| == |s|
    ensures multiset(r) == multiset(s)
    ensures Sorted(r)
    ensures forall k :: WithKey(r, k) == WithKey(s, k)
  {
    if |s| == 0 then []
    else
      var init, last := s[..|s| - 1], s[|s| - 1];
      assert s == init + [last];
      var sortedInit := StableSort(init);
      InsertSorted(sortedInit, last);
      assert forall k :: WithKey(Insert(sortedInit, last), k) == WithKey(s, k) by {
        forall k: SortKey
          ensures WithKey(Insert(sortedInit, last), k) == WithKey(s, k)
        {
          InsertWithKey(sortedInit, last, k);
        }
      }
      Insert(sortedInit, last)
  }

  /** Sorting neither adds nor loses elements. */
  lemma SortedMembers<T>(s: seq<Keyed<T>>)
    ensures forall i :: 0 <= i < |StableSort(s)| ==> StableSort(s)[i] in s
    ensures forall x :: x in s ==> x in StableSort(s)
  {
    var r := StableSort(s);
    forall i | 0 <= i < |r|
      ensures r[i] in s
    {
      assert r[i] in multiset(r);
    }
    forall x | x in s
      ensures x in r
    {
      assert x in multiset(s);
    }
  }

  /** Sorting keeps exactly the same items. */
  lemma SortedItems<T>(s: seq<Keyed<T>>)
    ensures forall x :: x in Items(StableSort(s)) <==> x in Items(s)
  {
    var r := StableSort(s);
    SortedMembers(s);
    forall x | x in Items(r)
      ensures x in Items(s)
    {
      var i :| 0 <= i < |r| && Items(r)[i] == x;
      assert r[i] in s;
      var j :| 0 <= j < |s| && s[j] == r[i];
      assert Items(s)[j] == x;
    }
    forall x | x in Items(s)
      ensures x in Items(r)
    {
      var j :| 0 <= j < |s| && Items(s)[j] == x;
      assert s[j] in r;
      var i :| 0 <= i < |r| && r[i] == s[j];
      assert Items(r)[i] == x;
    }
  }

  /** The keys of a keyed sequence. */
  function KeysOf<T>(s: seq<Keyed<T>>): (r: seq<SortKey>)
    ensures |r| == |s|
    ensures forall i :: 0 <= i < |s| ==> r[i] == s[i].key
  {
    seq(|s|, i requires 0 <= i < |s| => s[i].key)
  }

  /**
    `order` lists the positions `0 .. |keys| - 1`, each once, so that the keys
    ascend and positions of equal key keep their relative order: the
    arrangement a stable sort produces.
   */
  predicate StableOrder(keys: seq<SortKey>, order: seq<int>)
  {
    && |order| == |keys|
    && (forall a :: 0 <= a < |order| ==> 0 <= order[a] < |keys|)
    && (forall a, b :: 0 <= a < b < |order| ==> order[a] != order[b])
    && (forall a, b :: 0 <= a < b < |order| ==> KeyLe(keys[order[a]], keys[order[b]]))
    && (forall a, b :: 0 <= a < b < |order| && keys[order[a]] == keys[order[b]] ==> order[a] < order[b])
  }

  /** Each element paired with its position. */
  function Tag<T>(s: seq<Keyed<T>>): (r: seq<Keyed<(nat, T)>>)
    ensures |r| == |s|
    ensures forall i :: 0 <= i < |s| ==> r[i] == Keyed(s[i].key, (i, s[i].item))
  {
    seq(|s|, i requires 0 <= i < |s| => Keyed(s[i].key, (i as nat, s[i].item)))
  }

  /** Drops the positions again. */
  function Untag<T>(t: seq<Keyed<(nat, T)>>): (r: seq<Keyed<T>>)
    ensures |r| == |t|
    ensures forall i :: 0 <= i < |t| ==> r[i] == Keyed(t[i].key, t[i].item.1)
  {
    if |t| == 0 then [] else Untag(t[..|t| - 1]) + [Keyed(t[|t| - 1].key, t[|t| - 1].item.1)]
  }

  /** Insertion looks at keys only, so it commutes with dropping the positions. */
  lemma {:induction false} UntagInsert<T>(t: seq<Keyed<(nat, T)>>, x: Keyed<(nat, T)>)
    ensures Untag(Insert(t, x)) == Insert(Untag(t), Keyed(x.key, x.item.1))
    decreases |t|
  {
    if |t| > 0 {
      var u := Untag(t);
      assert u[..|u| - 1] == Untag(t[..|t| - 1]);
      if !KeyLe(t[|t| - 1].key, x.key) {
        UntagInsert(t[..|t| - 1], x);
        var m := Insert(t[..|t| - 1], x);
        assert Insert(t, x) == m + [t[|t| - 1]];
        assert (m + [t[|t| - 1]])[..|m|] == m;
      }
    }
  }

  lemma {:induction false} UntagStableSort<T>(t: seq<Keyed<(nat, T)>>)
    ensures Untag(StableSort(t)) == StableSort(Untag(t))
    decreases |t|
  {
    if |t| > 0 {
      var u := Untag(t);
      assert u[..|u| - 1] == Untag(t[..|t| - 1]);
      UntagStableSort(t[..|t| - 1]);
      UntagInsert(StableSort(t[..|t| - 1]), t[|t| - 1]);
    }
  }

  lemma WithKeyMembers<T>(s: seq<Keyed<T>>, k: SortKey)
    ensures forall x :: x in WithKey(s, k) <==> x in s && x.key == k
  {
    if |s| > 0 {
      WithKeyMembers(s[..|s| - 1], k);
      assert s == s[..|s| - 1] + [s[|s| - 1]];
    }
  }

  lemma WithKeyIn<T>(s: seq<Keyed<T>>, k: SortKey, x: Keyed<T>)
    requires x in WithKey(s, k)
    ensures x in s
  {
    WithKeyMembers(s, k);
  }

  lemma WithKeyCons<T>(x: Keyed<T>, t: seq<Keyed<T>>, k: SortKey)
    ensures WithKey([x] + t, k) == (if x.key == k then [x] else []) + WithKey(t, k)
  {
    WithKeyAppend([x], t, k);
    assert WithKey([x], k) == WithKey([], k) + (if x.key == k then [x] else []);
  }

  /**
    An element of key `k` sits in `WithKey(s, k)` at the number of earlier
    elements of key `k`.
   */
  lemma WithKeyAt<T>(s: seq<Keyed<T>>, k: SortKey, a: int)
    requires 0 <= a < |s| && s[a].key == k
    ensures |WithKey(s[..a], k)| < |WithKey(s, k)|
    ensures WithKey(s, k)[|WithKey(s[..a], k)|] == s[a]
  {
    assert s == s[..a] + ([s[a]] + s[a + 1..]);
    WithKeyAppend(s[..a], [s[a]] + s[a + 1..], k);
    WithKeyCons(s[a], s[a + 1..], k);
  }

  /** Later elements of key `k` come later in `WithKey(s, k)`. */
  lemma WithKeyRankGrows<T>(s: seq<Keyed<T>>, k: SortKey, a: int, b: int)
    requires 0 <= a < b <= |s| && s[a].key == k
    ensures |WithKey(s[..a], k)| < |WithKey(s[..b], k)|
  {
    assert s[..b] == s[..a] + ([s[a]] + s[a + 1..b]);
    WithKeyAppend(s[..a], [s[a]] + s[a + 1..b], k);
    WithKeyCons(s[a], s[a + 1..b], k);
  }

  predicate IndexIncreasing<T>(t: seq<Keyed<(nat, T)>>)
  {
    forall i, j :: 0 <= i < j < |t| ==> t[i].item.0 < t[j].item.0
  }

  lemma {:induction false} WithKeyIncreasing<T>(t: seq<Keyed<(nat, T)>>, k: SortKey)
    requires IndexIncreasing(t)
    ensures IndexIncreasing(WithKey(t, k))
    decreases |t|
  {
    if |t| > 0 {
      var init, last := t[..|t| - 1], t[|t| - 1];
      WithKeyIncreasing(init, k);
      WithKeyMembers(init, k);
      var w := WithKey(init, k);
      forall j | 0 <= j < |w|
        ensures w[j].item.0 < last.item.0
      {
        WithKeyIn(init, k, w[j]);
        var i :| 0 <= i < |init| && init[i] == w[j];
        assert t[i] == w[j];
      }
      if last.key == k {
        assert WithKey(t, k) == w + [last];
      } else {
        assert WithKey(t, k) == w;
      }
    }
  }

  /** The positions carried by a sequence of tagged elements. */
  function Positions<T>(r: seq<Keyed<(nat, T)>>): (order: seq<int>)
    ensures |order| == |r|
    ensures forall k :: 0 <= k < |r| ==> order[k] == r[k].item.0
  {
    seq(|r|, k requires 0 <= k < |r| => r[k].item.0 as int)
  }

  /** Every element of the sorted tagged sequence is the tagged input element at its position. */
  lemma SortedTagsAreInput<T>(s: seq<Keyed<T>>)
    ensures forall k :: 0 <= k < |StableSort(Tag(s))| ==>
      StableSort(Tag(s))[k].item.0 < |s| && StableSort(Tag(s))[k] == Tag(s)[StableSort(Tag(s))[k].item.0]
  {
    var t := Tag(s);
    var r := StableSort(t);
    forall k | 0 <= k < |r|
      ensures r[k].item.0 < |s| && r[k] == t[r[k].item.0]
    {
      assert r[k] in multiset(r);
      assert r[k] in multiset(t);
      var i :| 0 <= i < |t| && t[i] == r[k];
    }
  }

  /** A rearrangement that keeps each key's subsequence keeps equal-keyed tags in increasing position. */
  lemma TiesKeepPositions<T>(t: seq<Keyed<(nat, T)>>, r: seq<Keyed<(nat, T)>>, a: int, b: int)
    requires IndexIncreasing(t)
    requires forall k :: WithKey(r, k) == WithKey(t, k)
    requires 0 <= a < b < |r| && r[a].key == r[b].key
    ensures r[a].item.0 < r[b].item.0
  {
    var kk := r[a].key;
    WithKeyAt(r, kk, a);
    WithKeyAt(r, kk, b);
    WithKeyRankGrows(r, kk, a, b);
    WithKeyIncreasing(t, kk);
  }

  /**
    A sorted sequence whose elements carry the keys found at `order`, with
    ties in increasing position, gives a stable order of those keys.
   */
  lemma StableOrderOfSorted<T>(keys: seq<SortKey>, r: seq<Keyed<T>>, order: seq<int>)
    requires |order| == |r| == |keys|
    requires forall a :: 0 <= a < |r| ==> 0 <= order[a] < |keys| && keys[order[a]] == r[a].key
    requires Sorted(r)
    requires forall a, b :: 0 <= a < b < |r| && r[a].key == r[b].key ==> order[a] < order[b]
    ensures StableOrder(keys, order)
  {
  }

  /**
    Sorting the position-tagged sequence: the positions read off the result
    form a stable order of the keys.
   */
  lemma StableSortTagged<T>(s: seq<Keyed<T>>)
    ensures StableOrder(KeysOf(s), Positions(StableSort(Tag(s))))
  {
    var t := Tag(s);
    var r := StableSort(t);
    var order := Positions(r);
    var keys := KeysOf(s);
    SortedTagsAreInput(s);
    assert IndexIncreasing(t);
    forall a | 0 <= a < |r|
      ensures 0 <= order[a] < |keys| && keys[order[a]] == r[a].key
    {
    }
    forall a, b | 0 <= a < b < |r| && r[a].key == r[b].key
      ensures order[a] < order[b]
    {
      TiesKeepPositions(t, r, a, b);
    }
    StableOrderOfSorted(keys, r, order);
  }

  /**
    Python's stable sort meets its specification: the result is the input
    rearranged by a stable order of its keys.
   */
  lemma StableSortIsStableOrder<T>(s: seq<Keyed<T>>)
    ensures exists order ::
      StableOrder(KeysOf(s), order) && forall k :: 0 <= k < |s| ==> StableSort(s)[k] == s[order[k]]
  {
    var t := Tag(s);
    var r := StableSort(t);
    StableSortTagged(s);
    SortedTagsAreInput(s);
    var order := Positions(r);
    UntagStableSort(t);
    assert Untag(t) == s;
    forall k | 0 <= k < |s|
      ensures StableSort(s)[k] == s[order[k]]
    {
      assert StableSort(s)[k] == Keyed(r[k].key, r[k].item.1);
    }
  }
}
