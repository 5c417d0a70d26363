/** The Python built-ins the service ranks with: `sorted(..., key=..., reverse=True)` (a stable
    sort), `Counter` (an insertion-ordered count table) and `Counter.most_common()`, plus the
    facts that join them to the tie-break helper of Common. */
module Ranking {
  import opened Outcomes
  import opened Common

  // ---------------------------------------------------------------------------
  // Sequences of pairs
  // ---------------------------------------------------------------------------

  /** `[pair[0] for pair in s]` */
  function Firsts<K, V>(s: seq<(K, V)>): (r: seq<K>)
    ensures |r| == |s|
    ensures forall i :: 0 <= i < |s| ==> r[i] == s[i].0
  {
    if s == [] then [] else [s[0].0] + Firsts(s[1..])
  }

  predicate Distinct<T(==)>(s: seq<T>) {
    forall i, j :: 0 <= i < j < |s| ==> s[i] != s[j]
  }

  lemma FirstsOfAppend<K, V>(a: seq<(K, V)>, b: seq<(K, V)>)
    ensures Firsts(a + b) == Firsts(a) + Firsts(b)
  {
  }

  /** Cutting the pairs cuts their keys. */
  lemma FirstsOfPrefix<K, V>(s: seq<(K, V)>, n: nat)
    requires n <= |s|
    ensures Firsts(s[..n]) == Firsts(s)[..n]
  {
  }

  /** Distinct keys: an entry's key occurs at no other position. */
  lemma DistinctKeyOnce<K, V>(s: seq<(K, V)>, i: nat)
    requires Distinct(Firsts(s))
    requires i < |s|
    ensures forall j :: 0 <= j < |s| && s[j].0 == s[i].0 ==> j == i
  {
  }

  /** `{k: f(v) for k, v in d.items()}`: the same keys in the same order, each value mapped. */
  function MapValues<K, V, W>(s: seq<(K, V)>, f: V -> W): (r: seq<(K, W)>)
    ensures |r| == |s|
    ensures forall i :: 0 <= i < |s| ==> r[i] == (s[i].0, f(s[i].1))
  {
    if s == [] then []
    else
      var n := |s| - 1;
      MapValues(s[..n], f) + [(s[n].0, f(s[n].1))]
  }

  /** Mapping the values keeps the keys. */
  lemma MapValuesKeys<K, V, W>(s: seq<(K, V)>, f: V -> W)
    ensures Firsts(MapValues(s, f)) == Firsts(s)
  {
    var r := MapValues(s, f);
    assert forall i :: 0 <= i < |s| ==> Firsts(r)[i] == r[i].0 == s[i].0 == Firsts(s)[i];
  }

  /** Mapping a longer prefix appends one mapped pair. */
  lemma MapValuesStep<K, V, W>(s: seq<(K, V)>, f: V -> W, j: nat, acc: seq<(K, W)>, w: W)
    requires j < |s|
    requires acc == MapValues(s[..j], f)
    requires w == f(s[j].1)
    ensures acc + [(s[j].0, w)] == MapValues(s[..j + 1], f)
  {
    assert s[..j + 1][..j] == s[..j];
  }

  /** `d.get(k)` on an insertion-ordered dictionary: the value of the first pair with key k. */
  function Lookup<K(==), V>(s: seq<(K, V)>, k: K): (r: Option<V>)
    ensures r.None? <==> k !in Firsts(s)
  {
    if s == [] then None
    else if s[0].0 == k then Some(s[0].1)
    else
      assert Firsts(s) == [s[0].0] + Firsts(s[1..]);
      Lookup(s[1..], k)
  }

  /** With distinct keys, each pair is found by its own key. */
  lemma {:induction false} LookupOfDistinct<K, V>(s: seq<(K, V)>, i: nat)
    requires Distinct(Firsts(s))
    requires i < |s|
    ensures Lookup(s, s[i].0) == Some(s[i].1)
  {
    if i > 0 {
      var f := Firsts(s);
      var tail := s[1..];
      assert f[0] != f[i];
      assert Firsts(tail) == f[1..];
      DistinctTail(f);
      LookupOfDistinct(tail, i - 1);
      assert tail[i - 1] == s[i];
    }
  }

  /** A pair whose key occurs nowhere else is found by that key. */
  lemma {:induction false} LookupOfUnique<K, V>(s: seq<(K, V)>, i: nat)
    requires i < |s|
    requires forall j :: 0 <= j < |s| && s[j].0 == s[i].0 ==> j == i
    ensures Lookup(s, s[i].0) == Some(s[i].1)
  {
    if i > 0 {
      var tail := s[1..];
      assert tail[i - 1] == s[i];
      forall j | 0 <= j < |tail| && tail[j].0 == tail[i - 1].0
        ensures j == i - 1
      {
        assert tail[j] == s[j + 1];
      }
      LookupOfUnique(tail, i - 1);
    }
  }

  /** Appending a new value keeps the values distinct. */
  lemma DistinctAppend<T>(s: seq<T>, x: T)
    requires Distinct(s) && x !in s
    ensures Distinct(s + [x])
  {
  }

  lemma DistinctTail<T>(s: seq<T>)
    requires Distinct(s) && |s| > 0
    ensures Distinct(s[1..])
  {
    forall a, b | 0 <= a < b < |s[1..]|
      ensures s[1..][a] != s[1..][b]
    {
      assert s[1..][a] == s[a + 1] && s[1..][b] == s[b + 1];
    }
  }

  // ---------------------------------------------------------------------------
  // Stable descending sort
  // ---------------------------------------------------------------------------

  ghost predicate IsDescending<T>(t: seq<T>, key: T -> real) {
    forall i, j :: 0 <= i < j < |t| ==> key(t[i]) >= key(t[j])
  }

  /** Places x in front of the first element of t whose key is not larger than x's, so x stays
      ahead of every element with an equal key. */
  function Insert<T>(x: T, t: seq<T>, key: T -> real): (r: seq<T>)
    ensures |r| == |t| + 1
    ensures multiset(r) == multiset(t) + multiset{x}
  {
    if t == [] || key(t[0]) <= key(x) then [x] + t
    else
      assert t == [t[0]] + t[1..];
      [t[0]] + Insert(x, t[1..], key)
  }

  lemma {:induction false} InsertKeepsDescending<T>(x: T, t: seq<T>, key: T -> real)
    requires IsDescending(t, key)
    ensures IsDescending(Insert(x, t, key), key)
  {
    if t == [] || key(t[0]) <= key(x) {
      assert Insert(x, t, key) == [x] + t;
      ConsKeepsDescending(x, t, key);
    } else {
      var tail := t[1..];
      DescendingTail(t, key);
      var rest := Insert(x, tail, key);
      assert Insert(x, t, key) == [t[0]] + rest;
      InsertKeepsDescending(x, tail, key);
      forall y | y in rest
        ensures key(y) <= key(t[0])
      {
        assert y in multiset(rest);
        if y != x {
          assert y in multiset(tail);
          var k :| 0 <= k < |tail| && tail[k] == y;
          assert tail[k] == t[k + 1];
        }
      }
      ConsKeepsDescending(t[0], rest, key);
    }
  }

  /** Putting in front an element whose key is at least that of every element keeps the order. */
  lemma ConsKeepsDescending<T>(x: T, t: seq<T>, key: T -> real)
    requires IsDescending(t, key)
    requires forall y :: y in t ==> key(y) <= key(x)
    ensures IsDescending([x] + t, key)
  {
    var r := [x] + t;
    forall i, j | 0 <= i < j < |r|
      ensures key(r[i]) >= key(r[j])
    {
      assert r[j] == t[j - 1];
      if i > 0 {
        assert r[i] == t[i - 1];
      }
    }
  }

  /** `sorted(s, key=key, reverse=True)`: descending by key, equal keys in their input order. */
  function SortedDesc<T>(s: seq<T>, key: T -> real): (t: seq<T>)
    ensures |t| == |s|
    ensures multiset(t) == multiset(s)
  {
    if s == [] then []
    else
      assert s == [s[0]] + s[1..];
      Insert(s[0], SortedDesc(s[1..], key), key)
  }

  /** The sort's result is in descending order of the key. */
  lemma {:induction false} SortedDescIsDescending<T>(s: seq<T>, key: T -> real)
    ensures IsDescending(SortedDesc(s, key), key)
  {
    if s != [] {
      SortedDescIsDescending(s[1..], key);
      InsertKeepsDescending(s[0], SortedDesc(s[1..], key), key);
    }
  }

  /** `sorted(s, key=key)`: ascending by key, equal keys in their input order.  Ascending order by
      a key is descending order by its negation, and both sorts keep ties stable. */
  function SortedAsc<T>(s: seq<T>, key: T -> real): (t: seq<T>)
    ensures |t| == |s|
    ensures multiset(t) == multiset(s)
  {
    SortedDesc(s, x => -key(x))
  }

  // ---------------------------------------------------------------------------
  // The elements of a given key, and the largest key
  // ---------------------------------------------------------------------------

  /** The elements of s whose key is v, in the order of s. */
  function WithKey<T>(s: seq<T>, key: T -> real, v: real): seq<T> {
    if s == [] then []
    else (if key(s[0]) == v then [s[0]] else []) + WithKey(s[1..], key, v)
  }

  /** The filter keeps exactly the elements whose key is v. */
  lemma {:induction false} WithKeyMembers<T>(s: seq<T>, key: T -> real, v: real)
    ensures forall i :: 0 <= i < |WithKey(s, key, v)| ==>
      WithKey(s, key, v)[i] in s && key(WithKey(s, key, v)[i]) == v
    ensures forall i :: 0 <= i < |s| && key(s[i]) == v ==> s[i] in WithKey(s, key, v)
  {
    if s != [] {
      var tail := s[1..];
      WithKeyMembers(tail, key, v);
      var head: seq<T> := if key(s[0]) == v then [s[0]] else [];
      var rest := WithKey(tail, key, v);
      var r := head + rest;
      assert WithKey(s, key, v) == r;
      forall i | 0 <= i < |r|
        ensures r[i] in s && key(r[i]) == v
      {
        if i >= |head| {
          assert r[i] == rest[i - |head|];
          assert rest[i - |head|] in tail;
        }
      }
      forall i | 0 <= i < |s| && key(s[i]) == v
        ensures s[i] in r
      {
        if i > 0 {
          assert s[i] == tail[i - 1];
        }
      }
    }
  }

  function MaxKey<T>(s: seq<T>, key: T -> real): (m: real)
    requires |s| > 0
    ensures forall x :: x in s ==> key(x) <= m
    ensures exists i :: 0 <= i < |s| && key(s[i]) == m
  {
    if |s| == 1 then key(s[0])
    else
      assert s == [s[0]] + s[1..];
      var rest := MaxKey(s[1..], key);
      assert exists i :: 1 <= i < |s| && key(s[i]) == rest by {
        var i :| 0 <= i < |s[1..]| && key(s[1..][i]) == rest;
        assert s[i + 1] == s[1..][i];
      }
      if key(s[0]) >= rest then key(s[0]) else rest
  }

  lemma {:induction false} WithKeyOfAppend<T>(a: seq<T>, b: seq<T>, key: T -> real, v: real)
    ensures WithKey(a + b, key, v) == WithKey(a, key, v) + WithKey(b, key, v)
  {
    if a == [] {
      assert a + b == b;
    } else {
      assert (a + b)[0] == a[0];
      assert (a + b)[1..] == a[1..] + b;
      WithKeyOfAppend(a[1..], b, key, v);
      var h: seq<T> := if key(a[0]) == v then [a[0]] else [];
      assert WithKey(a + b, key, v) == h + WithKey(a[1..] + b, key, v);
      assert WithKey(a, key, v) == h + WithKey(a[1..], key, v);
    }
  }

  lemma {:induction false} NoneWithKey<T>(s: seq<T>, key: T -> real, v: real)
    requires forall i :: 0 <= i < |s| ==> key(s[i]) != v
    ensures WithKey(s, key, v) == []
  {
    if s != [] {
      NoneWithKey(s[1..], key, v);
    }
  }

  /** Insertion keeps the elements of every key in their relative order, with x first. */
  lemma {:induction false} InsertIsStable<T>(x: T, t: seq<T>, key: T -> real, v: real)
    ensures WithKey(Insert(x, t, key), key, v) == (if key(x) == v then [x] else []) + WithKey(t, key, v)
  {
    if t == [] || key(t[0]) <= key(x) {
      assert ([x] + t)[1..] == t;
    } else {
      var tail := t[1..];
      InsertIsStable(x, tail, key, v);
      var r := [t[0]] + Insert(x, tail, key);
      assert r[1..] == Insert(x, tail, key);
      var w := WithKey(tail, key, v);
      var hx: seq<T> := if key(x) == v then [x] else [];
      var h0: seq<T> := if key(t[0]) == v then [t[0]] else [];
      assert WithKey(r, key, v) == h0 + (hx + w);
      assert WithKey(t, key, v) == h0 + w;
      assert Insert(x, t, key) == r;
      if hx == [] {
        assert hx + (h0 + w) == h0 + w == h0 + (hx + w);
      } else {
        assert key(t[0]) != v;
        assert hx + (h0 + w) == hx + w == h0 + (hx + w);
      }
    }
  }

  /** Sorting keeps the elements of every key in their input order. */
  lemma {:induction false} SortIsStable<T>(s: seq<T>, key: T -> real, v: real)
    ensures WithKey(SortedDesc(s, key), key, v) == WithKey(s, key, v)
  {
    if s != [] {
      SortIsStable(s[1..], key, v);
      InsertIsStable(s[0], SortedDesc(s[1..], key), key, v);
    }
  }

  /** The first element of the descending sort is an element of s with the largest key. */
  lemma SortedDescHead<T>(s: seq<T>, key: T -> real)
    requires |s| > 0
    ensures SortedDesc(s, key)[0] in s
    ensures key(SortedDesc(s, key)[0]) == MaxKey(s, key)
  {
    var t := SortedDesc(s, key);
    var m := MaxKey(s, key);
    SameElements(t, s, t[0]);
    var i :| 0 <= i < |s| && key(s[i]) == m;
    SameElements(s, t, s[i]);
    var j :| 0 <= j < |t| && t[j] == s[i];
    if j > 0 {
      SortedDescIsDescending(s, key);
      assert key(t[0]) >= key(t[j]);
    }
  }

  /** Sequences with the same multiset have the same elements. */
  lemma SameElements<T>(a: seq<T>, b: seq<T>, x: T)
    requires multiset(a) == multiset(b)
    requires x in a
    ensures x in b
  {
    assert x in multiset(a);
  }

  /** The first element of the ascending sort is an element of s with the smallest key. */
  lemma SortedAscHead<T>(s: seq<T>, key: T -> real)
    requires |s| > 0
    ensures SortedAsc(s, key)[0] in s
    ensures forall x :: x in s ==> key(SortedAsc(s, key)[0]) <= key(x)
  {
    var neg := x => -key(x);
    SortedDescHead(s, neg);
  }

  /** In a descending sequence, a leading group of equal keys followed by a smaller key (or by
      nothing) is exactly the set of elements that have the first key. */
  lemma {:induction false} LeadingGroupIsWithKey<T>(t: seq<T>, key: T -> real, n: nat)
    requires IsDescending(t, key)
    requires 1 <= n <= |t|
    requires forall k :: 0 <= k < n ==> key(t[k]) == key(t[0])
    requires n < |t| ==> key(t[n]) != key(t[0])
    ensures WithKey(t, key, key(t[0])) == t[..n]
  {
    var v := key(t[0]);
    var tail := t[1..];
    WithKeyCons(t, key, v);
    if n == 1 {
      TailBelowLeader(t, key);
      NoneWithKey(tail, key, v);
    } else {
      DescendingTail(t, key);
      LeadingGroupOfTail(t, key, n);
      LeadingGroupIsWithKey(tail, key, n - 1);
    }
    PrefixCons(t, n);
  }

  lemma PrefixCons<T>(t: seq<T>, n: nat)
    requires 1 <= n <= |t|
    ensures t[..n] == [t[0]] + t[1..][..n - 1]
  {
  }

  lemma WithKeyCons<T>(t: seq<T>, key: T -> real, v: real)
    requires |t| > 0 && key(t[0]) == v
    ensures WithKey(t, key, v) == [t[0]] + WithKey(t[1..], key, v)
  {
  }

  /** When the second element's key differs from the first's, no later element has the first's. */
  lemma TailBelowLeader<T>(t: seq<T>, key: T -> real)
    requires IsDescending(t, key)
    requires 1 <= |t|
    requires 1 < |t| ==> key(t[1]) != key(t[0])
    ensures forall j :: 0 <= j < |t[1..]| ==> key(t[1..][j]) != key(t[0])
  {
    forall j | 0 <= j < |t[1..]|
      ensures key(t[1..][j]) != key(t[0])
    {
      assert t[1..][j] == t[j + 1];
      assert key(t[0]) >= key(t[1]) >= key(t[j + 1]) || j == 0;
    }
  }

  /** The leading group of the tail is the rest of the leading group. */
  lemma LeadingGroupOfTail<T>(t: seq<T>, key: T -> real, n: nat)
    requires 2 <= n <= |t|
    requires forall k :: 0 <= k < n ==> key(t[k]) == key(t[0])
    requires n < |t| ==> key(t[n]) != key(t[0])
    ensures forall k :: 0 <= k < n - 1 ==> key(t[1..][k]) == key(t[1..][0])
    ensures n - 1 < |t[1..]| ==> key(t[1..][n - 1]) != key(t[1..][0])
  {
    var tail := t[1..];
    assert tail[0] == t[1];
    forall k | 0 <= k < n - 1
      ensures key(tail[k]) == key(tail[0])
    {
      assert tail[k] == t[k + 1];
    }
    if n - 1 < |tail| {
      assert tail[n - 1] == t[n];
    }
  }

  lemma DescendingTail<T>(t: seq<T>, key: T -> real)
    requires IsDescending(t, key)
    requires |t| > 0
    ensures IsDescending(t[1..], key)
  {
    var tail := t[1..];
    forall i, j | 0 <= i < j < |tail|
      ensures key(tail[i]) >= key(tail[j])
    {
      assert tail[i] == t[i + 1] && tail[j] == t[j + 1];
    }
  }

  /** The ranking idiom of `client_with_biggest_spend`: sort descending by the value, take the
      leading group found by TopCount. When the sort key agrees with equality of values, that
      group is exactly the pairs of the input whose value is the largest, in input order. */
  lemma TopOfRanking<K, V>(s: seq<(K, V)>, key: ((K, V)) -> real)
    requires |s| > 0
    requires forall a: (K, V), b: (K, V) :: key(a) == key(b) <==> a.1 == b.1
    ensures key(SortedDesc(s, key)[0]) == MaxKey(s, key)
    ensures SortedDesc(s, key)[..TopCount(SortedDesc(s, key))] == WithKey(s, key, MaxKey(s, key))
  {
    var t := SortedDesc(s, key);
    var n := TopCount(t);
    SortedDescHead(s, key);
    assert forall k :: 0 <= k < n ==> key(t[k]) == key(t[0]);
    SortedDescIsDescending(s, key);
    LeadingGroupIsWithKey(t, key, n);
    SortIsStable(s, key, key(t[0]));
  }

  // ---------------------------------------------------------------------------
  // Counter: an insertion-ordered table from keys to counts
  // ---------------------------------------------------------------------------

  /** `c[k]`: the count of k, 0 when k is absent (as a Python Counter answers). */
  function CountIn<K(==)>(c: seq<(K, nat)>, k: K): nat {
    if c == [] then 0 else if c[0].0 == k then c[0].1 else CountIn(c[1..], k)
  }

  function ValueSum<K>(c: seq<(K, nat)>): nat {
    if c == [] then 0 else c[0].1 + ValueSum(c[1..])
  }

  /** `c[k] += amount`: raises the count of k in place, or appends k when it is new. */
  function Add<K(==,!new)>(c: seq<(K, nat)>, k: K, amount: nat): (r: seq<(K, nat)>)
    ensures Firsts(r) == if k in Firsts(c) then Firsts(c) else Firsts(c) + [k]
    ensures forall j :: CountIn(r, j) == CountIn(c, j) + (if j == k then amount else 0)
    ensures ValueSum(r) == ValueSum(c) + amount
  {
    if c == [] then [(k, amount)]
    else if c[0].0 == k then
      var r := [(k, c[0].1 + amount)] + c[1..];
      assert r[1..] == c[1..];
      r
    else
      var rest := Add(c[1..], k, amount);
      var r := [c[0]] + rest;
      assert r[1..] == rest;
      assert k in Firsts(c) <==> k in Firsts(c[1..]) by {
        assert Firsts(c) == [c[0].0] + Firsts(c[1..]);
      }
      r
  }

  lemma {:induction false} CountInOfDistinct<K>(c: seq<(K, nat)>, i: nat)
    requires Distinct(Firsts(c))
    requires i < |c|
    ensures CountIn(c, c[i].0) == c[i].1
  {
    if i > 0 {
      var f := Firsts(c);
      var tail := c[1..];
      assert f[0] != f[i];
      assert c[0].0 != c[i].0;
      assert Firsts(tail) == f[1..];
      assert Distinct(Firsts(tail)) by {
        forall a, b | 0 <= a < b < |Firsts(tail)|
          ensures Firsts(tail)[a] != Firsts(tail)[b]
        {
          assert Firsts(tail)[a] == f[a + 1] && Firsts(tail)[b] == f[b + 1];
        }
      }
      CountInOfDistinct(tail, i - 1);
      assert tail[i - 1] == c[i];
    }
  }

  /** An absent key counts 0. */
  lemma {:induction false} CountInOfAbsent<K>(c: seq<(K, nat)>, k: K)
    requires k !in Firsts(c)
    ensures CountIn(c, k) == 0
  {
    if c != [] {
      assert Firsts(c) == [c[0].0] + Firsts(c[1..]);
      CountInOfAbsent(c[1..], k);
    }
  }

  /** The keys of xs in order of first occurrence (the key order of `Counter(xs)`). */
  function FirstOccurrences<T(==,!new)>(xs: seq<T>): (r: seq<T>)
    ensures Distinct(r)
    ensures forall x :: x in r <==> x in xs
  {
    if xs == [] then []
    else
      var init := xs[..|xs| - 1];
      assert xs == init + [xs[|xs| - 1]];
      var p := FirstOccurrences(init);
      if xs[|xs| - 1] in p then p else p + [xs[|xs| - 1]]
  }

  /** `Counter(xs)`: the keys of xs in order of first occurrence, each with its number of occurrences. */
  function Counts<T(==,!new)>(xs: seq<T>): (c: seq<(T, nat)>)
    ensures Firsts(c) == FirstOccurrences(xs)
    ensures forall k :: CountIn(c, k) == multiset(xs)[k]
    ensures ValueSum(c) == |xs|
  {
    if xs == [] then []
    else
      var init := xs[..|xs| - 1];
      assert xs == init + [xs[|xs| - 1]];
      Add(Counts(init), xs[|xs| - 1], 1)
  }

  /** Every key of `Counter(xs)` occurs in xs, so its count is at least one. */
  lemma CountsArePositive<T(!new)>(xs: seq<T>)
    ensures forall i :: 0 <= i < |Counts(xs)| ==> Counts(xs)[i].1 >= 1
  {
    var c := Counts(xs);
    forall i | 0 <= i < |c|
      ensures c[i].1 >= 1
    {
      CountInOfDistinct(c, i);
      assert c[i].0 == Firsts(c)[i];
      assert c[i].0 in xs;
    }
  }

  function CountKey<K>(p: (K, nat)): real {
    p.1 as real
  }

  /** `Counter.most_common()`: the pairs sorted by count, largest first, ties in insertion order. */
  function MostCommon<K>(c: seq<(K, nat)>): (r: seq<(K, nat)>)
    ensures |r| == |c|
    ensures multiset(r) == multiset(c)
  {
    SortedDesc(c, CountKey)
  }

  /** The leading group of `most_common()` is the keys with the largest count, in insertion order. */
  lemma TopOfMostCommon<K>(c: seq<(K, nat)>)
    requires |c| > 0
    ensures MostCommon(c)[..TopCount(MostCommon(c))] == WithKey(c, CountKey, MaxKey(c, CountKey))
  {
    TopOfRanking(c, CountKey);
  }

  /** In a counter with distinct keys, a key is among the pairs of count v exactly when its count is v. */
  lemma KeysWithCount<K>(c: seq<(K, nat)>, v: nat, k: K)
    requires Distinct(Firsts(c))
    ensures k in Firsts(WithKey(c, CountKey, v as real)) <==> k in Firsts(c) && CountIn(c, k) == v
  {
    if k in Firsts(c) && CountIn(c, k) == v {
      CountedKeyIsKept(c, v, k);
    }
    if k in Firsts(WithKey(c, CountKey, v as real)) {
      KeptKeyIsCounted(c, v, k);
    }
  }

  lemma CountedKeyIsKept<K>(c: seq<(K, nat)>, v: nat, k: K)
    requires Distinct(Firsts(c))
    requires k in Firsts(c) && CountIn(c, k) == v
    ensures k in Firsts(WithKey(c, CountKey, v as real))
  {
    var w := WithKey(c, CountKey, v as real);
    WithKeyMembers(c, CountKey, v as real);
    var i :| 0 <= i < |c| && Firsts(c)[i] == k;
    CountInOfDistinct(c, i);
    assert CountKey(c[i]) == v as real;
    assert c[i] in w;
    var j :| 0 <= j < |w| && w[j] == c[i];
    assert Firsts(w)[j] == k;
  }

  lemma KeptKeyIsCounted<K>(c: seq<(K, nat)>, v: nat, k: K)
    requires Distinct(Firsts(c))
    requires k in Firsts(WithKey(c, CountKey, v as real))
    ensures k in Firsts(c) && CountIn(c, k) == v
  {
    var w := WithKey(c, CountKey, v as real);
    WithKeyMembers(c, CountKey, v as real);
    var j :| 0 <= j < |w| && Firsts(w)[j] == k;
    assert w[j] in c;
    var i :| 0 <= i < |c| && c[i] == w[j];
    assert Firsts(c)[i] == k;
    CountInOfDistinct(c, i);
  }

  /** The largest count of a non-empty counter with distinct keys bounds every key's count and is
      the count of some key. */
  lemma MaxCountBounds<K>(c: seq<(K, nat)>, k: K)
    requires Distinct(Firsts(c)) && |c| > 0
    ensures k in Firsts(c) ==> CountIn(c, k) as real <= MaxKey(c, CountKey)
  {
    if k in Firsts(c) {
      var i :| 0 <= i < |c| && Firsts(c)[i] == k;
      CountInOfDistinct(c, i);
      assert c[i] in c;
    }
  }

  /** `most_common()` cut after its leading group, keys only: the keys with the largest count, in
      insertion order. An empty counter has none. */
  function TopKeys<K>(c: seq<(K, nat)>): (r: seq<K>)
    ensures r == [] <==> c == []
  {
    var mostCommon := MostCommon(c);
    if mostCommon == [] then [] else Firsts(mostCommon[..TopCount(mostCommon)])
  }

  /** The top keys are the keys that have the largest count, in insertion order. */
  lemma TopKeysHaveMaxCount<K>(c: seq<(K, nat)>)
    requires |c| > 0
    ensures TopKeys(c) == Firsts(WithKey(c, CountKey, MaxKey(c, CountKey)))
  {
    TopOfMostCommon(c);
  }

  /** k is a key of c and no key has a larger count. */
  ghost predicate HasMaxCount<K>(c: seq<(K, nat)>, k: K) {
    k in Firsts(c) && forall k' :: k' in Firsts(c) ==> CountIn(c, k') <= CountIn(c, k)
  }

  /** The top keys of a counter with distinct keys are exactly the keys whose count no other
      key's count exceeds. */
  lemma TopKeysAreMax<K>(c: seq<(K, nat)>, k: K)
    requires Distinct(Firsts(c)) && |c| > 0
    ensures k in TopKeys(c) <==> HasMaxCount(c, k)
  {
    var i, top := TopKeysHaveCount(c, k);
    HasMaxCountIsTop(c, k, i, top, TopKeys(c));
  }

  /** When some key's count bounds all counts, the keys of that count are those with the largest. */
  lemma HasMaxCountIsTop<K>(c: seq<(K, nat)>, k: K, i: nat, top: nat, t: seq<K>)
    requires i < |c| && c[i].0 in Firsts(c) && CountIn(c, c[i].0) == top
    requires forall k' :: k' in Firsts(c) ==> CountIn(c, k') <= top
    requires k in t <==> k in Firsts(c) && CountIn(c, k) == top
    ensures k in t <==> HasMaxCount(c, k)
  {
    if HasMaxCount(c, k) {
      assert CountIn(c, c[i].0) <= CountIn(c, k);
    }
  }

  /** The top keys are those with the count of some key at position i, which bounds every count. */
  lemma TopKeysHaveCount<K>(c: seq<(K, nat)>, k: K) returns (i: nat, top: nat)
    requires Distinct(Firsts(c)) && |c| > 0
    ensures i < |c| && c[i].0 in Firsts(c) && CountIn(c, c[i].0) == top
    ensures k in TopKeys(c) <==> k in Firsts(c) && CountIn(c, k) == top
    ensures forall k' :: k' in Firsts(c) ==> CountIn(c, k') <= top
  {
    TopKeysHaveMaxCount(c);
    i :| 0 <= i < |c| && CountKey(c[i]) == MaxKey(c, CountKey);
    top := c[i].1;
    CountInOfDistinct(c, i);
    assert Firsts(c)[i] == c[i].0;
    forall k' | k' in Firsts(c)
      ensures CountIn(c, k') <= top
    {
      MaxCountBounds(c, k');
    }
    KeysWithCount(c, top, k);
  }
}
