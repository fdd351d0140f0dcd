/** Table operations the scripts get from pandas: `unique()` and
    `drop_duplicates()` (distinct values in first-appearance order), boolean
    row selection by a key column, and `sort_values` on an integer key. */
module Seqs {
  import opened Wrappers

  predicate NoDups<T(==)>(s: seq<T>) {
    forall i, j :: 0 <= i < j < |s| ==> s[i] != s[j]
  }

  /** Position of the first occurrence of `x` in `s`. */
  function IndexOf<T(==)>(s: seq<T>, x: T): (r: nat)
    requires x in s
    ensures r < |s| && s[r] == x
    ensures forall j :: 0 <= j < r ==> s[j] != x
  {
    if s[0] == x then 0 else 1 + IndexOf(s[1..], x)
  }

  /** `pd.unique(s)`: each distinct value once, in order of first appearance. */
  function Distinct<T(==,!new)>(s: seq<T>): (r: seq<T>)
    ensures forall x :: x in r <==> x in s
    ensures NoDups(r)
    ensures |r| <= |s|
  {
    if s == [] then []
    else
      var d := Distinct(s[..|s| - 1]);
      var x := s[|s| - 1];
      assert forall y :: y in s <==> y in s[..|s| - 1] || y == x;
      if x in d then d else d + [x]
  }

  /** Order among distinct values is order of first appearance. */
  lemma DistinctIndexOrder<T(!new)>(s: seq<T>, x: T, y: T)
    requires x in Distinct(s) && y in Distinct(s)
    requires IndexOf(Distinct(s), x) <= IndexOf(Distinct(s), y)
    ensures x in s && y in s && IndexOf(s, x) <= IndexOf(s, y)
  {
    DistinctFirstAppearanceOrder(s);
    var d := Distinct(s);
    var a, b := IndexOf(d, x), IndexOf(d, y);
    if a < b {
      assert IndexOf(s, d[a]) < IndexOf(s, d[b]);
    }
  }

  lemma {:induction false} IndexOfPrefix<T>(s: seq<T>, n: nat, x: T)
    requires n <= |s| && x in s[..n]
    ensures IndexOf(s, x) == IndexOf(s[..n], x)
  {
    if s[0] != x {
      assert s[1..][..n - 1] == s[..n][1..];
      IndexOfPrefix(s[1..], n - 1, x);
    }
  }

  /** `unique()` lists values in the order of their first appearance. */
  lemma {:induction false} DistinctFirstAppearanceOrder<T(!new)>(s: seq<T>)
    ensures forall i, j :: 0 <= i < j < |Distinct(s)| ==>
      IndexOf(s, Distinct(s)[i]) < IndexOf(s, Distinct(s)[j])
  {
    if s != [] {
      var p := s[..|s| - 1];
      var x := s[|s| - 1];
      var d := Distinct(p);
      DistinctFirstAppearanceOrder(p);
      forall y | y in d ensures IndexOf(s, y) == IndexOf(p, y) < |p| {
        IndexOfPrefix(s, |p|, y);
      }
      if x !in d {
        assert x !in p;
        assert IndexOf(s, x) == |p|;
      }
    }
  }

  /** A column computed row by row: `f` applied to every element. */
  function Map<A, B>(s: seq<A>, f: A -> B): (r: seq<B>)
    ensures |r| == |s| && forall i :: 0 <= i < |s| ==> r[i] == f(s[i])
  {
    seq(|s|, i requires 0 <= i < |s| => f(s[i]))
  }

  lemma MapMember<A, B>(s: seq<A>, f: A -> B, y: B)
    ensures y in Map(s, f) <==> exists x :: x in s && f(x) == y
  {
    if y in Map(s, f) {
      var i :| 0 <= i < |s| && Map(s, f)[i] == y;
      assert s[i] in s;
    }
    if exists x :: x in s && f(x) == y {
      var x :| x in s && f(x) == y;
      var i :| 0 <= i < |s| && s[i] == x;
      assert Map(s, f)[i] == y;
    }
  }

  /** The number of elements satisfying `p` (`df[mask].shape[0]`). */
  function Count<T>(s: seq<T>, p: T -> bool): (n: nat)
    ensures n <= |s|
  {
    if s == [] then 0 else (if p(s[0]) then 1 else 0) + Count(s[1..], p)
  }

  lemma {:induction false} CountSnoc<T>(s: seq<T>, x: T, p: T -> bool)
    ensures Count(s + [x], p) == Count(s, p) + (if p(x) then 1 else 0)
  {
    if s != [] {
      assert (s + [x])[1..] == s[1..] + [x];
      CountSnoc(s[1..], x, p);
    }
  }

  /** Counting by a condition that is one of two exclusive ones adds up
      the two counts. */
  lemma {:induction false} CountSplit<T>(s: seq<T>, p: T -> bool, a: T -> bool, b: T -> bool)
    requires forall x :: p(x) <==> a(x) || b(x)
    requires forall x :: !(a(x) && b(x))
    ensures Count(s, a) + Count(s, b) == Count(s, p)
  {
    if s != [] {
      CountSplit(s[1..], p, a, b);
    }
  }

  /** Two exclusive conditions count at most every element once. */
  lemma {:induction false} CountExclusive<T>(s: seq<T>, a: T -> bool, b: T -> bool)
    requires forall x :: !(a(x) && b(x))
    ensures Count(s, a) + Count(s, b) <= |s|
  {
    if s != [] {
      CountExclusive(s[1..], a, b);
    }
  }

  lemma {:induction false} CountPositive<T>(s: seq<T>, p: T -> bool)
    ensures Count(s, p) > 0 <==> exists x :: x in s && p(x)
  {
    if s != [] {
      CountPositive(s[1..], p);
      assert forall x :: x in s <==> x == s[0] || x in s[1..];
    }
  }

  lemma MapAppend<A, B>(s: seq<A>, t: seq<A>, f: A -> B)
    ensures Map(s + t, f) == Map(s, f) + Map(t, f)
  {
  }

  /** `df[df[col] == k]`: the rows whose key is `k`, each as often as in the
      table (`SelectMultiset`), in table order (`SelectAppend`). */
  function Select<T(!new), K(==)>(s: seq<T>, key: T -> K, k: K): (r: seq<T>)
    ensures |r| <= |s|
    ensures forall x :: x in r <==> x in s && key(x) == k
  {
    if s == [] then []
    else (if key(s[0]) == k then [s[0]] else []) + Select(s[1..], key, k)
  }

  /** Each row whose key is `k` is kept as often as the table has it; no
      other row is kept. */
  lemma {:induction false} SelectMultiset<T(!new), K>(s: seq<T>, key: T -> K, k: K, x: T)
    ensures multiset(Select(s, key, k))[x] == if key(x) == k then multiset(s)[x] else 0
  {
    if s != [] {
      SelectMultiset(s[1..], key, k, x);
      assert s == [s[0]] + s[1..];
    }
  }

  /** Selection keeps the order of the table: selecting from two pieces one
      after the other is selecting from their concatenation, and a single
      row is kept exactly when its key is `k`. */
  lemma {:induction false} SelectAppend<T(!new), K>(s: seq<T>, t: seq<T>, key: T -> K, k: K, x: T)
    ensures Select(s + t, key, k) == Select(s, key, k) + Select(t, key, k)
    ensures Select([x], key, k) == if key(x) == k then [x] else []
  {
    assert [x][1..] == [];
    if s == [] {
      assert s + t == t;
    } else {
      SelectAppend(s[1..], t, key, k, x);
      var head := if key(s[0]) == k then [s[0]] else [];
      assert (s + t)[0] == s[0] && (s + t)[1..] == s[1..] + t;
      assert Select(s + t, key, k) == head + Select(s[1..] + t, key, k);
      AppendAssoc(head, Select(s[1..], key, k), Select(t, key, k));
    }
  }

  /** Selecting then applying `f` is applying `f` then selecting, when the
      two keys agree on every element. */
  lemma {:induction false} SelectMap<A(!new), B(!new), K1, K2>(s: seq<A>, f: A -> B, key1: A -> K1, k1: K1, key2: B -> K2, k2: K2)
    requires forall x :: x in s ==> (key1(x) == k1 <==> key2(f(x)) == k2)
    ensures Map(Select(s, key1, k1), f) == Select(Map(s, f), key2, k2)
  {
    if s != [] {
      SelectMap(s[1..], f, key1, k1, key2, k2);
      assert Map(s, f) == [f(s[0])] + Map(s[1..], f);
      MapAppend(if key1(s[0]) == k1 then [s[0]] else [], Select(s[1..], key1, k1), f);
    }
  }

  /** `drop_duplicates` on a key (or `groupby(key).first()` on a table without
      missing cells): the first element of every key, in table order. */
  function DistinctBy<T, K(==)>(s: seq<T>, key: T -> K): (r: seq<T>)
    ensures |r| <= |s|
  {
    if s == [] then []
    else
      var d := DistinctBy(s[..|s| - 1], key);
      var x := s[|s| - 1];
      if key(x) in Map(d, key) then d else d + [x]
  }

  /** The keys kept are the keys of the table. */
  lemma {:induction false} DistinctByKeys<T, K>(s: seq<T>, key: T -> K, k: K)
    ensures k in Map(DistinctBy(s, key), key) <==> k in Map(s, key)
  {
    if s != [] {
      var p, x := s[..|s| - 1], s[|s| - 1];
      var d := DistinctBy(p, key);
      DistinctByKeys(p, key, k);
      MapAppend(p, [x], key);
      assert s == p + [x];
      MapAppend(d, [x], key);
    }
  }

  /** Each key is kept once. */
  lemma {:induction false} DistinctByUnique<T, K>(s: seq<T>, key: T -> K)
    ensures NoDups(Map(DistinctBy(s, key), key))
  {
    if s != [] {
      var p, x := s[..|s| - 1], s[|s| - 1];
      DistinctByUnique(p, key);
      MapAppend(DistinctBy(p, key), [x], key);
    }
  }

  /** An element at two places is counted at least twice. */
  lemma TwiceCounted<T>(t: seq<T>, i: int, j: int)
    requires 0 <= i < j < |t| && t[i] == t[j]
    ensures multiset(t)[t[i]] >= 2
  {
    assert t == t[..j] + t[j..];
    assert t[i] in t[..j];
    assert t[j] in t[j..];
  }

  /** An element counted at least twice is at two places. */
  lemma {:induction false} TwicePlaced<T>(s: seq<T>, x: T) returns (p: nat, q: nat)
    requires multiset(s)[x] >= 2
    ensures p < q < |s| && s[p] == x && s[q] == x
  {
    assert s == [s[0]] + s[1..];
    if s[0] == x {
      assert x in multiset(s[1..]);
      var k :| 0 <= k < |s[1..]| && s[1..][k] == x;
      p, q := 0, k + 1;
    } else {
      p, q := TwicePlaced(s[1..], x);
      p, q := p + 1, q + 1;
    }
  }

  /** Two places of a permutation of `s` hold the elements of two distinct
      places of `s`. */
  lemma PermutedPlaces<T>(s: seq<T>, t: seq<T>, i: int, j: int) returns (p: nat, q: nat)
    requires multiset(s) == multiset(t) && 0 <= i < j < |t|
    ensures p < |s| && q < |s| && p != q && s[p] == t[i] && s[q] == t[j]
  {
    if t[i] == t[j] {
      TwiceCounted(t, i, j);
      p, q := TwicePlaced(s, t[i]);
    } else {
      assert t[i] in multiset(s) && t[j] in multiset(s);
      p :| 0 <= p < |s| && s[p] == t[i];
      q :| 0 <= q < |s| && s[q] == t[j];
    }
  }

  /** Reordering a sequence whose keys are distinct keeps them distinct. */
  lemma PermutationNoDups<T, K>(s: seq<T>, t: seq<T>, key: T -> K)
    requires multiset(s) == multiset(t) && NoDups(Map(s, key))
    ensures NoDups(Map(t, key))
  {
    forall i, j | 0 <= i < j < |t| ensures key(t[i]) != key(t[j]) {
      var p, q := PermutedPlaces(s, t, i, j);
      if p < q {
        assert Map(s, key)[p] != Map(s, key)[q];
      } else {
        assert Map(s, key)[q] != Map(s, key)[p];
      }
    }
  }

  /** `x` is at `i`, and no element before it has its key. */
  ghost predicate FirstOfKey<T, K>(s: seq<T>, key: T -> K, i: int, x: T) {
    0 <= i < |s| && s[i] == x && forall j :: 0 <= j < i ==> key(s[j]) != key(x)
  }

  lemma FirstOfKeyPrefix<T, K>(s: seq<T>, key: T -> K, n: nat, i: int, x: T)
    requires 0 <= i < n <= |s|
    ensures FirstOfKey(s, key, i, x) <==> FirstOfKey(s[..n], key, i, x)
  {
  }

  lemma FirstOfKeyLast<T, K>(s: seq<T>, key: T -> K, x: T)
    requires s != []
    ensures FirstOfKey(s, key, |s| - 1, x) <==> x == s[|s| - 1] && key(x) !in Map(s[..|s| - 1], key)
  {
    var p := s[..|s| - 1];
    MapMember(p, key, key(x));
    if key(x) in Map(p, key) {
      var y :| y in p && key(y) == key(x);
      var j :| 0 <= j < |p| && p[j] == y;
      assert s[j] == y;
    }
  }

  /** An element is kept exactly when it is the first of its key. */
  lemma {:induction false} DistinctByMember<T, K>(s: seq<T>, key: T -> K, x: T)
    ensures x in DistinctBy(s, key) <==> exists i :: FirstOfKey(s, key, i, x)
  {
    if s != [] {
      var p, last := s[..|s| - 1], s[|s| - 1];
      DistinctByMember(p, key, x);
      DistinctByKeys(p, key, key(last));
      FirstOfKeyLast(s, key, x);
      forall i | 0 <= i < |p|
        ensures FirstOfKey(s, key, i, x) <==> FirstOfKey(p, key, i, x)
      {
        FirstOfKeyPrefix(s, key, |p|, i, x);
      }
      if exists i :: FirstOfKey(s, key, i, x) {
        var i :| FirstOfKey(s, key, i, x);
        assert i < |p| ==> FirstOfKey(p, key, i, x);
      }
    }
  }

  /** A key of the last element is among the keys before it exactly when
      its image's key is among the images' keys. */
  lemma KeyBefore<A, B, K1, K2>(p: seq<A>, x: A, f: A -> B, key1: A -> K1, key2: B -> K2)
    requires forall y :: y in p ==> (key1(y) == key1(x) <==> key2(f(y)) == key2(f(x)))
    ensures key1(x) in Map(p, key1) <==> key2(f(x)) in Map(Map(p, f), key2)
  {
    MapMember(p, key1, key1(x));
    MapMember(Map(p, f), key2, key2(f(x)));
    if key1(x) in Map(p, key1) {
      var y :| y in p && key1(y) == key1(x);
      assert f(y) in Map(p, f);
    }
    if key2(f(x)) in Map(Map(p, f), key2) {
      var z :| z in Map(p, f) && key2(z) == key2(f(x));
      MapMember(p, f, z);
    }
  }

  /** Keeping the first of each key commutes with `f` when `f` keeps keys
      apart exactly as they were. */
  lemma {:induction false} DistinctByMap<A, B, K1, K2>(s: seq<A>, f: A -> B, key1: A -> K1, key2: B -> K2)
    requires forall x, y :: x in s && y in s ==> (key1(x) == key1(y) <==> key2(f(x)) == key2(f(y)))
    ensures Map(DistinctBy(s, key1), f) == DistinctBy(Map(s, f), key2)
  {
    if s != [] {
      var p, x := s[..|s| - 1], s[|s| - 1];
      assert forall y :: y in p ==> y in s;
      DistinctByMap(p, f, key1, key2);
      KeyBefore(p, x, f, key1, key2);
      assert s == p + [x];
      DistinctBySnocMap(p, x, f, key1, key2);
    }
  }

  /** The step of `DistinctByMap`: one more element. */
  lemma DistinctBySnocMap<A, B, K1, K2>(p: seq<A>, x: A, f: A -> B, key1: A -> K1, key2: B -> K2)
    requires Map(DistinctBy(p, key1), f) == DistinctBy(Map(p, f), key2)
    requires key1(x) in Map(p, key1) <==> key2(f(x)) in Map(Map(p, f), key2)
    ensures Map(DistinctBy(p + [x], key1), f) == DistinctBy(Map(p + [x], f), key2)
  {
    var d1 := DistinctBy(p, key1);
    DistinctBySnoc(p, x, key1);
    MapSnoc(p, x, f);
    DistinctBySnoc(Map(p, f), f(x), key2);
    DistinctByKeys(p, key1, key1(x));
    DistinctByKeys(Map(p, f), key2, key2(f(x)));
    MapSnoc(d1, x, f);
  }

  lemma DistinctBySnoc<T, K>(p: seq<T>, x: T, key: T -> K)
    ensures DistinctBy(p + [x], key) ==
      if key(x) in Map(DistinctBy(p, key), key) then DistinctBy(p, key) else DistinctBy(p, key) + [x]
  {
    assert (p + [x])[..|p|] == p;
  }

  lemma MapSnoc<A, B>(p: seq<A>, x: A, f: A -> B)
    ensures Map(p + [x], f) == Map(p, f) + [f(x)]
  {
  }

  /** Sum over `ks` of the sizes of the corresponding selections. */
  function SumSizes<T(!new), K(==)>(s: seq<T>, key: T -> K, ks: seq<K>): nat {
    if ks == [] then 0
    else SumSizes(s, key, ks[..|ks| - 1]) + |Select(s, key, ks[|ks| - 1])|
  }

  /** Number of rows whose key lies in `keys`. */
  function CountIn<T, K>(s: seq<T>, key: T -> K, keys: set<K>): (n: nat)
    ensures n <= |s|
  {
    if s == [] then 0
    else (if key(s[0]) in keys then 1 else 0) + CountIn(s[1..], key, keys)
  }

  lemma {:induction false} CountInAdd<T(!new), K>(s: seq<T>, key: T -> K, keys: set<K>, k: K)
    requires k !in keys
    ensures CountIn(s, key, keys + {k}) == CountIn(s, key, keys) + |Select(s, key, k)|
  {
    if s != [] {
      CountInAdd(s[1..], key, keys, k);
    }
  }

  lemma {:induction false} CountInNone<T(!new), K>(s: seq<T>, key: T -> K)
    ensures CountIn(s, key, {}) == 0
  {
    if s != [] {
      CountInNone(s[1..], key);
    }
  }

  lemma {:induction false} SumSizesCount<T(!new), K>(s: seq<T>, key: T -> K, ks: seq<K>)
    requires NoDups(ks)
    ensures SumSizes(s, key, ks) == CountIn(s, key, set k | k in ks)
  {
    if ks == [] {
      assert (set k | k in ks) == {};
      CountInNone(s, key);
    } else {
      var p := ks[..|ks| - 1];
      var k := ks[|ks| - 1];
      assert k !in p;
      SumSizesCount(s, key, p);
      assert (set x | x in ks) == (set x | x in p) + {k};
      CountInAdd(s, key, (set x | x in p), k);
    }
  }

  /** Selections by distinct keys are disjoint, so their sizes add up to at
      most the size of the table. */
  lemma SumSizesBound<T(!new), K>(s: seq<T>, key: T -> K, ks: seq<K>)
    requires NoDups(ks)
    ensures SumSizes(s, key, ks) <= |s|
  {
    SumSizesCount(s, key, ks);
  }

  // ---------------------------------------------------------------------
  // sort_values on an integer key

  predicate SortedBy<T>(s: seq<T>, key: T -> int) {
    forall i, j :: 0 <= i < j < |s| ==> key(s[i]) <= key(s[j])
  }

  function Insert<T(!new)>(x: T, s: seq<T>, key: T -> int): (r: seq<T>)
    requires SortedBy(s, key)
    ensures multiset(r) == multiset(s) + multiset{x}
    ensures forall y :: y in r <==> y == x || y in s
    ensures SortedBy(r, key)
  {
    if s == [] then [x]
    else if key(x) <= key(s[0]) then [x] + s
    else
      var t := Insert(x, s[1..], key);
      assert s == [s[0]] + s[1..];
      HeadLeast(s, key);
      LeadsSorted(s[0], t, key);
      [s[0]] + t
  }

  lemma HeadLeast<T>(s: seq<T>, key: T -> int)
    requires s != [] && SortedBy(s, key)
    ensures forall y :: y in s ==> key(s[0]) <= key(y)
  {
    forall y | y in s ensures key(s[0]) <= key(y) {
      var j :| 0 <= j < |s| && s[j] == y;
    }
  }

  lemma LeadsSorted<T>(x: T, t: seq<T>, key: T -> int)
    requires SortedBy(t, key)
    requires forall y :: y in t ==> key(x) <= key(y)
    ensures SortedBy([x] + t, key)
  {
    var r := [x] + t;
    forall i, j | 0 <= i < j < |r| ensures key(r[i]) <= key(r[j]) {
      assert r[j] == t[j - 1];
      if i > 0 {
        assert r[i] == t[i - 1];
      } else {
        assert t[j - 1] in t;
      }
    }
  }

  lemma {:induction false} MapInsert<T(!new), B>(x: T, s: seq<T>, key: T -> int, f: T -> B)
    requires SortedBy(s, key)
    ensures multiset(Map(Insert(x, s, key), f)) == multiset(Map(s, f)) + multiset{f(x)}
  {
    if s == [] {
    } else if key(x) <= key(s[0]) {
      MapCons(x, s, f);
    } else {
      var t := Insert(x, s[1..], key);
      assert Insert(x, s, key) == [s[0]] + t;
      MapInsert(x, s[1..], key, f);
      MapCons(s[0], t, f);
      assert s == [s[0]] + s[1..];
      MapCons(s[0], s[1..], f);
    }
  }

  lemma MapCons<T, B>(x: T, rest: seq<T>, f: T -> B)
    ensures multiset(Map([x] + rest, f)) == multiset(Map(rest, f)) + multiset{f(x)}
  {
    MapAppend([x], rest, f);
  }

  /** Applying `f` to the sorted sequence gives the images of the input,
      each as often. */
  lemma {:induction false} MapSortBy<T(!new), B>(s: seq<T>, key: T -> int, f: T -> B)
    ensures multiset(Map(SortBy(s, key), f)) == multiset(Map(s, f))
  {
    if s != [] {
      var x, rest := s[0], s[1..];
      assert s == [x] + rest;
      MapInsert(x, SortBy(rest, key), key, f);
      MapSortBy(rest, key, f);
      MapCons(x, rest, f);
    }
  }

  /** Applying `f` keeps a sequence sorted when the new key of every
      image is the old key. */
  lemma SortedByMap<A, B>(s: seq<A>, f: A -> B, key1: A -> int, key2: B -> int)
    requires SortedBy(s, key1)
    requires forall x :: x in s ==> key2(f(x)) == key1(x)
    ensures SortedBy(Map(s, f), key2)
  {
    var t := Map(s, f);
    forall i, j | 0 <= i < j < |t| ensures key2(t[i]) <= key2(t[j]) {
      assert s[i] in s && s[j] in s;
    }
  }

  /** A stable ascending sort: sorted, and a permutation of the input. */
  function SortBy<T(!new)>(s: seq<T>, key: T -> int): (r: seq<T>)
    ensures multiset(r) == multiset(s)
    ensures SortedBy(r, key)
  {
    if s == [] then []
    else
      assert s == [s[0]] + s[1..];
      Insert(s[0], SortBy(s[1..], key), key)
  }

  // ---------------------------------------------------------------------
  // A loop that appends each element's rows and stops at the first error

  /** The rows of `xs`, element by element, each element's rows computed by
      `f`; the first element whose rows cannot be computed aborts the run. */

  function Concat<T, R, E>(f: T -> Result<seq<R>, E>, xs: seq<T>): Result<seq<R>, E> {
    if xs == [] then Ok([])
    else
      match Concat(f, xs[..|xs| - 1])
      case Err(e) => Err(e)
      case Ok(rows) =>
        match f(xs[|xs| - 1])
        case Err(e) => Err(e)
        case Ok(more) => Ok(rows + more)
  }

  lemma ConcatSnoc<T, R, E>(f: T -> Result<seq<R>, E>, xs: seq<T>, x: T)
    ensures Concat(f, xs + [x]) ==
      match Concat(f, xs)
      case Err(e) => Err(e)
      case Ok(rows) =>
        match f(x)
        case Err(e) => Err(e)
        case Ok(more) => Ok(rows + more)
  {
    assert (xs + [x])[..|xs|] == xs;
  }

  lemma ConcatStep<T, R, E>(f: T -> Result<seq<R>, E>, xs: seq<T>, k: nat, rows: seq<R>)
    requires k < |xs| && Concat(f, xs[..k]) == Ok(rows)
    ensures Concat(f, xs[..k + 1]) ==
      match f(xs[k])
      case Err(e) => Err(e)
      case Ok(more) => Ok(rows + more)
  {
    assert xs[..k + 1][..k] == xs[..k];
  }

  /** Once a prefix fails, the whole run fails the same way. */
  lemma {:induction false} ConcatErrPrefix<T, R, E>(f: T -> Result<seq<R>, E>, xs: seq<T>, k: nat)
    requires k <= |xs| && Concat(f, xs[..k]).Err?
    decreases |xs| - k
    ensures Concat(f, xs) == Concat(f, xs[..k])
  {
    if k < |xs| {
      assert xs[..k + 1][..k] == xs[..k];
      ConcatErrPrefix(f, xs, k + 1);
    } else {
      assert xs[..k] == xs;
    }
  }

  /** The run fails exactly when one of its elements does. */
  lemma {:induction false} ConcatFails<T, R, E>(f: T -> Result<seq<R>, E>, xs: seq<T>)
    ensures Concat(f, xs).Err? <==> exists x :: x in xs && f(x).Err?
  {
    if xs != [] {
      var p := xs[..|xs| - 1];
      ConcatFails(f, p);
      assert forall x :: x in xs <==> x in p || x == xs[|xs| - 1];
    }
  }

  /** `Concat` depends only on what `f` gives for the elements it visits. */
  lemma {:induction false} ConcatAgree<T, R, E>(f: T -> Result<seq<R>, E>, g: T -> Result<seq<R>, E>, xs: seq<T>)
    requires forall x :: x in xs ==> f(x) == g(x)
    ensures Concat(f, xs) == Concat(g, xs)
  {
    if xs != [] {
      ConcatAgree(f, g, xs[..|xs| - 1]);
    }
  }

  lemma TakeAll<T>(s: seq<T>)
    ensures s[..|s|] == s
  {
  }

  lemma AppendAssoc<T>(a: seq<T>, b: seq<T>, c: seq<T>)
    ensures (a + b) + c == a + (b + c)
  {
  }

  /** Runs concatenate. */
  lemma {:induction false} ConcatAppend<T, R, E>(f: T -> Result<seq<R>, E>, xs: seq<T>, ys: seq<T>)
    requires Concat(f, xs).Ok? && Concat(f, ys).Ok?
    ensures Concat(f, xs + ys) == Ok(Concat(f, xs).value + Concat(f, ys).value)
  {
    if ys == [] {
      assert xs + ys == xs;
      assert Concat(f, xs).value + [] == Concat(f, xs).value;
    } else {
      var p, last := ys[..|ys| - 1], ys[|ys| - 1];
      ConcatSnoc(f, p, last);
      assert p + [last] == ys;
      ConcatAppend(f, xs, p);
      ConcatSnoc(f, xs + p, last);
      assert (xs + p) + [last] == xs + ys;
      AppendAssoc(Concat(f, xs).value, Concat(f, p).value, f(last).value);
    }
  }

  /** A row of the run is a row of one of its elements. */
  lemma {:induction false} ConcatMember<T, R, E>(f: T -> Result<seq<R>, E>, xs: seq<T>, y: R)
    requires Concat(f, xs).Ok?
    ensures y in Concat(f, xs).value <==> exists x :: x in xs && f(x).Ok? && y in f(x).value
  {
    if xs != [] {
      var p, last := xs[..|xs| - 1], xs[|xs| - 1];
      ConcatMember(f, p, y);
      assert forall x :: x in xs <==> x in p || x == last;
    }
  }

  /** When each key's rows number at most half of the table rows with that
      key, the run over distinct keys has at most half as many rows as the
      table. */
  lemma {:induction false} ConcatHalfSizes<T(!new), K(!new), R, E>(f: K -> Result<seq<R>, E>, s: seq<T>, key: T -> K, ks: seq<K>)
    requires Concat(f, ks).Ok?
    requires forall k :: k in ks && f(k).Ok? ==> 2 * |f(k).value| <= |Select(s, key, k)|
    ensures 2 * |Concat(f, ks).value| <= SumSizes(s, key, ks)
  {
    if ks != [] {
      var p := ks[..|ks| - 1];
      assert forall k :: k in p ==> k in ks;
      ConcatHalfSizes(f, s, key, p);
    }
  }

  /** A run over distinct keys whose rows carry their key lists the rows
      key by key, in the order of the keys. */
  lemma {:induction false} ConcatGrouped<T, R, E>(f: T -> Result<seq<R>, E>, xs: seq<T>, tag: R -> T)
    requires NoDups(xs) && Concat(f, xs).Ok?
    requires forall x, y :: x in xs && f(x).Ok? && y in f(x).value ==> tag(y) == x
    ensures forall i :: 0 <= i < |Concat(f, xs).value| ==> tag(Concat(f, xs).value[i]) in xs
    ensures var out := Concat(f, xs).value;
      forall i, j :: 0 <= i < j < |out| ==> IndexOf(xs, tag(out[i])) <= IndexOf(xs, tag(out[j]))
  {
    if xs != [] {
      var p, last := xs[..|xs| - 1], xs[|xs| - 1];
      assert forall x :: x in p ==> x in xs;
      ConcatGrouped(f, p, tag);
      var prev, more := Concat(f, p).value, f(last).value;
      var out := Concat(f, xs).value;
      assert out == prev + more;
      assert IndexOf(xs, last) == |p|;
      forall i | 0 <= i < |prev|
        ensures tag(out[i]) in p && IndexOf(xs, tag(out[i])) == IndexOf(p, tag(out[i])) < |p|
      {
        ConcatMember(f, p, prev[i]);
        IndexOfPrefix(xs, |p|, tag(prev[i]));
        assert xs[..|p|] == p;
      }
      forall j | |prev| <= j < |out| ensures tag(out[j]) == last {
        assert out[j] == more[j - |prev|];
      }
    }
  }

  /** A run over distinct keys in which each key gives at most one row,
      tagged with that key, gives each key at most once. */
  lemma {:induction false} ConcatSingles<T, R, E>(f: T -> Result<seq<R>, E>, xs: seq<T>, tag: R -> T)
    requires NoDups(xs) && Concat(f, xs).Ok?
    requires forall x :: x in xs && f(x).Ok? ==> |f(x).value| <= 1
    requires forall x, y :: x in xs && f(x).Ok? && y in f(x).value ==> tag(y) == x
    ensures var out := Concat(f, xs).value;
      forall i, j :: 0 <= i < j < |out| ==> tag(out[i]) != tag(out[j])
  {
    if xs != [] {
      var p, last := xs[..|xs| - 1], xs[|xs| - 1];
      assert forall x :: x in p ==> x in xs;
      ConcatSingles(f, p, tag);
      var prev, more := Concat(f, p).value, f(last).value;
      var out := Concat(f, xs).value;
      assert out == prev + more;
      assert last !in p;
      forall i, j | 0 <= i < j < |out| ensures tag(out[i]) != tag(out[j]) {
        if j >= |prev| {
          ConcatMember(f, p, prev[i]);
          assert out[j] in more;
        }
      }
    }
  }

  /** A run whose every element gives one row when it satisfies `p` and
      none otherwise has as many rows as elements satisfying `p`. */
  lemma {:induction false} ConcatCount<T, R, E>(f: T -> Result<seq<R>, E>, xs: seq<T>, p: T -> bool)
    requires forall x :: x in xs ==> f(x).Ok? && |f(x).value| == (if p(x) then 1 else 0)
    ensures Concat(f, xs).Ok? && |Concat(f, xs).value| == Count(xs, p)
  {
    if xs != [] {
      var q, last := xs[..|xs| - 1], xs[|xs| - 1];
      assert forall x :: x in q ==> x in xs;
      ConcatCount(f, q, p);
      assert xs == q + [last];
      CountSnoc(q, last, p);
    }
  }

  /** Position of the first element with key `k`. */
  function FirstIndex<T, K(==)>(s: seq<T>, key: T -> K, k: K): (r: nat)
    requires exists i :: 0 <= i < |s| && key(s[i]) == k
    ensures r < |s| && key(s[r]) == k
    ensures forall j :: 0 <= j < r ==> key(s[j]) != k
  {
    if key(s[0]) == k then 0
    else
      var i :| 0 <= i < |s| && key(s[i]) == k;
      assert key(s[1..][i - 1]) == k;
      1 + FirstIndex(s[1..], key, k)
  }

  /** The head of a selection is the first element with that key. */
  lemma {:induction false} SelectFirst<T(!new), K>(s: seq<T>, key: T -> K, k: K)
    requires exists i :: 0 <= i < |s| && key(s[i]) == k
    ensures Select(s, key, k) != [] && Select(s, key, k)[0] == s[FirstIndex(s, key, k)]
  {
    if key(s[0]) != k {
      var i :| 0 <= i < |s| && key(s[i]) == k;
      assert key(s[1..][i - 1]) == k;
      SelectFirst(s[1..], key, k);
    }
  }

  lemma {:induction false} SelectNone<T(!new), K>(s: seq<T>, key: T -> K, k: K)
    requires forall i :: 0 <= i < |s| ==> key(s[i]) != k
    ensures Select(s, key, k) == []
  {
    if s != [] {
      SelectNone(s[1..], key, k);
    }
  }

  /** The rows' keys occur in `s`, in order of their first appearance there. */
  predicate InFirstAppearanceOrder<T(==), R>(out: seq<R>, s: seq<T>, tag: R -> T) {
    && (forall i :: 0 <= i < |out| ==> tag(out[i]) in s)
    && (forall i, j :: 0 <= i < j < |out| ==> IndexOf(s, tag(out[i])) <= IndexOf(s, tag(out[j])))
  }

  /** A run over the distinct keys of `s` whose rows carry their key lists
      the rows in order of the first appearance of their keys in `s`. */
  lemma ConcatFirstAppearanceOrder<T(!new), R, E>(f: T -> Result<seq<R>, E>, s: seq<T>, tag: R -> T)
    requires Concat(f, Distinct(s)).Ok?
    requires forall x, y :: x in Distinct(s) && f(x).Ok? && y in f(x).value ==> tag(y) == x
    ensures InFirstAppearanceOrder(Concat(f, Distinct(s)).value, s, tag)
  {
    var out := Concat(f, Distinct(s)).value;
    ConcatGrouped(f, Distinct(s), tag);
    forall i, j | 0 <= i < j < |out|
      ensures IndexOf(s, tag(out[i])) <= IndexOf(s, tag(out[j]))
    {
      DistinctIndexOrder(s, tag(out[i]), tag(out[j]));
    }
  }
  // ---------------------------------------------------------------------
  // A loop that updates one value element by element and stops at the
  // first error

  function Fold<S, T, E>(step: (S, T) -> Result<S, E>, init: S, xs: seq<T>): Result<S, E> {
    if xs == [] then Ok(init)
    else
      match Fold(step, init, xs[..|xs| - 1])
      case Err(e) => Err(e)
      case Ok(s) => step(s, xs[|xs| - 1])
  }

  lemma FoldStep<S, T, E>(step: (S, T) -> Result<S, E>, init: S, xs: seq<T>, k: nat, s: S)
    requires k < |xs| && Fold(step, init, xs[..k]) == Ok(s)
    ensures Fold(step, init, xs[..k + 1]) == step(s, xs[k])
  {
    assert xs[..k + 1][..k] == xs[..k];
  }

  /** Once a prefix fails, the whole loop fails the same way. */
  lemma {:induction false} FoldErrPrefix<S, T, E>(step: (S, T) -> Result<S, E>, init: S, xs: seq<T>, k: nat)
    requires k <= |xs| && Fold(step, init, xs[..k]).Err?
    decreases |xs| - k
    ensures Fold(step, init, xs) == Fold(step, init, xs[..k])
  {
    if k < |xs| {
      assert xs[..k + 1][..k] == xs[..k];
      FoldErrPrefix(step, init, xs, k + 1);
    } else {
      assert xs[..k] == xs;
    }
  }

  /** When whether a step fails depends on the element alone, the loop fails
      exactly when one of its elements is bad. */
  lemma {:induction false} FoldFails<S, T, E>(step: (S, T) -> Result<S, E>, init: S, xs: seq<T>, bad: T -> bool)
    requires forall s, x :: step(s, x).Err? <==> bad(x)
    ensures Fold(step, init, xs).Err? <==> exists x :: x in xs && bad(x)
  {
    if xs != [] {
      var p := xs[..|xs| - 1];
      FoldFails(step, init, p, bad);
      assert forall x :: x in xs <==> x in p || x == xs[|xs| - 1];
      match Fold(step, init, p)
      case Ok(s) =>
        var last := xs[|xs| - 1];
        assert Fold(step, init, xs) == step(s, last);
        assert step(s, last).Err? <==> bad(last);
      case Err(_) =>
    }
  }

  /** The last element satisfying `p`, if there is one. */
  function Last<T>(s: seq<T>, p: T -> bool): (r: Option<T>)
    ensures r.None? <==> forall x :: x in s ==> !p(x)
    ensures r.Some? ==>
      exists i :: 0 <= i < |s| && s[i] == r.value && p(s[i]) && (forall j :: i < j < |s| ==> !p(s[j]))
  {
    if s == [] then None
    else if p(s[|s| - 1]) then
      assert s[|s| - 1] == s[|s| - 1];
      Some(s[|s| - 1])
    else
      var r := Last(s[..|s| - 1], p);
      assert forall x :: x in s ==> x in s[..|s| - 1] || x == s[|s| - 1];
      r
  }
}
