/** Sums over sequences and over the values of a finite map, and the lists and sets without
    repeats they run over. */
module Sums {

  function SeqSum(s: seq<int>): int {
    if s == [] then 0 else s[0] + SeqSum(s[1..])
  }

  lemma SeqSumConcat(s: seq<int>, t: seq<int>)
    ensures SeqSum(s + t) == SeqSum(s) + SeqSum(t)
  {
    if s == [] {
      assert s + t == t;
    } else {
      assert (s + t)[1..] == s[1..] + t;
    }
  }

  /** Lists laid one after another. */
  function Flatten<T>(lists: seq<seq<T>>): seq<T> {
    if lists == [] then [] else Flatten(lists[..|lists| - 1]) + lists[|lists| - 1]
  }

  /** The value at `k`, counting an absent key as zero, as a Go map read does. */
  function Get<K>(m: map<K, int>, k: K): int {
    if k in m then m[k] else 0
  }

  /** The sum of every value in `m`. */
  ghost function MapSum<K>(m: map<K, int>): int
    decreases |m.Keys|
  {
    if m == map[] then 0 else
      var k :| k in m;
      assert (m - {k}).Keys == m.Keys - {k};
      m[k] + MapSum(m - {k})
  }

  /** Any key may be taken out first. */
  lemma {:induction false} MapSumRemove<K>(m: map<K, int>, k: K)
    requires k in m
    ensures MapSum(m) == m[k] + MapSum(m - {k})
    decreases |m.Keys|
  {
    var j :| j in m && MapSum(m) == m[j] + MapSum(m - {j});
    if j != k {
      assert (m - {j}).Keys == m.Keys - {j} && (m - {k}).Keys == m.Keys - {k};
      MapSumRemove(m - {j}, k);
      MapSumRemove(m - {k}, j);
      assert m - {j} - {k} == m - {k} - {j};
    }
  }

  lemma MapSumUpdate<K>(m: map<K, int>, k: K, v: int)
    ensures MapSum(m[k := v]) == MapSum(m) - Get(m, k) + v
  {
    var n := m[k := v];
    MapSumRemove(n, k);
    assert n - {k} == m - {k};
    if k in m {
      MapSumRemove(m, k);
    } else {
      assert m - {k} == m;
    }
  }

  function Elems<T>(s: seq<T>): set<T> {
    set x | x in s
  }

  ghost predicate Increasing(s: seq<int>) {
    forall i, j :: 0 <= i < j < |s| ==> s[i] < s[j]
  }

  predicate Distinct<T(==)>(s: seq<T>) {
    forall i, j :: 0 <= i < j < |s| ==> s[i] != s[j]
  }

  function Along<K>(keys: seq<K>, m: map<K, int>): (r: seq<int>)
    ensures |r| == |keys|
    ensures forall i :: 0 <= i < |r| ==> r[i] == Get(m, keys[i])
  {
    seq(|keys|, i requires 0 <= i < |keys| => Get(m, keys[i]))
  }

  /** Reading every key of the map once, in any order, sums the map. */
  lemma {:induction false} SumAlong<K>(keys: seq<K>, m: map<K, int>)
    requires Distinct(keys) && Elems(keys) == m.Keys
    ensures SeqSum(Along(keys, m)) == MapSum(m)
    decreases |keys|
  {
    if keys == [] {
      assert m.Keys == {};
      assert m == map[];
    } else {
      var k := keys[0];
      assert k in Elems(keys);
      forall j ensures j in keys[1..] <==> j in m - {k} {
        if j in m - {k} { assert j in Elems(keys); }
        if j in keys[1..] { assert j in Elems(keys) && j != k; }
      }
      SumAlong(keys[1..], m - {k});
      MapSumRemove(m, k);
      assert Along(keys, m)[1..] == Along(keys[1..], m - {k});
    }
  }

  lemma TwiceIn<T>(s: seq<T>, i: nat, j: nat)
    requires i < j < |s| && s[i] == s[j]
    ensures multiset(s)[s[i]] >= 2
  {
    assert s == s[..j] + [s[j]] + s[j + 1..];
    assert s[i] in s[..j];
  }

  lemma {:induction false} OnceIn<T>(s: seq<T>, x: T)
    requires Distinct(s)
    ensures multiset(s)[x] == if x in s then 1 else 0
  {
    if s != [] {
      OnceIn(s[1..], x);
      assert s == [s[0]] + s[1..];
      if x == s[0] { assert x !in s[1..]; }
    }
  }

  /** Rearranging a list without repeats gives one. */
  lemma StaysDistinct<T>(s: seq<T>, t: seq<T>)
    requires multiset(s) == multiset(t) && Distinct(t)
    ensures Distinct(s) && Elems(s) == Elems(t) && forall x :: x in s <==> x in t
  {
    assert forall x :: x in s <==> x in multiset(s);
    assert forall x :: x in t <==> x in multiset(t);
    forall i, j | 0 <= i < j < |s| ensures s[i] != s[j] {
      if s[i] == s[j] { TwiceIn(s, i, j); OnceIn(t, s[i]); }
    }
  }

  lemma DistinctSnoc<T>(s: seq<T>, x: T)
    requires Distinct(s) && x !in s
    ensures Distinct(s + [x]) && forall y :: y in s + [x] <==> y in s || y == x
  {
  }

  lemma SameSize<T>(a: set<T>, b: set<T>)
    requires a <= b && |a| == |b|
    ensures a == b
  {
    assert |b - a| == |b| - |a|;
  }

  method Pick<T>(s: set<T>) returns (x: T)
    requires s != {}
    ensures x in s
  {
    x :| x in s;
  }

  /** The keys of a map, each once, in no particular order, as a Go range yields them. */
  method KeysOf<K, V>(m: map<K, V>) returns (keys: seq<K>)
    ensures Distinct(keys) && Elems(keys) == m.Keys && forall k :: k in keys <==> k in m
  {
    keys := [];
    var todo := m.Keys;
    while todo != {}
      invariant Distinct(keys) && todo <= m.Keys && forall k :: k in keys <==> k in m.Keys - todo
    {
      var k :| k in todo;
      DistinctSnoc(keys, k);
      keys := keys + [k];
      todo := todo - {k};
    }
  }
}
