/** Counting and sorting over sequences. `Sort` stands for Go's sort package:
    a stable sort by a total preorder. */
module Sorting {

  /** How many elements of `s` satisfy `p`. */
  function Count<T>(s: seq<T>, p: T -> bool): nat {
    if s == [] then 0 else (if p(s[0]) then 1 else 0) + Count(s[1..], p)
  }

  lemma CountConcat<T>(s: seq<T>, t: seq<T>, p: T -> bool)
    ensures Count(s + t, p) == Count(s, p) + Count(t, p)
  {
    if s == [] {
      assert s + t == t;
    } else {
      assert (s + t)[1..] == s[1..] + t;
      CountConcat(s[1..], t, p);
    }
  }

  lemma CountOne<T>(x: T, p: T -> bool)
    ensures Count([x], p) == if p(x) then 1 else 0
  {
  }

  lemma CountBound<T>(s: seq<T>, p: T -> bool)
    ensures Count(s, p) <= |s|
  {
  }

  lemma CountAll<T>(s: seq<T>, p: T -> bool)
    requires forall x :: x in s ==> p(x)
    ensures Count(s, p) == |s|
  {
  }

  lemma CountNone<T>(s: seq<T>, p: T -> bool)
    requires forall x :: x in s ==> !p(x)
    ensures Count(s, p) == 0
  {
  }

  ghost predicate Permutation<T>(s: seq<T>, t: seq<T>) {
    multiset(s) == multiset(t)
  }

  lemma PermutationLength<T>(s: seq<T>, t: seq<T>)
    requires Permutation(s, t)
    ensures |s| == |t|
  {
    assert |multiset(s)| == |s| && |multiset(t)| == |t|;
  }

  lemma DropOne<T>(t: seq<T>, k: nat)
    requires k < |t|
    ensures multiset(t[..k] + t[k + 1..]) == multiset(t) - multiset{t[k]}
  {
    assert t == t[..k] + ([t[k]] + t[k + 1..]);
  }

  lemma PositionOf<T>(t: seq<T>, x: T) returns (k: nat)
    requires x in multiset(t)
    ensures k < |t| && t[k] == x
  {
    assert x in t;
    k :| k < |t| && t[k] == x;
  }

  /** Taking the head of `s` out of both sides of a permutation. */
  lemma RemoveHead<T>(s: seq<T>, t: seq<T>) returns (k: nat)
    requires Permutation(s, t) && s != []
    ensures k < |t| && t[k] == s[0] && Permutation(s[1..], t[..k] + t[k + 1..])
  {
    k := PositionOf(t, s[0]);
    DropOne(t, k);
    DropOne(s, 0);
    assert s[..0] + s[1..] == s[1..];
  }

  lemma {:induction false} CountPermutation<T>(s: seq<T>, t: seq<T>, p: T -> bool)
    requires Permutation(s, t)
    ensures Count(s, p) == Count(t, p)
    decreases |s|
  {
    PermutationLength(s, t);
    if s != [] {
      var k := RemoveHead(s, t);
      CountPermutation(s[1..], t[..k] + t[k + 1..], p);
      CountConcat(t[..k], t[k + 1..], p);
      assert t == t[..k] + t[k..];
      CountConcat(t[..k], t[k..], p);
      assert t[k..][1..] == t[k + 1..];
    }
  }

  ghost predicate TotalPreorder<T(!new)>(le: (T, T) -> bool) {
    && (forall x, y :: le(x, y) || le(y, x))
    && (forall x, y, z :: le(x, y) && le(y, z) ==> le(x, z))
  }

  ghost predicate Antisymmetric<T(!new)>(le: (T, T) -> bool) {
    forall x, y :: le(x, y) && le(y, x) ==> x == y
  }

  ghost predicate SortedBy<T>(s: seq<T>, le: (T, T) -> bool) {
    forall i, j :: 0 <= i < j < |s| ==> le(s[i], s[j])
  }

  /** Puts `x` before the first element that is not below it. */
  function Insert<T>(x: T, s: seq<T>, le: (T, T) -> bool): (r: seq<T>) {
    if s == [] || le(x, s[0]) then [x] + s else [s[0]] + Insert(x, s[1..], le)
  }

  /** Insertion from the back, so equal elements keep their order. */
  function Sort<T>(s: seq<T>, le: (T, T) -> bool): (r: seq<T>) {
    if s == [] then [] else Insert(s[0], Sort(s[1..], le), le)
  }

  lemma InsertPermutes<T>(x: T, s: seq<T>, le: (T, T) -> bool)
    ensures multiset(Insert(x, s, le)) == multiset{x} + multiset(s)
  {
    if s != [] && !le(x, s[0]) {
      InsertPermutes(x, s[1..], le);
      assert s == [s[0]] + s[1..];
    }
  }

  lemma {:induction false} InsertSorted<T(!new)>(x: T, s: seq<T>, le: (T, T) -> bool)
    requires TotalPreorder(le) && SortedBy(s, le)
    ensures SortedBy(Insert(x, s, le), le)
  {
    if s == [] || le(x, s[0]) {
      assert forall j :: 0 < j < |s| ==> le(s[0], s[j]);
    } else {
      InsertSorted(x, s[1..], le);
      InsertPermutes(x, s[1..], le);
      var r := Insert(x, s[1..], le);
      forall j | 0 <= j < |r| ensures le(s[0], r[j]) {
        assert r[j] in multiset(r);
      }
    }
  }

  /** The two halves of what a sort promises. */
  lemma {:induction false} SortSorts<T(!new)>(s: seq<T>, le: (T, T) -> bool)
    requires TotalPreorder(le)
    ensures SortedBy(Sort(s, le), le) && Permutation(Sort(s, le), s) && |Sort(s, le)| == |s|
  {
    if s != [] {
      SortSorts(s[1..], le);
      InsertSorted(s[0], Sort(s[1..], le), le);
      InsertPermutes(s[0], Sort(s[1..], le), le);
      assert s == [s[0]] + s[1..];
    }
    PermutationLength(Sort(s, le), s);
  }

  function Filter<T>(s: seq<T>, p: T -> bool): seq<T> {
    if s == [] then [] else (if p(s[0]) then [s[0]] else []) + Filter(s[1..], p)
  }

  /** The order does not tell elements that satisfy `p` apart. */
  ghost predicate Alike<T(!new)>(le: (T, T) -> bool, p: T -> bool) {
    forall y, z :: p(y) && p(z) ==> le(y, z)
  }

  lemma FilterStep<T>(x: T, s: seq<T>, p: T -> bool)
    ensures Filter([x] + s, p) == (if p(x) then [x] else []) + Filter(s, p)
  {
    assert ([x] + s)[1..] == s;
  }

  lemma {:induction false} InsertKeepsOrder<T(!new)>(x: T, s: seq<T>, le: (T, T) -> bool, p: T -> bool)
    requires Alike(le, p)
    ensures Filter(Insert(x, s, le), p) == Filter([x] + s, p)
  {
    if s != [] && !le(x, s[0]) {
      assert !(p(x) && p(s[0]));
      InsertKeepsOrder(x, s[1..], le, p);
      FilterStep(s[0], Insert(x, s[1..], le), p);
      FilterStep(x, s[1..], p);
      FilterStep(x, s, p);
    }
  }

  /** Elements the order does not tell apart keep the order they came in. */
  lemma {:induction false} SortIsStable<T(!new)>(s: seq<T>, le: (T, T) -> bool, p: T -> bool)
    requires Alike(le, p)
    ensures Filter(Sort(s, le), p) == Filter(s, p)
  {
    if s != [] {
      SortIsStable(s[1..], le, p);
      InsertKeepsOrder(s[0], Sort(s[1..], le), le, p);
      FilterStep(s[0], Sort(s[1..], le), p);
      FilterStep(s[0], s[1..], p);
      assert [s[0]] + s[1..] == s;
    }
  }

  lemma TailsPermute<T>(s: seq<T>, t: seq<T>)
    requires Permutation(s, t) && s != [] && t != [] && s[0] == t[0]
    ensures Permutation(s[1..], t[1..])
  {
    assert s == [s[0]] + s[1..] && t == [t[0]] + t[1..];
    assert multiset(s) == multiset{s[0]} + multiset(s[1..]);
    assert multiset(t) == multiset{t[0]} + multiset(t[1..]);
    assert multiset(s[1..]) == multiset(s) - multiset{s[0]};
  }

  lemma SortedHead<T>(s: seq<T>, t: seq<T>, le: (T, T) -> bool)
    requires SortedBy(s, le) && Permutation(s, t) && s != [] && t != [] && le(s[0], s[0])
    ensures le(s[0], t[0])
  {
    assert t[0] in multiset(s);
    var i :| 0 <= i < |s| && s[i] == t[0];
  }

  /** Under an antisymmetric order a sorted permutation is unique, so any
      correct sort gives this one. */
  lemma {:induction false} SortedUnique<T(!new)>(s: seq<T>, t: seq<T>, le: (T, T) -> bool)
    requires Antisymmetric(le) && forall x :: x in s ==> le(x, x)
    requires SortedBy(s, le) && SortedBy(t, le) && Permutation(s, t)
    ensures s == t
    decreases |s|
  {
    PermutationLength(s, t);
    if s != [] {
      assert t[0] in multiset(s) && t[0] in s;
      SortedHead(s, t, le);
      SortedHead(t, s, le);
      TailsPermute(s, t);
      SortedUnique(s[1..], t[1..], le);
      assert s == [s[0]] + s[1..] && t == [t[0]] + t[1..];
    }
  }
}
