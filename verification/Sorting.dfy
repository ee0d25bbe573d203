/** Sorting the front of a fixed array by a key, the way std::sort is used on the segment caches. */
module Sorting {
  function MapSeq<T, U>(f: T -> U, s: seq<T>): (r: seq<U>)
    ensures |r| == |s| && forall i :: 0 <= i < |s| ==> r[i] == f(s[i])
  {
    seq(|s|, i requires 0 <= i < |s| => f(s[i]))
  }

  ghost predicate SortedBy<T>(key: T -> int, s: seq<T>) {
    forall i, j :: 0 <= i < j < |s| ==> key(s[i]) <= key(s[j])
  }

  ghost predicate Perm<T>(s: seq<T>, t: seq<T>) { multiset(s) == multiset(t) }

  lemma Removal<T>(t: seq<T>, k: nat)
    requires k < |t|
    ensures multiset(t) == multiset(t[..k] + t[k + 1..]) + multiset{t[k]}
  {
    assert t == t[..k] + [t[k]] + t[k + 1..];
  }

  lemma MapRemoval<T, U>(f: T -> U, t: seq<T>, k: nat)
    requires k < |t|
    ensures multiset(MapSeq(f, t)) == multiset(MapSeq(f, t[..k] + t[k + 1..])) + multiset{f(t[k])}
  {
    Removal(MapSeq(f, t), k);
    assert MapSeq(f, t[..k] + t[k + 1..]) == MapSeq(f, t)[..k] + MapSeq(f, t)[k + 1..];
  }

  lemma Cancel<T>(a: multiset<T>, b: multiset<T>, x: T)
    requires a + multiset{x} == b + multiset{x}
    ensures a == b
  {
    assert a == (a + multiset{x}) - multiset{x};
    assert b == (b + multiset{x}) - multiset{x};
  }

  lemma PermTail<T>(s: seq<T>, t: seq<T>) returns (k: nat)
    requires Perm(s, t) && s != []
    ensures k < |t| && t[k] == s[0] && Perm(s[1..], t[..k] + t[k + 1..])
  {
    assert s[0] in multiset(s) && s[0] in multiset(t);
    k :| 0 <= k < |t| && t[k] == s[0];
    Removal(s, 0);
    Removal(t, k);
    assert s[..0] + s[1..] == s[1..];
    Cancel(multiset(s[1..]), multiset(t[..k] + t[k + 1..]), s[0]);
  }

  lemma MapFirst<T, U>(f: T -> U, s: seq<T>)
    requires s != []
    ensures multiset(MapSeq(f, s)) == multiset(MapSeq(f, s[1..])) + multiset{f(s[0])}
  {
    MapRemoval(f, s, 0);
    assert s[..0] + s[1..] == s[1..];
  }

  /** The same elements have the same images. */
  lemma {:induction false} PermMap<T, U>(f: T -> U, s: seq<T>, t: seq<T>)
    requires Perm(s, t)
    ensures multiset(MapSeq(f, s)) == multiset(MapSeq(f, t)) && |s| == |t|
    decreases |s|
  {
    hide MapSeq, Perm;
    SameLength(s, t);
    if s != [] {
      var k := PermTail(s, t);
      PermMap(f, s[1..], t[..k] + t[k + 1..]);
      MapFirst(f, s);
      MapRemoval(f, t, k);
    } else {
      assert s == t;
    }
  }

  lemma SameLength<T>(s: seq<T>, t: seq<T>)
    requires Perm(s, t)
    ensures |s| == |t|
  {
    assert |multiset(s)| == |s| && |multiset(t)| == |t|;
  }

  lemma PermMember<T>(s: seq<T>, t: seq<T>, x: T)
    requires Perm(s, t) && x in s
    ensures x in t
  {
    assert x in multiset(s) && x in multiset(t);
  }

  function Inserted<T>(key: T -> int, x: T, s: seq<T>): seq<T> {
    if s == [] || key(x) <= key(s[0]) then [x] + s else [s[0]] + Inserted(key, x, s[1..])
  }

  lemma {:induction false} InsertedElements<T>(key: T -> int, x: T, s: seq<T>)
    ensures multiset(Inserted(key, x, s)) == multiset(s) + multiset{x} && |Inserted(key, x, s)| == |s| + 1
  {
    if s != [] && key(x) > key(s[0]) {
      InsertedElements(key, x, s[1..]);
      assert s == [s[0]] + s[1..];
    }
  }

  lemma {:induction false} InsertedSorted<T>(key: T -> int, x: T, s: seq<T>)
    requires SortedBy(key, s)
    ensures SortedBy(key, Inserted(key, x, s))
  {
    if s != [] && key(x) > key(s[0]) {
      InsertedSorted(key, x, s[1..]);
      InsertedElements(key, x, s[1..]);
      var r := Inserted(key, x, s[1..]);
      forall j | 0 <= j < |r|
        ensures key(s[0]) <= key(r[j])
      {
        NotBelow(key, x, s, r, j);
      }
    }
  }

  lemma NotBelow<T>(key: T -> int, x: T, s: seq<T>, r: seq<T>, j: nat)
    requires s != [] && SortedBy(key, s) && key(s[0]) < key(x) && multiset(r) == multiset(s[1..]) + multiset{x}
    requires j < |r|
    ensures key(s[0]) <= key(r[j])
  {
    assert r[j] in multiset(r);
    if r[j] != x {
      assert r[j] in s[1..];
    }
  }

  method SortSeq<T>(s: seq<T>, key: T -> int) returns (r: seq<T>)
    ensures SortedBy(key, r) && multiset(r) == multiset(s) && |r| == |s|
  {
    hide SortedBy;
    r := [];
    EmptySorted(key);
    for i := 0 to |s|
      invariant |r| == i && SortedBy(key, r) && multiset(r) == multiset(s[..i])
    {
      InsertedSorted(key, s[i], r);
      InsertedElements(key, s[i], r);
      r := Inserted(key, s[i], r);
      assert s[..i + 1] == s[..i] + [s[i]];
    }
    assert s[..|s|] == s;
  }

  lemma EmptySorted<T>(key: T -> int)
    ensures SortedBy(key, [])
  {}

  method Store<T>(a: array<T>, s: seq<T>)
    requires |s| <= a.Length
    modifies a
    ensures a[..|s|] == s && a[|s|..] == old(a[|s|..])
  {
    for i := 0 to |s|
      invariant a[..i] == s[..i]
      invariant a[|s|..] == old(a[|s|..])
    {
      a[i] := s[i];
      assert a[..i + 1] == a[..i] + [s[i]];
    }
  }

  /** Insertion sort on the first n slots; the others are left alone. */
  method SortPrefix<T>(a: array<T>, n: nat, key: T -> int)
    requires n <= a.Length
    modifies a
    ensures SortedBy(key, a[..n]) && Perm(a[..n], old(a[..n]))
    ensures a[n..] == old(a[n..])
  {
    hide SortedBy;
    var sorted := SortSeq(a[..n], key);
    Store(a, sorted);
  }
}
