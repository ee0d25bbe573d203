/**
 Circular doubly linked lists, as the bins of the allocator use them: insertion after an
 entry and removal of an entry change two links of the neighbours.
 */
module Rings {

  function Next<T>(r: seq<T>, i: nat): T
    requires i < |r|
  {
    if i + 1 < |r| then r[i + 1] else r[0]
  }

  function Prev<T>(r: seq<T>, i: nat): T
    requires i < |r|
  {
    if i > 0 then r[i - 1] else r[|r| - 1]
  }

  /** Distinct entries in one circular doubly linked list. */
  ghost predicate RingLinked<T>(r: seq<T>, fd: map<T, T>, bk: map<T, T>) {
    && (forall i, j :: 0 <= i < j < |r| ==> r[i] != r[j])
    && (forall i :: 0 <= i < |r| ==> r[i] in fd && r[i] in bk)
    && (forall i {:trigger fd[r[i]]} :: 0 <= i < |r| ==> fd[r[i]] == Next(r, i))
    && (forall i {:trigger bk[r[i]]} :: 0 <= i < |r| ==> bk[r[i]] == Prev(r, i))
  }

  lemma SelfRing<T>(x: T, fd: map<T, T>, bk: map<T, T>)
    requires x in fd && x in bk && fd[x] == x && bk[x] == x
    ensures RingLinked([x], fd, bk)
  {}

  lemma RingDomain<T>(r: seq<T>, fd: map<T, T>, bk: map<T, T>)
    requires RingLinked(r, fd, bk)
    ensures forall i :: 0 <= i < |r| ==> r[i] in fd && r[i] in bk
    ensures forall i, j :: 0 <= i < j < |r| ==> r[i] != r[j]
  {}

  /** A ring does not notice changes at other entries. */
  lemma RingKept<T>(r: seq<T>, fd: map<T, T>, bk: map<T, T>, fd': map<T, T>, bk': map<T, T>)
    requires RingLinked(r, fd, bk)
    requires forall i :: 0 <= i < |r| && r[i] in fd ==> r[i] in fd' && fd'[r[i]] == fd[r[i]]
    requires forall i :: 0 <= i < |r| && r[i] in bk ==> r[i] in bk' && bk'[r[i]] == bk[r[i]]
    ensures RingLinked(r, fd', bk')
  {
    forall i | 0 <= i < |r|
      ensures r[i] in fd' && r[i] in bk' && fd'[r[i]] == Next(r, i) && bk'[r[i]] == Prev(r, i)
    {
      assert r[i] in fd && r[i] in bk && fd[r[i]] == Next(r, i) && bk[r[i]] == Prev(r, i);
    }
  }

  lemma JoinSeq<T>(r: seq<T>, x: T, fd: map<T, T>, bk: map<T, T>, fd': map<T, T>, bk': map<T, T>)
    requires RingLinked(r, fd, bk) && |r| > 0 && x !in r
    requires fd' == fd[x := fd[r[0]]][r[0] := x] && bk' == bk[x := r[0]][fd[r[0]] := x]
    ensures RingLinked([r[0], x] + r[1..], fd', bk')
  {
    var r' := [r[0], x] + r[1..];
    assert forall i :: 2 <= i < |r'| ==> r'[i] == r[i - 1];
    assert fd[r[0]] == Next(r, 0);
    forall i | 0 <= i < |r'|
      ensures r'[i] in fd' && r'[i] in bk' && fd'[r'[i]] == Next(r', i) && bk'[r'[i]] == Prev(r', i)
    {
      if i >= 2 {
        assert r[i - 1] != r[0] && fd[r[i - 1]] == Next(r, i - 1) && bk[r[i - 1]] == Prev(r, i - 1);
      } else if i == 0 {
        assert bk[r[0]] == Prev(r, 0);
      }
    }
  }

  /** The ring after x is cut out of it: if x was the tree node, its predecessor comes first. */
  function CutRing<T>(r: seq<T>, k: nat): seq<T>
    requires k < |r| && |r| > 1
  {
    if k == 0 then [r[|r| - 1]] + r[1..|r| - 1] else r[..k] + r[k + 1..]
  }

  /** Where the i-th chunk of the cut ring was before. */
  function Before<T>(r: seq<T>, k: nat, i: nat): nat
    requires k < |r| && |r| > 1 && i < |r| - 1
  {
    if k == 0 then (if i == 0 then |r| - 1 else i) else if i < k then i else i + 1
  }

  lemma CutAt<T>(r: seq<T>, k: nat, i: nat)
    requires k < |r| && |r| > 1 && i < |r| - 1
    ensures var r' := CutRing(r, k); var j := Before(r, k, i);
            && |r'| == |r| - 1 && j < |r| && j != k && r'[i] == r[j]
            && Next(r', i) == (if j + 1 == k || (k == 0 && j == |r| - 1) then Next(r, k) else Next(r, j))
            && Prev(r', i) == (if j == k + 1 || (k == |r| - 1 && j == 0) then Prev(r, k) else Prev(r, j))
  {
    hide CutRing;
    var n := |r| - 1;
    CutEntry(r, k, i);
    CutEntry(r, k, if i + 1 < n then i + 1 else 0);
    CutEntry(r, k, if i > 0 then i - 1 else n - 1);
  }

  lemma CutEntry<T>(r: seq<T>, k: nat, i: nat)
    requires k < |r| && |r| > 1 && i < |r| - 1
    ensures var r' := CutRing(r, k); var j := Before(r, k, i); |r'| == |r| - 1 && j < |r| && j != k && r'[i] == r[j]
  {}

  lemma CutLinked<T>(r: seq<T>, k: nat, fd: map<T, T>, bk: map<T, T>, fd': map<T, T>, bk': map<T, T>)
    requires RingLinked(r, fd, bk) && k < |r| && |r| > 1
    requires fd' == fd[bk[r[k]] := fd[r[k]]] && bk' == bk[fd[r[k]] := bk[r[k]]]
    ensures RingLinked(CutRing(r, k), fd', bk')
  {
    var r' := CutRing(r, k);
    forall i | 0 <= i < |r'|
      ensures r'[i] in fd' && r'[i] in bk' && fd'[r'[i]] == Next(r', i) && bk'[r'[i]] == Prev(r', i)
    {
      CutLinkedAt(r, k, fd, bk, fd', bk', i);
    }
    CutDistinct(r, k);
  }

  lemma CutDistinct<T>(r: seq<T>, k: nat)
    requires k < |r| && |r| > 1
    requires forall i, j :: 0 <= i < j < |r| ==> r[i] != r[j]
    ensures var r' := CutRing(r, k); forall i, j :: 0 <= i < j < |r'| ==> r'[i] != r'[j]
  {}

  lemma CutLinkedAt<T>(r: seq<T>, k: nat, fd: map<T, T>, bk: map<T, T>, fd': map<T, T>,
                    bk': map<T, T>, i: nat)
    requires RingLinked(r, fd, bk) && k < |r| && |r| > 1 && i < |r| - 1
    requires fd' == fd[bk[r[k]] := fd[r[k]]] && bk' == bk[fd[r[k]] := bk[r[k]]]
    ensures var r' := CutRing(r, k);
            && |r'| == |r| - 1 && r'[i] in fd' && r'[i] in bk'
            && fd'[r'[i]] == Next(r', i) && bk'[r'[i]] == Prev(r', i)
  {
    hide CutRing;
    CutAt(r, k, i);
    var j := Before(r, k, i);
    assert fd[r[k]] == Next(r, k) && bk[r[k]] == Prev(r, k);
    assert fd[r[j]] == Next(r, j) && bk[r[j]] == Prev(r, j);
  }
}
