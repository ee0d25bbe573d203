/**
 Code segments of a process and the tables that name them (src/ccs_fwd.hpp:203-241). An ident stands
 for the hash of a segment, read as a number; zero is the empty hash.
 */
module Segments {
  type Ident = nat
  const NO_IDENT: Ident := 0

  datatype Seg = Seg(start: nat, end: nat, ident: Ident, idx: int,
                     touched: bool, verified: bool, badVerification: bool, badSegment: bool)

  predicate Inside(s: Seg, p: nat) { s.start < p < s.end }

  /** There is a gap between any two segments. */
  predicate Separated(s: Seg, t: Seg) { s.end < t.start || t.end < s.start }

  ghost predicate Duplicate(segs: seq<Seg>, i: nat)
    requires i < |segs|
  {
    exists j :: 0 <= j < |segs| && j != i && segs[j].ident == segs[i].ident
  }

  /**
   A segment map as the loader presents it: proper ranges, apart from each other. A segment is flagged bad
   exactly when it has no hash or shares it with another one (src/ccs.cpp:386-415, 501-511).
   */
  ghost predicate MapOk(segs: seq<Seg>) {
    && (forall i :: 0 <= i < |segs| ==> 0 < segs[i].start < segs[i].end && segs[i].idx >= 0)
    && (forall i, j :: 0 <= i < |segs| && 0 <= j < |segs| && i != j ==> Separated(segs[i], segs[j]))
    && (forall i :: 0 <= i < |segs| ==> (segs[i].badSegment <==> segs[i].ident == NO_IDENT || Duplicate(segs, i)))
  }

  /** Every segment has a hash of its own. */
  ghost predicate AllGood(segs: seq<Seg>) { forall i :: 0 <= i < |segs| ==> !segs[i].badSegment }

  /** A map that differs only in indices and in the flags a process sets itself. */
  ghost predicate SameRanges(a: seq<Seg>, b: seq<Seg>) {
    |a| == |b| && forall i :: 0 <= i < |a| ==>
      a[i].start == b[i].start && a[i].end == b[i].end && a[i].ident == b[i].ident && a[i].badSegment == b[i].badSegment
  }

  lemma SameRangesOk(a: seq<Seg>, b: seq<Seg>)
    requires MapOk(a) && SameRanges(a, b) && forall i :: 0 <= i < |b| ==> b[i].idx >= 0
    ensures MapOk(b)
  {
    forall i, j | 0 <= i < |b| && 0 <= j < |b| && i != j
      ensures Separated(b[i], b[j])
    {
      assert Separated(a[i], a[j]);
    }
    forall i | 0 <= i < |b|
      ensures Duplicate(b, i) <==> Duplicate(a, i)
    {
      if Duplicate(a, i) {
        var j :| 0 <= j < |a| && j != i && a[j].ident == a[i].ident;
        assert b[j].ident == b[i].ident;
      }
      if Duplicate(b, i) {
        var j :| 0 <= j < |b| && j != i && b[j].ident == b[i].ident;
        assert a[j].ident == a[i].ident;
      }
    }
  }

  /** The hash of a good segment is its own. */
  lemma OwnHash(segs: seq<Seg>, k: nat)
    requires MapOk(segs) && k < |segs| && !segs[k].badSegment
    ensures segs[k].ident != NO_IDENT
    ensures forall i :: 0 <= i < |segs| && segs[i].ident == segs[k].ident ==> i == k
  {
    assert !Duplicate(segs, k);
  }

  lemma SameStart(segs: seq<Seg>, m: nat, k: nat)
    requires MapOk(segs) && m < |segs| && k < |segs| && segs[m].start == segs[k].start
    ensures m == k
  {}

  /** The range and hash of a segment, without its flags. */
  ghost predicate Listed(segs: seq<Seg>, start: nat, end: nat, ident: Ident) {
    exists i :: 0 <= i < |segs| && segs[i].start == start && segs[i].end == end && segs[i].ident == ident
  }

  /** The range of a segment with index idx; for a bad segment the index may be an earlier one. */
  ghost predicate Indexed(segs: seq<Seg>, start: nat, end: nat, idx: int) {
    && idx > 0
    && exists i ::
         0 <= i < |segs| && segs[i].start == start && segs[i].end == end && (segs[i].badSegment || segs[i].idx == idx)
  }

  lemma ListedApart(segs: seq<Seg>, s1: nat, e1: nat, d1: Ident, s2: nat, e2: nat, d2: Ident)
    requires MapOk(segs) && Listed(segs, s1, e1, d1) && Listed(segs, s2, e2, d2)
    ensures s1 < e1 && s2 < e2 && ((s1 == s2 && e1 == e2 && d1 == d2) || e1 < s2 || e2 < s1)
  {
    var i :| 0 <= i < |segs| && segs[i].start == s1 && segs[i].end == e1 && segs[i].ident == d1;
    var k :| 0 <= k < |segs| && segs[k].start == s2 && segs[k].end == e2 && segs[k].ident == d2;
    if i != k { assert Separated(segs[i], segs[k]); }
  }

  lemma IndexedApart(segs: seq<Seg>, s1: nat, e1: nat, k1: int, s2: nat, e2: nat, k2: int)
    requires MapOk(segs) && Indexed(segs, s1, e1, k1) && Indexed(segs, s2, e2, k2)
    ensures s1 < e1 && s2 < e2 && ((s1 == s2 && e1 == e2) || e1 < s2 || e2 < s1)
  {
    var i :| 0 <= i < |segs| && segs[i].start == s1 && segs[i].end == e1;
    var k :| 0 <= k < |segs| && segs[k].start == s2 && segs[k].end == e2;
    if i != k { assert Separated(segs[i], segs[k]); }
  }
}
