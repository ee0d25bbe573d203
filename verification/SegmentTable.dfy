/**
 The segment map of a process and tokenization through it (src/ccs.cpp:538-557, 894-916,
 src/ccs.hpp:169-185, 238-278, 295-372, 398-402).
 */
module SegmentTable {
  import opened Segments
  import opened Sorting

  datatype Token = Single(offset: int) | Multi(offset: int, ident: Ident) | MultiIdx(offset: int, idx: int)

  datatype Outcome = Got(token: Token) | Unverified | Fatal

  datatype Address = At(addr: int) | NoAddress

  // ----- the plain definition -----

  ghost predicate Covers(segs: seq<Seg>, p: nat, k: int) { 0 <= k < |segs| && Inside(segs[k], p) }

  /** A pointer that is neither end of any segment. */
  ghost predicate Interior(segs: seq<Seg>, p: nat) {
    forall i :: 0 <= i < |segs| ==> segs[i].start != p && segs[i].end != p
  }

  /** The token of a pointer in segment s: by index if it has one, by hash unless verification is enforced. */
  function TokenIn(s: Seg, p: nat, enforce: bool): Outcome {
    if s.idx > 0 then Got(MultiIdx(p - s.start, s.idx)) else if enforce then Unverified
      else Got(Multi(p - s.start, s.ident))
  }

  // ----- rebuilding -----

  /** What a segment of a fresh map takes over from the old map, entry after entry. */
  function Inherit(n: Seg, olds: seq<Seg>): Seg {
    if olds == [] then n
    else
      var m := Inherit(n, olds[..|olds| - 1]);
      var o := olds[|olds| - 1];
      if m.ident == o.ident then
        m.(touched := m.touched || o.touched, verified := m.verified || o.verified,
           badVerification := m.badVerification || o.badVerification, idx := o.idx)
      else m
  }

  function Rebuilt(olds: seq<Seg>, news: seq<Seg>): seq<Seg> { MapSeq((n: Seg) => Inherit(n, olds), news) }

  /** A map as the loader builds it: nothing verified, nothing indexed. */
  ghost predicate Pristine(news: seq<Seg>) {
    MapOk(news) && forall i :: 0 <= i < |news| ==>
      news[i].idx == 0 && !news[i].verified && !news[i].badVerification && !news[i].touched
  }

  /** Segments are only added, and stay where they are. */
  ghost predicate Grows(olds: seq<Seg>, news: seq<Seg>) {
    forall i :: 0 <= i < |olds| ==> Listed(news, olds[i].start, olds[i].end, olds[i].ident)
  }

  ghost predicate HasHash(olds: seq<Seg>, d: Ident, k: int) { 0 <= k < |olds| && olds[k].ident == d }

  /**
   What a segment takes over from all old segments with its hash, duplicates included: each flag that any of them
   had, and the index of the last of them.
   */
  lemma {:induction false} InheritsFrom(n: Seg, olds: seq<Seg>)
    ensures var m := Inherit(n, olds);
            && m.(touched := n.touched, verified := n.verified, badVerification := n.badVerification, idx := n.idx) == n
            && (m.touched <==> n.touched || exists k :: HasHash(olds, n.ident, k) && olds[k].touched)
            && (m.verified <==> n.verified || exists k :: HasHash(olds, n.ident, k) && olds[k].verified)
            && (m.badVerification <==>
                n.badVerification || exists k :: HasHash(olds, n.ident, k) && olds[k].badVerification)
            && (forall k :: HasHash(olds, n.ident, k) && (forall j :: HasHash(olds, n.ident, j) ==> j <= k) ==>
                  m.idx == olds[k].idx)
            && ((forall k :: !HasHash(olds, n.ident, k)) ==> m == n)
    decreases |olds|
  {
    if olds != [] {
      var l := |olds| - 1;
      var front := olds[..l];
      InheritsFrom(n, front);
      assert forall k ::
          HasHash(olds, n.ident, k) <==> HasHash(front, n.ident, k) || (k == l && olds[l].ident == n.ident);
      assert forall k :: HasHash(front, n.ident, k) ==> olds[k] == front[k] && k <= l;
    }
  }

  lemma {:induction false} InheritRange(n: Seg, olds: seq<Seg>)
    requires n.idx >= 0 && forall i :: 0 <= i < |olds| ==> olds[i].idx >= 0
    ensures var m := Inherit(n, olds);
            m.start == n.start && m.end == n.end && m.ident == n.ident && m.badSegment == n.badSegment && m.idx >= 0
    decreases |olds|
  {
    if olds != [] { InheritRange(n, olds[..|olds| - 1]); }
  }

  /** A segment whose hash occurs once takes over exactly what it had. */
  lemma {:induction false} InheritOwn(n: Seg, olds: seq<Seg>, k: nat)
    requires k < |olds| && olds[k].ident == n.ident && n.idx == 0 && !n.verified && !n.badVerification && !n.touched
    requires forall i :: 0 <= i < |olds| ==> olds[i].idx >= 0 && (olds[i].ident == n.ident ==> i == k)
    ensures var m := Inherit(n, olds);
            && m.idx == olds[k].idx && m.verified == olds[k].verified
            && m.badVerification == olds[k].badVerification && m.touched == olds[k].touched
    decreases |olds|
  {
    var front := olds[..|olds| - 1];
    InheritRange(n, front);
    if k < |olds| - 1 { InheritOwn(n, front, k); } else { InheritNone(n, front); }
  }

  lemma {:induction false} InheritNone(n: Seg, olds: seq<Seg>)
    requires forall i :: 0 <= i < |olds| ==> olds[i].ident != n.ident
    ensures Inherit(n, olds) == n
    decreases |olds|
  {
    if olds != [] { InheritNone(n, olds[..|olds| - 1]); }
  }

  /** Where a segment of the old map is in the new one. */
  lemma Grown(olds: seq<Seg>, news: seq<Seg>, i: nat) returns (k: nat)
    requires Grows(olds, news) && i < |olds|
    ensures k < |news| && news[k].start == olds[i].start && news[k].end == olds[i].end && news[k].ident == olds[i].ident
  {
    assert Listed(news, olds[i].start, olds[i].end, olds[i].ident);
    k :| 0 <= k < |news| && news[k].start == olds[i].start && news[k].end == olds[i].end
      && news[k].ident == olds[i].ident;
  }

  /** A hash that is good now was nowhere else before, and what was bad is bad. */
  lemma GoodBefore(olds: seq<Seg>, news: seq<Seg>, k: nat, i: nat)
    requires MapOk(olds) && MapOk(news) && Grows(olds, news) && k < |news| && i < |olds|
    requires !news[k].badSegment && olds[i].ident == news[k].ident
    ensures olds[i].start == news[k].start && olds[i].end == news[k].end && !olds[i].badSegment
    ensures forall j :: 0 <= j < |olds| && olds[j].ident == news[k].ident ==> j == i
  {
    OwnHash(news, k);
    var m := Grown(olds, news, i);
    forall j | 0 <= j < |olds| && olds[j].ident == news[k].ident
      ensures j == i
    {
      var n := Grown(olds, news, j);
      SameStart(olds, i, j);
    }
    assert !Duplicate(olds, i);
  }

  lemma RebuiltAt(olds: seq<Seg>, news: seq<Seg>, i: nat)
    requires MapOk(olds) && Pristine(news) && Grows(olds, news) && i < |news|
    ensures var m := Rebuilt(olds, news)[i];
            && m.start == news[i].start && m.end == news[i].end && m.ident == news[i].ident
            && m.badSegment == news[i].badSegment && m.idx >= 0
            && (!m.badSegment ==> forall k :: 0 <= k < |olds| && olds[k].ident == m.ident ==> m == olds[k])
            && ((forall k :: 0 <= k < |olds| ==> olds[k].ident != m.ident) ==> m == news[i])
  {
    InheritRange(news[i], olds);
    if k :| 0 <= k < |olds| && olds[k].ident == news[i].ident {
      if !news[i].badSegment {
        GoodBefore(olds, news, i, k);
        InheritOwn(news[i], olds, k);
      }
    } else {
      InheritNone(news[i], olds);
    }
  }

  /** Rebuilding keeps the map proper. */
  lemma RebuiltOk(olds: seq<Seg>, news: seq<Seg>)
    requires MapOk(olds) && Pristine(news) && Grows(olds, news)
    ensures MapOk(Rebuilt(olds, news)) && SameRanges(news, Rebuilt(olds, news))
  {
    hide MapOk;
    var r := Rebuilt(olds, news);
    assert forall i :: 0 <= i < |news| ==>
      && r[i].start == news[i].start && r[i].end == news[i].end && r[i].ident == news[i].ident
      && r[i].badSegment == news[i].badSegment && r[i].idx >= 0 by
    {
      forall i | 0 <= i < |news|
        ensures r[i].start == news[i].start && r[i].end == news[i].end && r[i].ident == news[i].ident
        ensures r[i].badSegment == news[i].badSegment && r[i].idx >= 0
      {
        RebuiltAt(olds, news, i);
      }
    }
    SameRangesOk(news, r);
  }

  /**
   Every known segment is still there with its range and hash. A good one keeps its index and all its flags; one
   that was bad stays bad.
   */
  lemma RebuiltKeeps(olds: seq<Seg>, news: seq<Seg>, i: nat) returns (k: nat)
    requires MapOk(olds) && Pristine(news) && Grows(olds, news) && i < |olds|
    ensures k < |news| && var m := Rebuilt(olds, news)[k];
              && m.start == olds[i].start && m.end == olds[i].end && m.ident == olds[i].ident
              && (!m.badSegment ==> m == olds[i])
  {
    k := Grown(olds, news, i);
    RebuiltAt(olds, news, k);
  }

  method Rebuild(olds: seq<Seg>, news: seq<Seg>) returns (segs: seq<Seg>)
    ensures segs == Rebuilt(olds, news)
  {
    segs := [];
    for i := 0 to |news|
      invariant segs == Rebuilt(olds, news)[..i]
    {
      var n := news[i];
      for j := 0 to |olds|
        invariant n == Inherit(news[i], olds[..j])
      {
        assert olds[..j + 1][..j] == olds[..j];
        if n.ident == olds[j].ident {
          n := n.(touched := n.touched || olds[j].touched, verified := n.verified || olds[j].verified,
                  badVerification := n.badVerification || olds[j].badVerification);
          n := n.(idx := olds[j].idx);
        }
      }
      assert olds[..|olds|] == olds;
      segs := segs + [n];
    }
  }
}
