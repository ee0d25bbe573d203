/**
 What a failed verify_segment call does when it names a segment that has an index already: the rank forgets that the
 segment was verified (src/ccs.cpp:1058-1061) and later gives it a second index (src/ccs.cpp:1050-1057).
 */
module Misnaming {
  import opened Segments
  import opened Sorting
  import opened SegmentTable
  import opened Verification
  import opened Agreement

  ghost predicate Loads(t: Table, news: seq<Seg>) { Pristine(news) && AllGood(news) && Grows(t.segs, news) }

  ghost function LoadedWith(t: Table, news: seq<Seg>): Table { t.(segs := Rebuilt(t.segs, news)) }

  /** A map in which every segment has its own hash, and what it says of the segment with hash d. */
  ghost predicate Plain(t: Table) { MapOk(t.segs) && AllGood(t.segs) }

  ghost predicate Stands(t: Table, d: Ident, verified: bool) {
    exists k :: 0 <= k < |t.segs| && t.segs[k].ident == d && t.segs[k].verified == verified
  }

  ghost predicate HasIndex(t: Table, d: Ident, idx: int) {
    exists k :: 0 <= k < |t.segs| && t.segs[k].ident == d && t.segs[k].idx == idx
  }

  /** A failed call touches the flag of the segment named and nothing else. */
  lemma FailEffect(t: Table, h: Ident, max: nat)
    requires Plain(t)
    ensures var t' := JudgeSegment(t, h, NO_IDENT, max).0;
            && Plain(t') && t'.count == t.count && SameRanges(t.segs, t'.segs)
            && (Has(t.segs, h) ==> Stands(t', h, false))
            && (forall d, v :: d != h && Stands(t, d, v) ==> Stands(t', d, v))
  {
    hide MapOk;
    var k := Position(t.segs, h);
    PositionFinds(t.segs, h);
    var t' := JudgeSegment(t, h, NO_IDENT, max).0;
    NonNegative(t.segs);
    SameRangesOk(t.segs, t'.segs);
    if k >= 0 { assert t'.segs[k].ident == h; }
    forall d, v | d != h && Stands(t, d, v)
      ensures Stands(t', d, v)
    {
      var i :| 0 <= i < |t.segs| && t.segs[i].ident == d && t.segs[i].verified == v;
      assert t'.segs[i] == t.segs[i];
    }
  }

  /** A successful call gives the next index to an unverified segment and changes nothing for a verified one. */
  lemma PassEffect(t: Table, h: Ident, max: nat, v: bool)
    requires Plain(t) && h != NO_IDENT && Stands(t, h, v) && t.count <= max
    ensures var t' := JudgeSegment(t, h, h, max).0;
            && (v ==> t' == t)
            && (!v ==> Plain(t') && t'.count == t.count + 1 && HasIndex(t', h, t.count))
            && (forall d, w :: d != h && Stands(t, d, w) ==> Stands(t', d, w))
            && (forall d, i :: d != h && HasIndex(t, d, i) ==> HasIndex(t', d, i))
  {
    hide MapOk;
    var k := Position(t.segs, h);
    PositionFinds(t.segs, h);
    DistinctIdents(t.segs);
    NonNegative(t.segs);
    var t' := JudgeSegment(t, h, h, max).0;
    assert t.segs[k].verified == v;
    if !v {
      SameRangesOk(t.segs, t'.segs);
      assert t'.segs[k].ident == h && t'.segs[k].idx == t.count;
    }
    forall d, w | d != h && Stands(t, d, w)
      ensures Stands(t', d, w)
    {
      var i :| 0 <= i < |t.segs| && t.segs[i].ident == d && t.segs[i].verified == w;
      assert t'.segs[i] == t.segs[i];
    }
    forall d, x | d != h && HasIndex(t, d, x)
      ensures HasIndex(t', d, x)
    {
      var i :| 0 <= i < |t.segs| && t.segs[i].ident == d && t.segs[i].idx == x;
      assert t'.segs[i] == t.segs[i];
    }
  }

  /** Loading keeps what is known of a segment; a segment that is new is not verified. */
  lemma LoadEffect(t: Table, news: seq<Seg>, x: Ident)
    requires Plain(t) && Loads(t, news) && !Has(t.segs, x) && Has(news, x)
    ensures var t' := LoadedWith(t, news);
            && Plain(t') && t'.count == t.count && Stands(t', x, false)
            && (forall d, v :: Stands(t, d, v) ==> Stands(t', d, v))
  {
    hide MapOk, Rebuilt;
    RebuiltOk(t.segs, news);
    var t' := LoadedWith(t, news);
    forall d, v | Stands(t, d, v)
      ensures Stands(t', d, v)
    {
      var i :| 0 <= i < |t.segs| && t.segs[i].ident == d && t.segs[i].verified == v;
      var k := RebuiltKeeps(t.segs, news, i);
      assert t'.segs[k].ident == d;
    }
    var k :| 0 <= k < |news| && news[k].ident == x;
    RebuiltAt(t.segs, news, k);
    assert t'.segs[k].ident == x;
  }

  /** A fails, then news is loaded, then h and x are verified everywhere. */
  ghost function Continued(t: Table, named: Ident, news: seq<Seg>, h: Ident, x: Ident, max: nat): Table {
    var t1 := LoadedWith(JudgeSegment(t, named, NO_IDENT, max).0, news);
    JudgeSegment(JudgeSegment(t1, h, h, max).0, x, x, max).0
  }

  lemma Diverges(t: Table, g: seq<Ident>, named: Ident, news: seq<Seg>, h: Ident, x: Ident, max: nat)
    requires TableOk(t, g) && h in g && Loads(t, news) && !Has(t.segs, x) && Has(news, x) && x != NO_IDENT
    requires |g| + 2 <= max
    ensures HasIndex(Continued(t, named, news, h, x, max), if named == h then h else x, |g| + 1)
  {
    hide MapOk, Numbered, JudgeSegment, Rebuilt, LoadedWith;
    NumberedMap(t, g);
    NumberedHas(t, g);
    var k := NumberedAt(t, g, h);
    assert Stands(t, h, true);
    FailEffect(t, named, max);
    var t0 := JudgeSegment(t, named, NO_IDENT, max).0;
    SameLoads(t, t0, news, x);
    LoadEffect(t0, news, x);
    var t1 := LoadedWith(t0, news);
    assert Stands(t1, h, named != h);
    PassEffect(t1, h, max, named != h);
    PassEffect(JudgeSegment(t1, h, h, max).0, x, max, false);
  }

  lemma SameLoads(t: Table, t0: Table, news: seq<Seg>, x: Ident)
    requires SameRanges(t.segs, t0.segs) && Loads(t, news) && !Has(t.segs, x)
    ensures Loads(t0, news) && !Has(t0.segs, x)
  {
    hide MapOk;
    forall i | 0 <= i < |t0.segs|
      ensures Listed(news, t0.segs[i].start, t0.segs[i].end, t0.segs[i].ident) && t0.segs[i].ident != x
    {
      assert Listed(news, t.segs[i].start, t.segs[i].end, t.segs[i].ident);
    }
  }

  // ----- there is always another segment to load -----

  ghost function Top(segs: seq<Seg>): (n: nat)
    ensures forall i :: 0 <= i < |segs| ==> segs[i].end <= n && segs[i].ident <= n
  {
    if segs == [] then 0
    else
      var m, s := Top(segs[..|segs| - 1]), segs[|segs| - 1];
      if m >= s.end && m >= s.ident then m else if s.end >= s.ident then s.end else s.ident
  }

  function Clean(s: Seg): Seg { s.(idx := 0, touched := false, verified := false, badVerification := false) }

  /** A segment behind all others, with a hash of its own, may be added to a map. */
  lemma SegmentAdded(olds: seq<Seg>, s: Seg)
    requires MapOk(olds) && AllGood(olds) && s.idx == 0 && !s.badSegment && s.ident != NO_IDENT && s.start < s.end
    requires forall i :: 0 <= i < |olds| ==> olds[i].end < s.start && olds[i].ident != s.ident
    ensures s.start > 0 ==> MapOk(olds + [s]) && AllGood(olds + [s])
  {
    var news := olds + [s];
    forall i | 0 <= i < |olds|
      ensures !Duplicate(news, i) && news[i].ident != NO_IDENT
    {
      OwnHash(olds, i);
    }
    assert !Duplicate(news, |olds|);
    forall i, j | 0 <= i < |news| && 0 <= j < |news| && i != j
      ensures Separated(news[i], news[j])
    {
      if i < |olds| && j < |olds| { assert Separated(olds[i], olds[j]); }
    }
  }

  lemma AnotherSegment(t: Table, x: Ident) returns (news: seq<Seg>)
    requires Plain(t) && x > Top(t.segs)
    ensures Loads(t, news) && Has(news, x) && !Has(t.segs, x)
  {
    hide MapOk;
    var olds := MapSeq(Clean, t.segs);
    var n := Top(t.segs);
    var s := Seg(n + 1, n + 2, x, 0, false, false, false, false);
    news := olds + [s];
    assert news[|olds|].ident == x;
    SameRangesOk(t.segs, olds);
    SegmentAdded(olds, s);
    forall i | 0 <= i < |t.segs|
      ensures Listed(news, t.segs[i].start, t.segs[i].end, t.segs[i].ident)
    {
      assert news[i].start == t.segs[i].start;
    }
  }

  /**
   Whenever a failed call names a segment h that has an index on some rank a, while rank b named another one, the
   program can go on, with calls that all name one segment, so that an index means different segments on a and b.
   */
  lemma MisnamedCallsDisagree(a: Table, b: Table, g: seq<Ident>, h: Ident, other: Ident, max: nat)
      returns (newsA: seq<Seg>, newsB: seq<Seg>, x: Ident)
    requires TableOk(a, g) && TableOk(b, g) && h in g && other != h && |g| + 2 <= max
    ensures Reduce(Node(Leaf(h), Leaf(other))) == NO_IDENT
    ensures Loads(a, newsA) && Loads(b, newsB)
    ensures !Agree(Continued(a, h, newsA, h, x, max), Continued(b, other, newsB, h, x, max))
  {
    hide MapOk, Numbered, Continued, Loads, Plain;
    NumberedMap(a, g);
    NumberedMap(b, g);
    x := Top(a.segs) + Top(b.segs) + 1;
    assert Plain(a) && Plain(b) by { hide *; NumberedPlain(a, g); NumberedPlain(b, g); }
    newsA := AnotherSegment(a, x);
    newsB := AnotherSegment(b, x);
    Diverges(a, g, h, newsA, h, x, max);
    Diverges(b, g, other, newsB, h, x, max);
    var a', b' := Continued(a, h, newsA, h, x, max), Continued(b, other, newsB, h, x, max);
    var i :| 0 <= i < |a'.segs| && a'.segs[i].ident == h && a'.segs[i].idx == |g| + 1;
    var j :| 0 <= j < |b'.segs| && b'.segs[j].ident == x && b'.segs[j].idx == |g| + 1;
    NumberedHas(a, g);
    assert h != x;
  }

  lemma NumberedPlain(t: Table, g: seq<Ident>)
    requires TableOk(t, g)
    ensures Plain(t)
  {}

  /** Two ranks with one verified segment each; the first names it, the second names none. */
  lemma ConcreteMisnaming() returns (newsA: seq<Seg>, newsB: seq<Seg>, x: Ident)
    ensures var t := Table([Seg(16, 32, 1, 1, true, true, false, false)], 2, map[1 := 16], 1);
            !Agree(Continued(t, 1, newsA, 1, x, 100), Continued(t, NO_IDENT, newsB, 1, x, 100))
  {
    var t := Table([Seg(16, 32, 1, 1, true, true, false, false)], 2, map[1 := 16], 1);
    assert TableOk(t, [1]) by {
      assert HasStart(t.segs, 1, 16) by { assert t.segs[0].ident == 1; }
      assert forall i: nat :: SlotOk(t.segs, t.starts, [1], i);
    }
    newsA, newsB, x := MisnamedCallsDisagree(t, t, [1], 1, NO_IDENT, 100);
  }
}
