/**
 What the answers of tokenization mean, whatever cache or map gave them (src/ccs.hpp:140-185, 238-278,
 src/ccs.cpp:894-916).
 */
module Tokens {
  import opened Segments
  import opened Sorting
  import opened SegmentCache
  import opened SegmentTable
  import opened Following

  datatype Lookup = Hit(k: nat) | Miss | BadSegment

  ghost predicate Known(segs: seq<Seg>, p: nat) { exists k :: Covers(segs, p, k) }

  function Touched(segs: seq<Seg>, k: nat): seq<Seg>
    requires k < |segs|
  {
    segs[k := segs[k].(touched := true)]
  }

  /** The same segment, whatever its touched flag. */
  predicate SameSeg(s: Seg, t: Seg) { s.(touched := t.touched) == t }

  /** What a linear scan of the map says. */
  ghost predicate Answer(segs: seq<Seg>, p: nat, r: Lookup) {
    match r
    case Hit(k) => Covers(segs, p, k) && !segs[k].badSegment
    case Miss => !Known(segs, p)
    case BadSegment => exists k :: Covers(segs, p, k) && segs[k].badSegment
  }

  /**
   A pointer in a good segment is named by the index of the segment if it has one, by its hash otherwise unless
   verification is enforced; one in no segment is not named.
   */
  ghost predicate Names(segs: seq<Seg>, p: nat, enforce: bool, r: Outcome) {
    && (forall k :: Covers(segs, p, k) && !segs[k].badSegment ==>
          if segs[k].idx > 0 then r == Got(MultiIdx(p - segs[k].start, segs[k].idx))
          else if enforce then r == Unverified
          else r == Got(Multi(p - segs[k].start, segs[k].ident)))
    && (!Known(segs, p) ==> r == Fatal)
  }

  ghost predicate PtrCovers(s: seq<PtrEntry>, p: nat) { exists i :: 0 <= i < |s| && s[i].start <= p <= s[i].end }

  ghost predicate IdxCovers(s: seq<IdxEntry>, p: nat) { exists i :: 0 <= i < |s| && s[i].start <= p <= s[i].end }

  /** A pointer in a bad segment is refused unless a cache covers it: the index cache, or a usable pointer cache. */
  ghost predicate BadNames(segs: seq<Seg>, p: nat, idxs: seq<IdxEntry>, ptrs: seq<PtrEntry>, r: Outcome) {
    forall k :: Covers(segs, p, k) && segs[k].badSegment ==>
      if IdxCovers(idxs, p) then
        exists x :: IdxEntry(segs[k].start, segs[k].end, x) in idxs && r == Got(MultiIdx(p - segs[k].start, x))
      else if PtrCovers(ptrs, p) then r == Got(Multi(p - segs[k].start, segs[k].ident))
      else r == Fatal
  }

  /** An entry that covers the pointer answers, the index cache before the pointer cache. */
  ghost predicate CacheFirst(idxs: seq<IdxEntry>, ptrs: seq<PtrEntry>, p: nat, r: Outcome) {
    && (IdxCovers(idxs, p) ==>
          exists x :: x in idxs && x.start <= p <= x.end && r == Got(MultiIdx(p - x.start, x.idx)))
    && (!IdxCovers(idxs, p) && PtrCovers(ptrs, p) ==>
          exists x :: x in ptrs && x.start <= p <= x.end && r == Got(Multi(p - x.start, x.ident)))
  }

  /** The answer of the scan, of the map as it is or, for a pointer in no segment of it, of the map rebuilt. */
  ghost predicate ScanAnswer(segs: seq<Seg>, rebuilt: seq<Seg>, p: nat, enforce: bool, r: Outcome) {
    var from := if Known(segs, p) then segs else rebuilt;
    Names(from, p, enforce, r) && BadNames(from, p, [], [], r)
  }

  /** What any pointer gets, given what the caches hold. */
  ghost predicate Answers(segs: seq<Seg>, rebuilt: seq<Seg>, idxs: seq<IdxEntry>, ptrs: seq<PtrEntry>, p: nat,
                          enforce: bool, r: Outcome) {
    && CacheFirst(idxs, ptrs, p, r)
    && (!IdxCovers(idxs, p) && !PtrCovers(ptrs, p) ==> ScanAnswer(segs, rebuilt, p, enforce, r))
    && (Known(segs, p) ==> Names(segs, p, enforce, r) && BadNames(segs, p, idxs, ptrs, r))
    && (!Known(segs, p) && Interior(segs, p) ==> ScanAnswer(segs, rebuilt, p, enforce, r))
  }

  lemma IdxAnswers(segs: seq<Seg>, rebuilt: seq<Seg>, idxs: seq<IdxEntry>, i: nat, ptrs: seq<PtrEntry>, p: nat,
                   enforce: bool)
    requires MapOk(segs) && IdxListed(segs, idxs) && i < |idxs| && idxs[i].start <= p <= idxs[i].end
    ensures Answers(segs, rebuilt, idxs, ptrs, p, enforce, Got(MultiIdx(p - idxs[i].start, idxs[i].idx)))
    ensures IdxCovers(idxs, p)
  {
    hide MapOk, Known, Names, BadNames, Interior;
    IdxNames(segs, idxs, i, ptrs, p, enforce);
    assert idxs[i] in idxs;
  }

  lemma PtrAnswers(segs: seq<Seg>, rebuilt: seq<Seg>, idxs: seq<IdxEntry>, ptrs: seq<PtrEntry>, i: nat, p: nat)
    requires MapOk(segs) && PtrListed(segs, ptrs) && Unindexed(segs, ptrs) && !IdxCovers(idxs, p)
    requires i < |ptrs| && ptrs[i].start <= p <= ptrs[i].end
    ensures Answers(segs, rebuilt, idxs, ptrs, p, false, Got(Multi(p - ptrs[i].start, ptrs[i].ident)))
    ensures PtrCovers(ptrs, p)
  {
    hide MapOk, Known, Names, BadNames, Interior, IdxCovers;
    PtrNames(segs, idxs, ptrs, i, p);
    assert ptrs[i] in ptrs;
  }

  lemma ScanAnswers(segs: seq<Seg>, rebuilt: seq<Seg>, from: seq<Seg>, p: nat, look: Lookup, s: Seg,
                    idxs: seq<IdxEntry>,
                    ptrs: seq<PtrEntry>, enforce: bool)
    requires MapOk(from) && Answer(from, p, look) && !IdxCovers(idxs, p) && !PtrCovers(ptrs, p)
    requires from == (if Known(segs, p) then segs else rebuilt) && (look.Hit? ==> SameSeg(s, from[look.k]))
    ensures Answers(segs, rebuilt, idxs, ptrs, p, enforce, if look.Hit? then TokenIn(s, p, enforce) else Fatal)
  {
    hide MapOk, Known, Names, BadNames, Interior, IdxCovers, PtrCovers, Answer, TokenIn;
    NothingLeft(p);
    ScanNames(from, p, look, s, idxs, ptrs, enforce);
    ScanNames(from, p, look, s, [], [], enforce);
  }

  lemma NothingLeft(p: nat)
    ensures !IdxCovers([], p) && !PtrCovers([], p)
  {}

  /** Entries that were not there before are of the segment around p. */
  ghost predicate PtrFrom(was: seq<PtrEntry>, now: seq<PtrEntry>, p: nat) {
    forall x :: x in now ==> x in was || x.start < p < x.end
  }

  ghost predicate IdxFrom(was: seq<IdxEntry>, now: seq<IdxEntry>, p: nat) {
    forall x :: x in now ==> x in was || x.start < p < x.end
  }

  /** The refusal of a bad segment, exactly. */
  lemma BadRefused(segs: seq<Seg>, p: nat, k: nat, idxs: seq<IdxEntry>, ptrs: seq<PtrEntry>, r: Outcome)
    requires Covers(segs, p, k) && segs[k].badSegment && BadNames(segs, p, idxs, ptrs, r)
    ensures if IdxCovers(idxs, p) || PtrCovers(ptrs, p) then r.Got? else r == Fatal
  {}

  /** Wherever a pointer is, a cache that covers it answers. */
  lemma CoveredIsAnswered(idxs: seq<IdxEntry>, ptrs: seq<PtrEntry>, p: nat, r: Outcome)
    requires CacheFirst(idxs, ptrs, p, r) && (IdxCovers(idxs, p) || PtrCovers(ptrs, p))
    ensures r.Got?
  {}

  // ----- a cache entry is the segment the pointer is in -----

  lemma OnlyAround(segs: seq<Seg>, p: nat, k: nat)
    requires MapOk(segs) && k < |segs| && segs[k].start <= p <= segs[k].end
    ensures forall j :: 0 <= j < |segs| && segs[j].start <= p <= segs[j].end ==> j == k
  {
    forall j | 0 <= j < |segs| && j != k
      ensures !(segs[j].start <= p <= segs[j].end)
    {
      assert Separated(segs[j], segs[k]);
    }
  }

  lemma PtrHit(segs: seq<Seg>, e: PtrEntry, p: nat) returns (k: nat)
    requires MapOk(segs) && Listed(segs, e.start, e.end, e.ident) && e.start <= p <= e.end
    ensures k < |segs| && segs[k].start == e.start && segs[k].end == e.end && segs[k].ident == e.ident
    ensures forall j :: 0 <= j < |segs| && (segs[j].start <= p <= segs[j].end) ==> j == k
  {
    k :| 0 <= k < |segs| && segs[k].start == e.start && segs[k].end == e.end && segs[k].ident == e.ident;
    OnlyAround(segs, p, k);
  }

  lemma IdxHit(segs: seq<Seg>, e: IdxEntry, p: nat) returns (k: nat)
    requires MapOk(segs) && Indexed(segs, e.start, e.end, e.idx) && e.start <= p <= e.end
    ensures k < |segs| && segs[k].start == e.start && segs[k].end == e.end
    ensures e.idx > 0 && (segs[k].badSegment || segs[k].idx == e.idx)
    ensures forall j :: 0 <= j < |segs| && (segs[j].start <= p <= segs[j].end) ==> j == k
  {
    k :| 0 <= k < |segs| && segs[k].start == e.start && segs[k].end == e.end
      && (segs[k].badSegment || segs[k].idx == e.idx);
    OnlyAround(segs, p, k);
  }

  lemma IdxNames(segs: seq<Seg>, idxs: seq<IdxEntry>, i: nat, ptrs: seq<PtrEntry>, p: nat, enforce: bool)
    requires MapOk(segs) && IdxListed(segs, idxs) && i < |idxs| && idxs[i].start <= p <= idxs[i].end
    ensures var r := Got(MultiIdx(p - idxs[i].start, idxs[i].idx));
            && (Known(segs, p) ==> Names(segs, p, enforce, r) && BadNames(segs, p, idxs, ptrs, r))
            && (!Known(segs, p) ==> !Interior(segs, p)) && IdxCovers(idxs, p)
  {
    hide MapOk;
    var e := idxs[i];
    var k := IdxHit(segs, e, p);
    assert idxs[i] in idxs && IdxCovers(idxs, p);
    if !Known(segs, p) { assert !Covers(segs, p, k); }
  }

  lemma PtrNames(segs: seq<Seg>, idxs: seq<IdxEntry>, ptrs: seq<PtrEntry>, i: nat, p: nat)
    requires MapOk(segs) && PtrListed(segs, ptrs) && Unindexed(segs, ptrs) && !IdxCovers(idxs, p)
    requires i < |ptrs| && ptrs[i].start <= p <= ptrs[i].end
    ensures var r := Got(Multi(p - ptrs[i].start, ptrs[i].ident));
            && (Known(segs, p) ==> Names(segs, p, false, r) && BadNames(segs, p, idxs, ptrs, r))
            && (!Known(segs, p) ==> !Interior(segs, p)) && PtrCovers(ptrs, p)
  {
    hide MapOk;
    var k := PtrHit(segs, ptrs[i], p);
    assert PtrCovers(ptrs, p) && !Numbers(segs, ptrs[i].start);
    if !Known(segs, p) { assert !Covers(segs, p, k); }
  }

  lemma OnlyCover(segs: seq<Seg>, p: nat, k: nat)
    requires MapOk(segs) && Covers(segs, p, k)
    ensures forall j :: Covers(segs, p, j) ==> j == k
  {
    OnlyAround(segs, p, k);
  }

  /** The scan's answer when no cache had one. */
  lemma ScanNames(segs: seq<Seg>, p: nat, look: Lookup, s: Seg, idxs: seq<IdxEntry>, ptrs: seq<PtrEntry>, enforce: bool)
    requires MapOk(segs) && Answer(segs, p, look) && !IdxCovers(idxs, p) && !PtrCovers(ptrs, p)
    requires look.Hit? ==> SameSeg(s, segs[look.k])
    ensures var r := if look.Hit? then TokenIn(s, p, enforce) else Fatal;
            Names(segs, p, enforce, r) && BadNames(segs, p, idxs, ptrs, r)
  {
    hide MapOk;
    if look.Hit? {
      OnlyCover(segs, p, look.k);
    } else if look.BadSegment? {
      var k :| Covers(segs, p, k) && segs[k].badSegment;
      OnlyCover(segs, p, k);
    }
  }

  /** The scan's verdict on the map before it marked a segment as touched. */
  lemma Answered(from: seq<Seg>, segs: seq<Seg>, p: nat, r: Lookup)
    requires if r.Hit? then Covers(segs, p, r.k) && !segs[r.k].badSegment && r.k < |from| && segs == Touched(from, r.k)
             else segs == from
    requires r.Miss? ==> forall i :: 0 <= i < |segs| ==> !Inside(segs[i], p)
    requires r.BadSegment? ==> exists i :: 0 <= i < |segs| && Inside(segs[i], p) && segs[i].badSegment
    ensures |segs| == |from| && Answer(from, p, r) && (r.Hit? ==> SameSeg(segs[r.k], from[r.k]))
  {
    if r.BadSegment? {
      var i :| 0 <= i < |segs| && Inside(segs[i], p) && segs[i].badSegment;
      assert Covers(from, p, i);
    }
  }

  /** activate leaves no indexed segment in the pointer cache. */
  lemma StillUnindexed(segs: seq<Seg>, k: nat, ptr0: seq<PtrEntry>, tkn0: seq<TknEntry>, ptr: seq<PtrEntry>,
                       tkn: seq<TknEntry>, room: bool, victim: TknEntry)
    requires MapOk(segs) && k < |segs| && segs[k].idx <= 0 && Unindexed(segs, ptr0) && Twins(ptr0, tkn0)
    requires Twins(ptr, tkn)
    requires multiset(tkn) == Replaced(multiset(tkn0), room, victim, TknEntry(segs[k].ident, segs[k].start))
    ensures Unindexed(segs, ptr)
  {
    forall i | 0 <= i < |ptr|
      ensures !Numbers(segs, ptr[i].start)
    {
      var e := PtrKey(ptr[i]);
      assert MapSeq(PtrKey, ptr)[i] == e;
      assert e in multiset(MapSeq(PtrKey, ptr)) && e in multiset(tkn);
      if e == TknEntry(segs[k].ident, segs[k].start) {
        forall m | 0 <= m < |segs| && segs[m].start == ptr[i].start ensures m == k { SameStart(segs, m, k); }
      } else {
        assert e in multiset(tkn0);
        assert e in tkn0;
        var n :| 0 <= n < |tkn0| && tkn0[n] == e;
        var o := TwinOf(ptr0, tkn0, n);
      }
    }
  }

  /**
   Only at the ends of a segment can a cache answer where the map does not: the searches accept both
   ends, the scan neither.
   */
  lemma EndpointsOnly(segs: seq<Seg>, p: nat)
    requires MapOk(segs)
    ensures (forall e: PtrEntry :: Listed(segs, e.start, e.end, e.ident) && e.start <= p <= e.end ==>
             Known(segs, p)) <==> Interior(segs, p)
  {
    if !Interior(segs, p) {
      var i :| 0 <= i < |segs| && (segs[i].start == p || segs[i].end == p);
      var e := PtrEntry(segs[i].start, segs[i].end, segs[i].ident);
      assert Listed(segs, e.start, e.end, e.ident) && e.start <= p <= e.end;
      forall k
        ensures !Covers(segs, p, k)
      {
        OnlyAround(segs, p, i);
      }
    } else {
      forall e: PtrEntry | Listed(segs, e.start, e.end, e.ident) && e.start <= p <= e.end
        ensures Known(segs, p)
      {
        var k := PtrHit(segs, e, p);
        assert Covers(segs, p, k);
      }
    }
  }
}
