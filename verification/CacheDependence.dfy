/**
 Where the answer of a tokenization depends on what the thread has cached. Segments without a hash of their own are
 refused by the scan of the map (src/ccs.cpp:899-911), but a cache may hold them: they were good when they were cached,
 or a token was detokenized through them (src/ccs.hpp:310-332). And the cache searches accept both ends of a segment
 (src/ccs.hpp:143-146).
 */
module CacheDependence {
  import opened Segments
  import opened SegmentCache
  import opened SegmentTable
  import opened Verification
  import opened Following
  import opened Tokens
  import opened Process

  /**
   A pointer is tokenized by hash; then a second segment with the same hash is loaded. The cache goes on answering for
   the pointer, while a thread without a cache is refused.
   */
  method CachedThenDuplicated(pr: Process, c: SegCache, p: nat, k: nat, news1: seq<Seg>, news2: seq<Seg>)
      returns (r1: Outcome, r2: Outcome, r3: Outcome)
    requires pr.Valid(c) && !pr.enforce && !(pr.primary.start <= p < pr.primary.end)
    requires Covers(pr.segs, p, k) && !pr.segs[k].badSegment && pr.segs[k].idx == 0
    requires Pristine(news1) && Grows(pr.segs, news1) && Pristine(news2) && Grows(news1, news2)
    requires exists m :: Covers(news2, p, m) && news2[m].badSegment
    modifies pr, c, c.ptr, c.tkn, c.idx
    ensures r1 == Got(Multi(p - old(pr.segs[k].start), old(pr.segs[k].ident)))
    ensures r2.Got? && r3 == Fatal
  {
    hide MapOk, Rebuilt, Unindexed, Follows, Steady, Twins, IdxListed;
    hide PtrListed, Interior, Known, BadNames, PtrCovers, IdxCovers, Grows;
    CoverIsKnown(pr.segs, p, k);
    r1 := pr.Tokenize(p, c, news1);
    ghost var segs1 := pr.segs;
    SteadyMap(pr.T());
    GrowsOn(pr.segs, news1, news2);
    pr.RebuildMap(news2);
    FollowsFits(c, segs1, pr.epoch, pr.segs, pr.epoch);
    ghost var m := BadRebuilt(segs1, news2, p);
    GrownByNews(segs1, news2);
    ghost var segs2, idxs, ptrs := pr.segs, c.idx[..c.idxOccupancy], pr.Usable(c);
    CoverIsKnown(segs2, p, m);
    r2 := pr.Tokenize(p, c, news2);
    BadRefused(segs2, p, m, idxs, ptrs, r2);
    assert Covers(pr.segs, p, m) && pr.segs[m].badSegment;
    ghost var segs3 := pr.segs;
    CoverIsKnown(segs3, p, m);
    var c3 := new SegCache();
    EmptyFits(c3);
    assert c3.idx[..c3.idxOccupancy] == [] && pr.Usable(c3) == [];
    NothingLeft(p);
    r3 := pr.Tokenize(p, c3, news2);
    BadRefused(segs3, p, m, [], [], r3);
  }

  lemma CoverIsKnown(segs: seq<Seg>, p: nat, k: nat)
    requires Covers(segs, p, k)
    ensures Known(segs, p)
  {}

  lemma BadRebuilt(olds: seq<Seg>, news: seq<Seg>, p: nat) returns (m: nat)
    requires MapOk(olds) && Pristine(news) && Grows(olds, news) && exists m :: Covers(news, p, m) && news[m].badSegment
    ensures Covers(Rebuilt(olds, news), p, m) && Rebuilt(olds, news)[m].badSegment
  {
    hide MapOk, Rebuilt;
    RebuiltOk(olds, news);
    m :| Covers(news, p, m) && news[m].badSegment;
  }

  /** A token is detokenized by its hash; the segment it leads to is answered for from then on, good or bad. */
  method DetokenizedThenTokenized(pr: Process, c: SegCache, d: Ident, news1: seq<Seg>, news2: seq<Seg>)
      returns (a: Address, r: Outcome)
    requires pr.Valid(c) && !pr.enforce && c.epoch == pr.epoch && Has(pr.segs, d)
    requires Pristine(news1) && Grows(pr.segs, news1) && Pristine(news2) && Grows(news1, news2)
    modifies pr, c, c.ptr, c.tkn, c.idx
    ensures a.At? && a.addr >= 0 && HasStart(old(pr.segs), d, a.addr)
    ensures r.Got?
  {
    hide MapOk, Rebuilt, Unindexed, Follows, Steady, Interior, Twins, Holds;
    hide BadNames, Names, PtrCovers, IdxCovers, Grows, Known, IdxListed, PtrListed;
    a := pr.DetokenizeHash(0, d, c, news1);
    GrowsOn(pr.segs, news1, news2);
    var p := a.addr + 1;
    SteadyMap(pr.T());
    HoldsCovers(pr.segs, c.ptr[..c.occupancy], c.idx[..c.idxOccupancy], a.addr);
    ghost var idxs, ptrs := c.idx[..c.idxOccupancy], pr.Usable(c);
    r := pr.Tokenize(p, c, news2);
    if !(pr.primary.start <= p < pr.primary.end) { CoveredIsAnswered(idxs, ptrs, p, r); }
  }

  lemma HoldsCovers(segs: seq<Seg>, ptrs: seq<PtrEntry>, idxs: seq<IdxEntry>, start: nat)
    requires MapOk(segs) && PtrListed(segs, ptrs) && IdxListed(segs, idxs) && Holds(ptrs, idxs, start)
    ensures PtrCovers(ptrs, start + 1) || IdxCovers(idxs, start + 1)
  {
    if i :| 0 <= i < |ptrs| && ptrs[i].start == start {
      ListedApart(segs, ptrs[i].start, ptrs[i].end, ptrs[i].ident, ptrs[i].start, ptrs[i].end, ptrs[i].ident);
      assert ptrs[i].start <= start + 1 <= ptrs[i].end;
    } else {
      var i :| 0 <= i < |idxs| && idxs[i].start == start;
      IndexedApart(segs, idxs[i].start, idxs[i].end, idxs[i].idx, idxs[i].start, idxs[i].end, idxs[i].idx);
      assert idxs[i].start <= start + 1 <= idxs[i].end;
    }
  }

  /**
   The end of a segment depends on the cache: after a pointer inside was tokenized by hash, the cache answers for the
   end as well, while a thread without a cache is refused.
   */
  method EndDependsOnCache(pr: Process, c: SegCache, k: nat, news: seq<Seg>)
      returns (r1: Outcome, r2: Outcome, r3: Outcome)
    requires pr.Valid(c) && !pr.enforce && Pristine(news) && Grows(pr.segs, news)
    requires k < |pr.segs| && !pr.segs[k].badSegment && pr.segs[k].idx == 0 && pr.segs[k].start + 1 < pr.segs[k].end
    requires !(pr.primary.start <= pr.segs[k].start + 1 < pr.primary.end)
    requires !(pr.primary.start <= pr.segs[k].end < pr.primary.end)
    modifies pr, c, c.ptr, c.tkn, c.idx
    ensures r1 == Got(Multi(1, old(pr.segs[k].ident)))
    ensures r2.Got? && r3 == Fatal
  {
    hide MapOk, Rebuilt, Unindexed, Follows, Steady, Twins, IdxListed, Listed;
    hide PtrListed, Interior, Known, BadNames, PtrCovers, IdxCovers, Grows, CacheFirst;
    var s := pr.segs[k];
    var q, e := s.start + 1, s.end;
    ghost var segs0 := pr.segs;
    assert Covers(segs0, q, k);
    CoverIsKnown(segs0, q, k);
    InMap(segs0, k);
    r1 := pr.Tokenize(q, c, news);
    StillListed(segs0, pr.segs, pr.epoch, s);
    SteadyMap(pr.T());
    NothingLeft(q);
    assert pr.Usable(c) == c.ptr[..c.occupancy];
    EndCovered(pr.segs, pr.Usable(c), s);
    ghost var segs1, idxs, ptrs := pr.segs, c.idx[..c.idxOccupancy], pr.Usable(c);
    r2 := pr.Tokenize(e, c, news);
    CoveredIsAnswered(idxs, ptrs, e, r2);
    StillListed(segs1, pr.segs, pr.epoch, s);
    SteadyMap(pr.T());
    EndInNone(pr.segs, news, s);
    var c3 := new SegCache();
    EmptyFits(c3);
    assert c3.idx[..c3.idxOccupancy] == [] && pr.Usable(c3) == [];
    NothingLeft(e);
    r3 := pr.Tokenize(e, c3, news);
  }

  lemma InMap(segs: seq<Seg>, k: nat)
    requires k < |segs|
    ensures Listed(segs, segs[k].start, segs[k].end, segs[k].ident)
  {}

  lemma StillListed(segs0: seq<Seg>, segs1: seq<Seg>, epoch: nat, s: Seg)
    requires Follows(segs0, epoch, segs1, epoch) && Listed(segs0, s.start, s.end, s.ident)
    ensures Listed(segs1, s.start, s.end, s.ident)
  {}

  lemma EndCovered(segs: seq<Seg>, ptrs: seq<PtrEntry>, s: Seg)
    requires MapOk(segs) && PtrListed(segs, ptrs) && Listed(segs, s.start, s.end, s.ident)
    requires PtrCovers(ptrs, s.start + 1)
    ensures PtrCovers(ptrs, s.end)
  {
    hide MapOk, Listed;
    var i :| 0 <= i < |ptrs| && ptrs[i].start <= s.start + 1 <= ptrs[i].end;
    ListedApart(segs, ptrs[i].start, ptrs[i].end, ptrs[i].ident, s.start, s.end, s.ident);
    assert ptrs[i].end == s.end;
  }

  /** The end of a segment is in no segment, of this map or of the map rebuilt. */
  lemma EndInNone(segs: seq<Seg>, news: seq<Seg>, s: Seg)
    requires MapOk(segs) && Pristine(news) && Grows(segs, news) && Listed(segs, s.start, s.end, s.ident)
    ensures !Known(segs, s.end) && !Known(Rebuilt(segs, news), s.end)
  {
    hide MapOk, Rebuilt, Listed;
    RebuiltOk(segs, news);
    RebuildFollows(segs, news, 0);
    EndNotInside(segs, s);
    EndNotInside(Rebuilt(segs, news), s);
  }

  lemma EndNotInside(segs: seq<Seg>, s: Seg)
    requires MapOk(segs) && Listed(segs, s.start, s.end, s.ident)
    ensures !Known(segs, s.end)
  {
    hide MapOk;
    ListedApart(segs, s.start, s.end, s.ident, s.start, s.end, s.ident);
    var k :| 0 <= k < |segs| && segs[k].start == s.start && segs[k].end == s.end && segs[k].ident == s.ident;
    OnlyAround(segs, s.end, k);
  }
}
