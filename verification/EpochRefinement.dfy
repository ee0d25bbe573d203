/**
 The steps of the epoch protocol are what the code does to the pointer cache of a thread and to the tables of the
 process, when every segment has a hash of its own (src/ccs.hpp:149-162, 169-185, src/ccs.cpp:894-968, 1039-1056,
 1106-1171).
 */
module EpochRefinement {
  import opened Segments
  import opened SegmentCache
  import opened SegmentTable
  import opened Verification
  import opened Agreement
  import opened Following
  import opened Tokens
  import opened Process
  import EP = EpochProtocol

  /** The segments a pointer cache holds, by their hashes. */
  ghost function Cached(ptrs: seq<PtrEntry>): set<Ident> { set x | x in ptrs :: x.ident }

  ghost function CachedBy(c: SegCache): set<Ident>
    requires c.Shape()
    reads c, c.ptr
  {
    Cached(c.ptr[..c.occupancy])
  }

  /** The segments that have an index. */
  ghost function IndexedIn(segs: seq<Seg>): set<Ident> { set s | s in segs && s.idx > 0 :: s.ident }

  // ----- threads -----

  /** An entry covers a pointer inside a segment exactly when the segment is cached. */
  lemma CoveredIsCached(segs: seq<Seg>, ptrs: seq<PtrEntry>, p: nat, k: nat)
    requires MapOk(segs) && AllGood(segs) && PtrListed(segs, ptrs) && Covers(segs, p, k)
    ensures PtrCovers(ptrs, p) <==> segs[k].ident in Cached(ptrs)
    ensures forall i :: 0 <= i < |ptrs| && ptrs[i].start <= p <= ptrs[i].end ==> ptrs[i].ident == segs[k].ident
  {
    hide MapOk;
    OwnHash(segs, k);
    forall i | 0 <= i < |ptrs|
      ensures ptrs[i].start <= p <= ptrs[i].end <==> ptrs[i].ident == segs[k].ident
    {
      if ptrs[i].start <= p <= ptrs[i].end {
        var m := PtrHit(segs, ptrs[i], p);
      } else {
        var m :| 0 <= m < |segs| && segs[m].start == ptrs[i].start && segs[m].end == ptrs[i].end
          && segs[m].ident == ptrs[i].ident;
      }
    }
    if segs[k].ident in Cached(ptrs) {
      var x :| x in ptrs && x.ident == segs[k].ident;
      var i :| 0 <= i < |ptrs| && ptrs[i] == x;
    }
  }

  /** What a thread is in the protocol. */
  ghost function Abs(c: SegCache, pc: EP.Pc): EP.Thread
    requires c.Shape()
    reads c, c.ptr
  {
    EP.Thread(CachedBy(c), c.epoch, pc)
  }

  /** search_cache with the epoch e that was loaded is the step Look. */
  method Look(c: SegCache, p: nat, e: nat, ghost segs: seq<Seg>, ghost k: nat, ghost s: EP.State, ghost i: nat)
      returns (found: bool, ghost s': EP.State)
    requires c.Valid(segs) && MapOk(segs) && AllGood(segs) && Covers(segs, p, k)
    requires i < |s.threads| && s.threads[i].pc.Loaded? && s.threads[i].pc.d == segs[k].ident && s.threads[i].pc.e == e
    requires s.threads[i] == Abs(c, s.threads[i].pc)
    modifies c`occupancy, c`epoch, c.ptr, c.tkn
    ensures c.Valid(segs) && EP.Enabled(s, EP.Look(i)) && s' == EP.Step(s, EP.Look(i))
    ensures var pc := s.threads[i].pc;
            && |s'.threads| == |s.threads|
            && s'.threads[i] == Abs(c, if found then EP.Idle else EP.Missed(pc.d, pc.seen))
            && s'.answers == s.answers + if found then [EP.Answer(pc.d, true, pc.seen)] else []
  {
    hide MapOk, Twins, PtrListed, IdxListed;
    ghost var ptr0, epoch0 := c.ptr[..c.occupancy], c.epoch;
    CoveredIsCached(segs, ptr0, p, k);
    var n;
    found, n := c.SearchPtr(p, e, segs);
    s' := EP.Step(s, EP.Look(i));
    if epoch0 == e {
      assert c.ptr[..c.occupancy] == ptr0;
      if found {
        assert ptr0[n] == c.ptr[n];
      } else {
        NotInPtr(c, ptr0, p);
      }
    } else {
      assert c.ptr[..c.occupancy] == [];
    }
  }

  lemma IndexedOwn(segs: seq<Seg>, k: nat)
    requires MapOk(segs) && AllGood(segs) && k < |segs|
    ensures segs[k].ident in IndexedIn(segs) <==> segs[k].idx > 0
  {
    hide MapOk;
    OwnHash(segs, k);
  }

  lemma SameIndexed(a: seq<Seg>, b: seq<Seg>)
    requires SameRanges(a, b) && forall i :: 0 <= i < |a| ==> b[i].idx == a[i].idx
    ensures IndexedIn(a) == IndexedIn(b)
  {
    forall d
      ensures d in IndexedIn(a) <==> d in IndexedIn(b)
    {
      if d in IndexedIn(a) {
        var i :| 0 <= i < |a| && a[i].idx > 0 && a[i].ident == d;
        assert b[i] in b;
      }
      if d in IndexedIn(b) {
        var i :| 0 <= i < |b| && b[i].idx > 0 && b[i].ident == d;
        assert a[i] in a;
      }
    }
  }

  /** activate: an indexed segment leaves the pointer cache alone, another joins it, perhaps in place of one. */
  lemma ActivatedCache(segs: seq<Seg>, ptr0: seq<PtrEntry>, ptr1: seq<PtrEntry>, p: nat, k: nat)
    requires MapOk(segs) && AllGood(segs) && PtrListed(segs, ptr1) && Covers(segs, p, k)
    requires if segs[k].idx > 0 then ptr1 == ptr0 else PtrCovers(ptr1, p) && PtrFrom(ptr0, ptr1, p)
    ensures var was, now := Cached(ptr0), Cached(ptr1);
            now == if segs[k].idx > 0 then was else was - (was - now) + {segs[k].ident}
  {
    hide MapOk;
    if segs[k].idx <= 0 {
      CoveredIsCached(segs, ptr1, p, k);
      forall d | d in Cached(ptr1)
        ensures d in Cached(ptr0) || d == segs[k].ident
      {
        var x :| x in ptr1 && x.ident == d;
        var i :| 0 <= i < |ptr1| && ptr1[i] == x;
      }
    }
  }

  /** The locked scan with its activation is the step Map, with some segments evicted. */
  method MapStep(pr: Process, c: SegCache, p: nat, ghost k: nat, ghost s: EP.State, ghost i: nat)
      returns (r: Lookup, ghost evicted: set<Ident>, ghost s': EP.State)
    requires pr.Valid(c) && AllGood(pr.segs) && Covers(pr.segs, p, k)
    requires i < |s.threads| && s.threads[i].pc.Missed? && s.threads[i].pc.d == pr.segs[k].ident && s.lock.Free?
    requires s.threads[i] == Abs(c, s.threads[i].pc) && s.indexed == IndexedIn(pr.segs)
    modifies pr`segs, c`occupancy, c`evict, c`idxOccupancy, c`idxEvict, c.ptr, c.tkn, c.idx
    ensures pr.Valid(c) && r == Hit(k) && k < |pr.segs| && IndexedIn(pr.segs) == old(IndexedIn(pr.segs))
    ensures EP.Enabled(s, EP.Map(i, evicted)) && s' == EP.Step(s, EP.Map(i, evicted))
    ensures |s'.threads| == |s.threads| && s'.threads[i] == Abs(c, EP.Idle)
    ensures s'.answers == s.answers + [EP.Answer(s.threads[i].pc.d, TokenIn(pr.segs[k], p, false).token.Multi?,
                                                 s.threads[i].pc.seen)]
  {
    hide MapOk, Twins, Follows, Steady, Unindexed, Replaced;
    SteadyMap(pr.T());
    OnlyCover(pr.segs, p, k);
    ghost var segs0, ptr0 := pr.segs, c.ptr[..c.occupancy];
    r := pr.TryInactive(p, c);
    SteadyMap(pr.T());
    if r.Hit? { OnlyCover(pr.segs, p, r.k); }
    SameIndexed(segs0, pr.segs);
    IndexedOwn(segs0, k);
    evicted := Cached(ptr0) - CachedBy(c);
    ActivatedCache(pr.segs, ptr0, c.ptr[..c.occupancy], p, k);
    s' := EP.Step(s, EP.Map(i, evicted));
  }

  /** The locked search by hash with its activation is the step Detokenize. */
  method DetokenizeStep(pr: Process, c: SegCache, d: Ident, ghost s: EP.State, ghost i: nat)
      returns (start: nat, ghost evicted: set<Ident>, ghost s': EP.State)
    requires pr.Valid(c) && AllGood(pr.segs) && Has(pr.segs, d)
    requires i < |s.threads| && s.threads[i] == Abs(c, EP.Idle) && s.lock.Free? && s.indexed == IndexedIn(pr.segs)
    modifies pr`segs, c`occupancy, c`evict, c`idxOccupancy, c`idxEvict, c.ptr, c.tkn, c.idx
    ensures pr.Valid(c) && HasStart(old(pr.segs), d, start)
    ensures EP.Enabled(s, EP.Detokenize(i, d, evicted)) && s' == EP.Step(s, EP.Detokenize(i, d, evicted))
    ensures |s'.threads| == |s.threads| && s'.threads[i] == Abs(c, EP.Idle)
  {
    hide MapOk, Twins, Follows, Steady, Unindexed, Replaced, PtrListed, IdxListed, Holds, Cached, IndexedIn;
    SteadyMap(pr.T());
    ghost var segs0, ptr0 := pr.segs, c.ptr[..c.occupancy];
    ghost var k :| 0 <= k < |pr.segs| && pr.segs[k].ident == d;
    IndexedOwn(segs0, k);
    OwnHash(segs0, k);
    var found;
    found, start := pr.FindIdent(d, c);
    SteadyMap(pr.T());
    evicted := Cached(ptr0) - CachedBy(c);
    JoinedCache(pr.segs, ptr0, c.ptr[..c.occupancy], k, start);
    s' := EP.Step(s, EP.Detokenize(i, d, evicted));
  }

  lemma JoinedCache(segs: seq<Seg>, ptr0: seq<PtrEntry>, ptr1: seq<PtrEntry>, k: nat, start: nat)
    requires MapOk(segs) && AllGood(segs) && PtrListed(segs, ptr1) && k < |segs| && segs[k].start == start
    requires forall x :: x in ptr1 ==> x in ptr0 || x.start == start
    requires if segs[k].idx > 0 then ptr1 == ptr0
             else PtrEntry(segs[k].start, segs[k].end, segs[k].ident) in ptr1
    ensures var was, now := Cached(ptr0), Cached(ptr1);
            now == if segs[k].idx > 0 then was else was - (was - now) + {segs[k].ident}
  {
    hide MapOk;
    if segs[k].idx <= 0 {
      forall d | d in Cached(ptr1)
        ensures d in Cached(ptr0) || d == segs[k].ident
      {
        var x :| x in ptr1 && x.ident == d;
        if x !in ptr0 { EntryIsSegment(segs, ptr1, x, k); }
      }
    }
  }

  lemma EntryIsSegment(segs: seq<Seg>, ptrs: seq<PtrEntry>, x: PtrEntry, k: nat)
    requires MapOk(segs) && PtrListed(segs, ptrs) && x in ptrs && k < |segs| && x.start == segs[k].start
    ensures x.ident == segs[k].ident
  {
    hide MapOk;
    var i :| 0 <= i < |ptrs| && ptrs[i] == x;
    var m :| 0 <= m < |segs| && segs[m].start == x.start && segs[m].end == x.end && segs[m].ident == x.ident;
    SameStart(segs, m, k);
  }

  // ----- verification -----

  /** The verified segments of a rank are those numbered. */
  lemma IndexedAreNumbered(t: Table, g: seq<Ident>)
    requires TableOk(t, g)
    ensures IndexedIn(t.segs) == set d | d in g
  {
    hide MapOk;
    NumberedHas(t, g);
    forall d
      ensures d in IndexedIn(t.segs) <==> d in g
    {
      if d in IndexedIn(t.segs) {
        var i :| 0 <= i < |t.segs| && t.segs[i].idx > 0 && t.segs[i].ident == d;
        IndexedIsNumbered(t, g, i);
      }
      if d in g {
        var i := NumberedAt(t, g, d);
        assert t.segs[i] in t.segs;
      }
    }
  }

  /**
   verify_segment on a new segment is the steps Raise and Index; on any other it changes neither epoch nor
   indices.
   */
  lemma JudgeSegmentRefines(t: Table, g: seq<Ident>, h: Ident, reduced: Ident, max: nat, s: EP.State)
    requires TableOk(t, g) && (h != NO_IDENT ==> Has(t.segs, h)) && (reduced != NO_IDENT ==> h == reduced)
    requires reduced == NO_IDENT ==> h !in g
    requires JudgeSegment(t, h, reduced, max).1 != LimitExceeded
    requires s.epoch == t.epoch && s.indexed == IndexedIn(t.segs) && s.lock.Free?
    ensures var t' := JudgeSegment(t, h, reduced, max).0;
            if reduced != NO_IDENT && h !in g then
              && EP.Enabled(s, EP.Raise(h)) && EP.Enabled(EP.Step(s, EP.Raise(h)), EP.Index)
              && var s' := EP.Step(EP.Step(s, EP.Raise(h)), EP.Index);
                 s'.epoch == t'.epoch && s'.indexed == IndexedIn(t'.segs) && s'.lock.Free?
            else t'.epoch == t.epoch && IndexedIn(t'.segs) == IndexedIn(t.segs)
  {
    hide MapOk, Numbered;
    JudgeSegmentOk(t, g, h, reduced, max);
    var t' := JudgeSegment(t, h, reduced, max).0;
    IndexedAreNumbered(t, g);
    IndexedAreNumbered(t', if reduced != NO_IDENT && h !in g then g + [h] else g);
    var k := Position(t.segs, h);
    PositionFinds(t.segs, h);
    NumberedMap(t, g);
    NotEmptyHash(t.segs);
    if k >= 0 { VerifiedIffNumbered(t, g, k); }
    assert forall d :: d in g + [h] <==> d in g || d == h;
  }

  /** verify_all is the steps IndexMany and RaiseAfter. */
  lemma JudgeAllRefines(t: Table, g: seq<Ident>, hashes: seq<Ident>, checks: seq<bool>, max: nat, s: EP.State)
      returns (ds: set<Ident>)
    requires TableOk(t, g) && |hashes| == |checks| && Consistent(hashes, checks)
    requires forall d :: d in g ==> Approved(hashes, checks, d)
    requires forall i :: 0 <= i < |hashes| && checks[i] ==> Has(t.segs, hashes[i])
    requires JudgeAll(t, hashes, checks, max).1 != LimitExceeded
    requires s.epoch == t.epoch && s.indexed == IndexedIn(t.segs) == s.published && s.lock.Free?
    ensures EP.Enabled(s, EP.IndexMany(ds)) && EP.Enabled(EP.Step(s, EP.IndexMany(ds)), EP.RaiseAfter)
    ensures var t' := JudgeAll(t, hashes, checks, max).0;
            var s' := EP.Step(EP.Step(s, EP.IndexMany(ds)), EP.RaiseAfter);
            s'.epoch == t'.epoch && s'.indexed == IndexedIn(t'.segs) && s'.lock.Free?
  {
    hide MapOk, Numbered, JudgeAll, Approved, Consistent;
    var g' := JudgeAllOk(t, g, hashes, checks, max);
    var t' := JudgeAll(t, hashes, checks, max).0;
    IndexedAreNumbered(t, g);
    IndexedAreNumbered(t', g + g');
    ds := set d | d in g';
    assert forall d :: d in g + g' <==> d in g || d in g';
    if g' == [] { assert ds == {}; } else { assert g'[0] in ds && g'[0] !in s.indexed; }
  }
}
