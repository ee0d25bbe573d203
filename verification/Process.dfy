/**
 One process: its segment map and verification tables, tokenization through the cache of a thread, detokenization,
 and the local halves of verify_segment and verify_all (src/ccs.hpp:169-185, 238-278, 310-351, src/ccs.cpp:538-557,
 894-916, 1010-1064, 1095-1171).
 */
module Process {
  import opened Segments
  import opened Sorting
  import opened SegmentCache
  import opened SegmentTable
  import opened Verification
  import opened Following
  import opened Tokens

  datatype Naming = NamedHash(h: Ident) | BadSegmentNamed

  /** Some entry of the cache is the segment that starts here. */
  ghost predicate Holds(ptrs: seq<PtrEntry>, idxs: seq<IdxEntry>, start: nat) {
    (exists i :: 0 <= i < |ptrs| && ptrs[i].start == start) || (exists i :: 0 <= i < |idxs| && idxs[i].start == start)
  }

  /** Entries that were not there before are of the segment that starts here. */
  ghost predicate HoldsFrom(ptr0: seq<PtrEntry>, ptr1: seq<PtrEntry>, idx0: seq<IdxEntry>, idx1: seq<IdxEntry>,
                            start: int) {
    && (forall x :: x in ptr1 ==> x in ptr0 || x.start == start)
    && (forall x :: x in idx1 ==> x in idx0 || x.start == start)
  }

  class Process {
    const primary: Seg
    var segs: seq<Seg>
    var count: nat
    var starts: map<nat, nat>
    var epoch: nat
    var enforce: bool

    function T(): Table
      reads this
    {
      Table(segs, count, starts, epoch)
    }

    ghost predicate Valid(c: SegCache)
      reads this, c, c.ptr, c.tkn, c.idx
    {
      Steady(T()) && Fits(c, segs, epoch)
    }

    /** The pointer entries that tokenization would look at. */
    ghost function Usable(c: SegCache): seq<PtrEntry>
      requires c.Shape()
      reads this, c, c.ptr
    {
      if !enforce && c.epoch == epoch then c.ptr[..c.occupancy] else []
    }

    constructor (primary: Seg, map0: seq<Seg>, enforce: bool)
      requires Pristine(map0)
      ensures Steady(T()) && segs == map0 && epoch == 0 && count == 1 && starts == map[]
      ensures this.primary == primary && this.enforce == enforce
    {
      this.primary, segs, count, starts, epoch, this.enforce := primary, map0, 1, map[], 0, enforce;
      new;
      StartSteady(map0, 0);
    }

    // ----- tokenization -----

    /** try_inactive: a linear scan with strict bounds; the segment found is activated. */
    method TryInactive(p: nat, c: SegCache) returns (r: Lookup)
      requires Valid(c)
      modifies this`segs, c`occupancy, c`evict, c`idxOccupancy, c`idxEvict, c.ptr, c.tkn, c.idx
      ensures Valid(c) && c.epoch == old(c.epoch) && Follows(old(segs), epoch, segs, epoch)
      ensures r.Hit? ==>
                Covers(segs, p, r.k) && !segs[r.k].badSegment && r.k < |old(segs)| && segs == Touched(old(segs), r.k)
      ensures r.Hit? && segs[r.k].idx > 0 ==> IdxCovers(c.idx[..c.idxOccupancy], p)
      ensures r.Hit? && segs[r.k].idx > 0 ==> c.ptr[..c.occupancy] == old(c.ptr[..c.occupancy])
      ensures r.Hit? && segs[r.k].idx <= 0 ==> PtrCovers(c.ptr[..c.occupancy], p)
      ensures !r.Hit? ==> segs == old(segs)
      ensures PtrFrom(old(c.ptr[..c.occupancy]), c.ptr[..c.occupancy], p)
      ensures IdxFrom(old(c.idx[..c.idxOccupancy]), c.idx[..c.idxOccupancy], p)
      ensures r.Miss? ==> forall i :: 0 <= i < |segs| ==> !Inside(segs[i], p)
      ensures r.BadSegment? ==> exists i :: 0 <= i < |segs| && Inside(segs[i], p) && segs[i].badSegment
    {
      hide MapOk, SortedBy, Twins, Perm, Unindexed, Follows, Steady, Replaced;
      var k := 0;
      while k < |segs| && !Inside(segs[k], p)
        invariant k <= |segs| && forall i :: 0 <= i < k ==> !Inside(segs[i], p)
      {
        k := k + 1;
      }
      FollowsSelf(segs, epoch);
      if k == |segs| { return Miss; }
      if segs[k].badSegment { return BadSegment; }
      ActivateSegment(k, c);
      r := Hit(k);
    }

    /** activate, on a segment of the map. */
    method ActivateSegment(k: nat, c: SegCache)
      requires Valid(c) && k < |segs|
      modifies this`segs, c`occupancy, c`evict, c`idxOccupancy, c`idxEvict, c.ptr, c.tkn, c.idx
      ensures Valid(c) && c.epoch == old(c.epoch) && segs == Touched(old(segs), k)
      ensures Follows(old(segs), epoch, segs, epoch)
      ensures segs[k].idx > 0 ==> IdxEntry(segs[k].start, segs[k].end, segs[k].idx) in c.idx[..c.idxOccupancy]
      ensures segs[k].idx > 0 ==> c.ptr[..c.occupancy] == old(c.ptr[..c.occupancy])
      ensures segs[k].idx <= 0 ==> PtrEntry(segs[k].start, segs[k].end, segs[k].ident) in c.ptr[..c.occupancy]
      ensures OnlyFrom(old(c.ptr[..c.occupancy]), c.ptr[..c.occupancy],
                       PtrEntry(segs[k].start, segs[k].end, segs[k].ident))
      ensures OnlyFrom(old(c.idx[..c.idxOccupancy]), c.idx[..c.idxOccupancy],
                       IdxEntry(segs[k].start, segs[k].end, segs[k].idx))
    {
      hide MapOk, SortedBy, Twins, Perm, Unindexed, Follows, Replaced, PtrListed, IdxListed, SegSteady, OnlyFrom;
      TouchFollows(T(), k);
      ghost var segs0 := segs;
      segs := segs[k := segs[k].(touched := true)];
      FollowsFits(c, segs0, epoch, segs, epoch);
      ghost var ptr0, tkn0 := c.ptr[..c.occupancy], c.tkn[..c.occupancy];
      ghost var room, victim := c.occupancy < CAPACITY, c.tkn[c.evict];
      c.Activate(segs[k], segs);
      if c.epoch == epoch {
        if segs[k].idx > 0 {
          assert c.ptr[..c.occupancy] == ptr0;
        } else {
          StillUnindexed(segs, k, ptr0, tkn0, c.ptr[..c.occupancy], c.tkn[..c.occupancy], room, victim);
        }
      }
    }

    /** rebuild_segment_map: the map becomes what the loader reports now. */
    method RebuildMap(news: seq<Seg>)
      requires Steady(T()) && Pristine(news) && Grows(segs, news)
      modifies this`segs
      ensures Steady(T()) && segs == Rebuilt(old(segs), news) && Follows(old(segs), epoch, segs, epoch)
    {
      hide MapOk, Rebuilt, Follows, Steady;
      SteadyMap(T());
      RebuildSteady(T(), news);
      RebuildFollows(segs, news, epoch);
      segs := Rebuild(segs, news);
    }

    /** search_map by pointer: the map, and if that fails the map rebuilt. */
    method SearchMap(p: nat, c: SegCache, news: seq<Seg>) returns (r: Lookup, ghost from: seq<Seg>)
      requires Valid(c) && Pristine(news) && Grows(segs, news)
      modifies this`segs, c`occupancy, c`evict, c`idxOccupancy, c`idxEvict, c.ptr, c.tkn, c.idx
      ensures Valid(c) && c.epoch == old(c.epoch) && MapOk(from) && Follows(old(segs), epoch, segs, epoch)
      ensures Grows(segs, news) && (Known(old(segs), p) ==> SameRanges(old(segs), segs))
      ensures from == if Known(old(segs), p) then old(segs) else Rebuilt(old(segs), news)
      ensures |segs| == |from| && Answer(from, p, r) && (r.Hit? ==> r.k < |segs| && SameSeg(segs[r.k], from[r.k]))
      ensures r.Hit? && segs[r.k].idx > 0 ==> IdxCovers(c.idx[..c.idxOccupancy], p)
      ensures r.Hit? && segs[r.k].idx <= 0 ==> PtrCovers(c.ptr[..c.occupancy], p)
      ensures PtrFrom(old(c.ptr[..c.occupancy]), c.ptr[..c.occupancy], p)
      ensures IdxFrom(old(c.idx[..c.idxOccupancy]), c.idx[..c.idxOccupancy], p)
    {
      hide MapOk, SortedBy, Twins, Perm, Rebuilt, Unindexed, Follows, Steady, PtrCovers, IdxCovers;
      from := segs;
      SteadyMap(T());
      r := TryInactive(p, c);
      if r.Miss? {
        assert !Known(from, p);
        RebuildMap(news);
        FollowsFits(c, from, epoch, segs, epoch);
        ghost var segs1 := segs;
        SteadyMap(T());
        r := TryInactive(p, c);
        FollowsOn(from, epoch, segs1, epoch, segs, epoch);
        from := segs1;
        GrownByNews(old(segs), news);
      } else if r.Hit? {
        assert Covers(from, p, r.k);
      } else {
        ghost var k :| 0 <= k < |segs| && Inside(segs[k], p) && segs[k].badSegment;
        assert Covers(from, p, k);
      }
      Answered(from, segs, p, r);
      if r.Hit? { GrowsTouched(from, r.k, news); }
    }

    /**
     function_token::tokenize. Through whatever cache answers, an interior pointer of a good segment gets the token that
     a linear scan of the map gives it, from the map as it is or, for a pointer not in it, the map rebuilt. A pointer
     in a bad segment is refused exactly when no cache covers it, and an end of a segment gets what a cache that covers
     it says, or else what the scan says. What was answered is cached.
     */
    method Tokenize(p: nat, c: SegCache, news: seq<Seg>) returns (r: Outcome)
      requires Valid(c) && Pristine(news) && Grows(segs, news)
      modifies this`segs, c, c.ptr, c.tkn, c.idx
      ensures Valid(c) && Follows(old(segs), epoch, segs, epoch)
      ensures Grows(segs, news) && (Known(old(segs), p) ==> SameRanges(old(segs), segs))
      ensures primary.start <= p < primary.end <==> r == Got(Single(p - primary.start))
      ensures !(primary.start <= p < primary.end) ==>
                Answers(old(segs), Rebuilt(old(segs), news), old(c.idx[..c.idxOccupancy]), old(Usable(c)), p, enforce,
                        r)
      ensures !(primary.start <= p < primary.end) && r.Got? ==>
                if r.token.MultiIdx? then IdxCovers(c.idx[..c.idxOccupancy], p) else PtrCovers(Usable(c), p)
      ensures PtrFrom(old(c.ptr[..c.occupancy]), c.ptr[..c.occupancy], p)
      ensures IdxFrom(old(c.idx[..c.idxOccupancy]), c.idx[..c.idxOccupancy], p)
    {
      hide MapOk, SortedBy, Twins, Perm, Rebuilt, Unindexed, Follows, Steady, PtrCovers, IdxCovers, Known, Answers;
      ghost var segs0, idx0, ptr0, all := segs, c.idx[..c.idxOccupancy], Usable(c), c.ptr[..c.occupancy];
      SteadyMap(T());
      FollowsSelf(segs, epoch);
      if p >= primary.start && p < primary.end { return Got(Single(p - primary.start)); }
      var found, k := c.SearchIdx(p, segs);
      if found {
        IdxAnswers(segs, Rebuilt(segs, news), idx0, k, ptr0, p, enforce);
        return Got(MultiIdx(p - c.idx[k].start, c.idx[k].idx));
      }
      assert !IdxCovers(idx0, p) by { NotInIdx(c, idx0, p); }
      if !enforce {
        found, k := c.SearchPtr(p, epoch, segs);
        if found {
          assert c.ptr[..c.occupancy] == all == ptr0;
          PtrAnswers(segs, Rebuilt(segs, news), idx0, ptr0, k, p);
          return Got(Multi(p - c.ptr[k].start, c.ptr[k].ident));
        }
        if c.occupancy == 0 { NothingCached(segs, c.ptr[..c.occupancy]); }
        assert c.ptr[..c.occupancy] == all || c.ptr[..c.occupancy] == [];
      }
      assert !PtrCovers(ptr0, p) by {
        NothingLeft(p);
        if ptr0 != [] { NotInPtr(c, ptr0, p); }
      }
      var look;
      ghost var from;
      look, from := SearchMap(p, c, news);
      r := if look.Hit? then TokenIn(segs[look.k], p, enforce) else Fatal;
      ghost var s := if look.Hit? then segs[look.k] else primary;
      ScanAnswers(segs0, Rebuilt(segs0, news), from, p, look, s, idx0, ptr0, enforce);
    }

    // ----- detokenization -----

    /** search_map by hash on one version of the map; the segment found is activated. */
    method FindIdent(d: Ident, c: SegCache) returns (found: bool, start: nat)
      requires Valid(c)
      modifies this`segs, c`occupancy, c`evict, c`idxOccupancy, c`idxEvict, c.ptr, c.tkn, c.idx
      ensures Valid(c) && c.epoch == old(c.epoch) && Follows(old(segs), epoch, segs, epoch)
      ensures found <==> Has(old(segs), d)
      ensures found ==> HasStart(old(segs), d, start) && Holds(c.ptr[..c.occupancy], c.idx[..c.idxOccupancy], start)
      ensures SameRanges(old(segs), segs) && (!found ==> segs == old(segs))
      ensures forall k :: 0 <= k < |segs| ==> segs[k].idx == old(segs)[k].idx
      ensures HoldsFrom(old(c.ptr[..c.occupancy]), c.ptr[..c.occupancy], old(c.idx[..c.idxOccupancy]),
                        c.idx[..c.idxOccupancy], if found then start else -1)
      ensures found ==> forall k :: 0 <= k < |segs| && segs[k].ident == d && !segs[k].badSegment ==>
                if segs[k].idx > 0 then c.ptr[..c.occupancy] == old(c.ptr[..c.occupancy])
                else PtrEntry(segs[k].start, segs[k].end, segs[k].ident) in c.ptr[..c.occupancy]
    {
      hide MapOk, SortedBy, Twins, Perm, Unindexed, Follows, Steady, Holds;
      start := 0;
      var k := 0;
      while k < |segs| && segs[k].ident != d
        invariant k <= |segs| && forall i :: 0 <= i < k ==> segs[i].ident != d
      {
        k := k + 1;
      }
      FollowsSelf(segs, epoch);
      found := k < |segs|;
      if found {
        start := segs[k].start;
        ActivateSegment(k, c);
        OnlyGood(T(), k);
        HeldAt(c.ptr[..c.occupancy], c.idx[..c.idxOccupancy], segs[k]);
      }
    }

    /** function_token_ms::detokenize: the segment with the token's hash, wherever it is known; it is cached then. */
    method DetokenizeHash(offset: int, d: Ident, c: SegCache, news: seq<Seg>) returns (r: Address)
      requires Valid(c) && Pristine(news) && Grows(segs, news)
      modifies this`segs, c`occupancy, c`evict, c`idxOccupancy, c`idxEvict, c.ptr, c.tkn, c.idx
      ensures Valid(c) && Follows(old(segs), epoch, segs, epoch) && Grows(segs, news)
      ensures Has(old(segs), d) ==> SameRanges(old(segs), segs)
      ensures Lands(old(segs), Rebuilt(old(segs), news), offset, d, r)
      ensures r.At? ==> r.addr - offset >= 0 && Holds(c.ptr[..c.occupancy], c.idx[..c.idxOccupancy], r.addr - offset)
      ensures HoldsFrom(old(c.ptr[..c.occupancy]), c.ptr[..c.occupancy], old(c.idx[..c.idxOccupancy]),
                        c.idx[..c.idxOccupancy], if r.At? then r.addr - offset else -1)
    {
      hide MapOk, SortedBy, Perm, Rebuilt, Unindexed, Follows, Steady, Holds;
      ghost var segs0 := segs;
      FollowsSelf(segs, epoch);
      var found, k := c.SearchTkn(d, segs);
      if found {
        ghost var i := TwinOf(c.ptr[..c.occupancy], c.tkn[..c.occupancy], k);
        HeldByPtr(c.ptr[..c.occupancy], c.idx[..c.idxOccupancy], i);
        assert Listed(segs, c.ptr[..c.occupancy][i].start, c.ptr[..c.occupancy][i].end, d);
        return At(c.tkn[k].start + offset);
      }
      hide Twins, Lands;
      r := DetokenizeByMap(offset, d, c, news);
    }

    /** search_map by hash: the map, and if that fails the map rebuilt. */
    method DetokenizeByMap(offset: int, d: Ident, c: SegCache, news: seq<Seg>) returns (r: Address)
      requires Valid(c) && Pristine(news) && Grows(segs, news)
      modifies this`segs, c`occupancy, c`evict, c`idxOccupancy, c`idxEvict, c.ptr, c.tkn, c.idx
      ensures Valid(c) && Follows(old(segs), epoch, segs, epoch) && Grows(segs, news)
      ensures Has(old(segs), d) ==> SameRanges(old(segs), segs)
      ensures Lands(old(segs), Rebuilt(old(segs), news), offset, d, r)
      ensures r.At? ==> r.addr - offset >= 0 && Holds(c.ptr[..c.occupancy], c.idx[..c.idxOccupancy], r.addr - offset)
      ensures HoldsFrom(old(c.ptr[..c.occupancy]), c.ptr[..c.occupancy], old(c.idx[..c.idxOccupancy]),
                        c.idx[..c.idxOccupancy], if r.At? then r.addr - offset else -1)
    {
      hide MapOk, SortedBy, Perm, Rebuilt, Unindexed, Follows, Steady;
      hide Holds, Twins, Fits, Has, HasStart, SameRanges, Grows;
      ghost var segs0 := segs;
      var found, start := FindIdent(d, c);
      if !found {
        SteadyMap(T());
        GrownByNews(segs, news);
        RebuildMap(news);
        FollowsFits(c, segs0, epoch, segs, epoch);
        ghost var segs1 := segs;
        found, start := FindIdent(d, c);
        FollowsOn(segs0, epoch, segs1, epoch, segs, epoch);
        GrowsSame(segs1, segs, news);
      } else {
        GrowsSame(segs0, segs, news);
      }
      r := if found then At(start + offset) else NoAddress;
    }

    /**
     function_token::detokenize: by the kind of the token. The array of starts is filled up with zeros
     (src/backend/gasnet/runtime.cpp:871).
     */
    method Detokenize(token: Token, c: SegCache, news: seq<Seg>) returns (r: Address)
      requires Valid(c) && Pristine(news) && Grows(segs, news)
      modifies this`segs, c`occupancy, c`evict, c`idxOccupancy, c`idxEvict, c.ptr, c.tkn, c.idx
      ensures Valid(c) && Follows(old(segs), epoch, segs, epoch) && Grows(segs, news)
      ensures Detokenized(primary, old(T()), news, token, r) && (!token.Multi? ==> segs == old(segs))
      ensures HoldsFrom(old(c.ptr[..c.occupancy]), c.ptr[..c.occupancy], old(c.idx[..c.idxOccupancy]),
                        c.idx[..c.idxOccupancy], if token.Multi? && r.At? then r.addr - token.offset else -1)
    {
      hide MapOk, Rebuilt, Follows, Steady, Holds, Lands, Fits;
      FollowsSelf(segs, epoch);
      match token
      case Single(offset) => r := At(primary.start + offset);
      case MultiIdx(offset, idx) => r := At((if idx in starts then starts[idx] else 0) + offset);
      case Multi(offset, d) => r := DetokenizeHash(offset, d, c, news);
    }

    // ----- verification -----

    /** The hash of the segment strictly around p in the rebuilt map, or the empty hash. */
    method NameSegment(p: nat, news: seq<Seg>) returns (r: Naming)
      requires Steady(T()) && Pristine(news) && Grows(segs, news)
      modifies this`segs
      ensures Steady(T()) && Follows(old(segs), epoch, segs, epoch) && segs == Rebuilt(old(segs), news)
      ensures NamedBy(segs, p, r)
    {
      hide MapOk, Rebuilt, Follows, Steady;
      RebuildMap(news);
      var k := 0;
      while k < |segs| && !Inside(segs[k], p)
        invariant k <= |segs| && forall i :: 0 <= i < k ==> !Inside(segs[i], p)
      {
        k := k + 1;
      }
      if k == |segs| { return NamedHash(NO_IDENT); }
      assert Covers(segs, p, k);
      if segs[k].badSegment { return BadSegmentNamed; }
      SteadyMap(T());
      OwnHash(segs, k);
      return NamedHash(segs[k].ident);
    }

    /** Lines 1039-1064: the call succeeds or fails, and what becomes of the segment named here. */
    method JudgeOne(h: Ident, reduced: Ident, max: nat) returns (v: Verdict)
      modifies this`segs, this`count, this`starts, this`epoch
      ensures (T(), v) == JudgeSegment(old(T()), h, reduced, max)
      ensures SegmentJudged(old(T()), h, reduced, max, T(), v)
    {
      hide SegmentJudged;
      JudgeSegmentSays(T(), h, reduced, max);
      PositionFinds(segs, h);
      var k := 0;
      while k < |segs| && segs[k].ident != h
        invariant k <= |segs| && forall i :: 0 <= i < k ==> segs[i].ident != h
      {
        k := k + 1;
      }
      if k == |segs| { return NotOnAllRanks; }
      if reduced == NO_IDENT {
        segs := segs[k := segs[k].(badVerification := true, verified := false)];
        return NotOnAllRanks;
      }
      if segs[k].verified { return Verified; }
      if count > max { return LimitExceeded; }
      epoch := epoch + 1;
      segs := segs[k := segs[k].(verified := true, badVerification := false)];
      var idx := count;
      count := count + 1;
      segs := segs[k := segs[k].(idx := idx)];
      starts := starts[idx := segs[k].start];
      assert segs == old(segs)[k := old(segs)[k].(verified := true, badVerification := false, idx := idx)];
      v := Verified;
    }

    /** Lines 1095-1102: which hashes of the list are loaded here. */
    method CheckList(hashes: seq<Ident>) returns (checks: seq<bool>)
      ensures |checks| == |hashes| && forall i :: 0 <= i < |hashes| ==> (checks[i] <==> Has(segs, hashes[i]))
    {
      checks := [];
      for i := 0 to |hashes|
        invariant |checks| == i && forall j :: 0 <= j < i ==> (checks[j] <==> Has(segs, hashes[j]))
      {
        var k := 0;
        while k < |segs| && segs[k].ident != hashes[i]
          invariant k <= |segs| && forall j :: 0 <= j < k ==> segs[j].ident != hashes[i]
        {
          k := k + 1;
        }
        assert k < |segs| ==> Has(segs, segs[k].ident);
        checks := checks + [k < |segs|];
      }
    }

    /** Lines 1110-1131: the flags. */
    method FlagEvery(hashes: seq<Ident>, checks: seq<bool>)
      requires |hashes| == |checks|
      modifies this`segs
      ensures segs == Flagged(old(segs), hashes, checks)
    {
      ghost var segs0 := segs;
      for i := 0 to |hashes|
        invariant segs == FlagList(segs0, hashes[..i], checks[..i])
      {
        assert hashes[..i + 1][..i] == hashes[..i] && checks[..i + 1][..i] == checks[..i];
        PositionFinds(segs, hashes[i]);
        var k := 0;
        while k < |segs| && segs[k].ident != hashes[i]
          invariant k <= |segs| && forall j :: 0 <= j < k ==> segs[j].ident != hashes[i]
        {
          k := k + 1;
        }
        if k < |segs| {
          segs := segs[k := if checks[i] then segs[k].(verified := true, badVerification := false)
                            else segs[k].(badVerification := true, verified := false)];
        }
      }
      assert hashes[..|hashes|] == hashes && checks[..|hashes|] == checks;
      ghost var segs1 := segs;
      for k := 0 to |segs|
        invariant |segs| == |segs1|
        invariant forall j :: 0 <= j < |segs| ==> segs[j] == if j < k then Blame(segs1[j]) else segs1[j]
      {
        if !(segs[k].verified || segs[k].badVerification) {
          segs := segs[k := segs[k].(badVerification := true, verified := false)];
        }
      }
    }

    /** Lines 1140-1152: verified segments not in the table of starts. */
    method CollectNew() returns (news: seq<Seg>)
      ensures news == NewSegs(segs, starts, count)
    {
      news := [];
      for k := 0 to |segs|
        invariant news == NewSegs(segs[..k], starts, count)
      {
        assert segs[..k + 1][..k] == segs[..k];
        if segs[k].verified {
          var found := false;
          for i := 1 to count + 1
            invariant found <==> exists j :: 1 <= j < i && j in starts && starts[j] == segs[k].start
          {
            if i in starts && segs[k].start == starts[i] {
              found := true;
              break;
            }
          }
          if !found { news := news + [segs[k]]; }
        }
      }
      assert segs[..|segs|] == segs;
    }

    /** Lines 1161-1168. */
    method AssignEvery(news: seq<Seg>)
      modifies this`segs, this`count, this`starts
      ensures T() == Assign(old(T()), news)
    {
      for i := 0 to |news|
        invariant Assign(T(), news[i..]) == Assign(old(T()), news)
      {
        ghost var t := T();
        var start := news[i].start;
        var idx := count;
        count := count + 1;
        starts := starts[idx := start];
        ghost var segs0 := segs;
        for k := 0 to |segs|
          invariant |segs| == |segs0| && count == t.count + 1 && starts == t.starts[t.count := start]
          invariant epoch == t.epoch
          invariant forall j :: 0 <= j < |segs| ==>
                    segs[j] == if j < k && segs0[j].start == start then segs0[j].(idx := idx) else segs0[j]
        {
          if start == segs[k].start { segs := segs[k := segs[k].(idx := idx)]; }
        }
        assert segs == SetIdx(segs0, start, idx);
        assert news[i..][1..] == news[i + 1..];
      }
      assert news[|news|..] == [];
    }

    /** The locked part of verify_all. */
    method JudgeEvery(hashes: seq<Ident>, checks: seq<bool>, max: nat) returns (v: Verdict)
      requires |hashes| == |checks|
      modifies this`segs, this`count, this`starts, this`epoch
      ensures (T(), v) == JudgeAll(old(T()), hashes, checks, max)
      ensures MapOk(old(segs)) ==> AllJudged(old(T()), hashes, checks, max, T(), v)
    {
      hide MapOk, AllJudged;
      ghost var t := T();
      if MapOk(segs) { JudgeAllSays(t, hashes, checks, max); }
      FlagEvery(hashes, checks);
      var news := CollectNew();
      news := Sorted(news);
      if count + |news| > max { return LimitExceeded; }
      AssignEvery(news);
      if |news| > 0 { epoch := epoch + 1; }
      v := Verified;
    }
  }

  /** The segment around a pointer is named by its hash, if there is one and it is good. */
  ghost predicate NamedBy(segs: seq<Seg>, p: nat, r: Naming) {
    match r
    case NamedHash(h) =>
      if h == NO_IDENT then !Known(segs, p)
      else exists k :: Covers(segs, p, k) && segs[k].ident == h && !segs[k].badSegment
    case BadSegmentNamed => exists k :: Covers(segs, p, k) && segs[k].badSegment
  }

  /**
   Where a token leads: at its offset from the start of the primary segment, of the segment with its index, or of a
   segment with its hash.
   */
  ghost predicate Detokenized(primary: Seg, t: Table, news: seq<Seg>, token: Token, r: Address) {
    match token
    case Single(offset) => r == At(primary.start + offset)
    case MultiIdx(offset, idx) => if idx in t.starts then r == At(t.starts[idx] + offset) else r == At(offset)
    case Multi(offset, d) => Lands(t.segs, Rebuilt(t.segs, news), offset, d, r)
  }

  /** Where a hash token leads: to a segment with the hash in the map, or else in the map rebuilt. */
  ghost predicate Lands(segs: seq<Seg>, rebuilt: seq<Seg>, offset: int, d: Ident, r: Address) {
    if Has(segs, d) then r.At? && r.addr - offset >= 0 && HasStart(segs, d, r.addr - offset)
    else if Has(rebuilt, d) then r.At? && r.addr - offset >= 0 && HasStart(rebuilt, d, r.addr - offset)
    else r == NoAddress
  }

  lemma HeldAt(ptrs: seq<PtrEntry>, idxs: seq<IdxEntry>, s: Seg)
    requires if s.idx > 0 then IdxEntry(s.start, s.end, s.idx) in idxs else PtrEntry(s.start, s.end, s.ident) in ptrs
    ensures Holds(ptrs, idxs, s.start)
  {
    if s.idx > 0 {
      var i :| 0 <= i < |idxs| && idxs[i] == IdxEntry(s.start, s.end, s.idx);
    } else {
      var i :| 0 <= i < |ptrs| && ptrs[i] == PtrEntry(s.start, s.end, s.ident);
    }
  }

  lemma HeldByPtr(ptrs: seq<PtrEntry>, idxs: seq<IdxEntry>, i: nat)
    requires i < |ptrs|
    ensures Holds(ptrs, idxs, ptrs[i].start)
  {}

  lemma SteadyMap(t: Table)
    requires Steady(t)
    ensures MapOk(t.segs)
  {}

  lemma FollowsSelf(segs: seq<Seg>, epoch: nat)
    ensures Follows(segs, epoch, segs, epoch)
  {}

  lemma NothingCached(segs: seq<Seg>, s: seq<PtrEntry>)
    requires s == []
    ensures Unindexed(segs, s)
  {}

  lemma NotInIdx(c: SegCache, s: seq<IdxEntry>, p: nat)
    requires c.idxOccupancy <= c.idx.Length && s == c.idx[..c.idxOccupancy]
    requires forall i :: 0 <= i < c.idxOccupancy ==> !(c.idx[i].start <= p <= c.idx[i].end)
    ensures !IdxCovers(s, p)
  {}

  lemma NotInPtr(c: SegCache, s: seq<PtrEntry>, p: nat)
    requires c.occupancy <= c.ptr.Length && s == c.ptr[..c.occupancy]
    requires forall i :: 0 <= i < c.occupancy ==> !(c.ptr[i].start <= p <= c.ptr[i].end)
    ensures !PtrCovers(s, p)
  {}

  lemma GrownByNews(olds: seq<Seg>, news: seq<Seg>)
    requires MapOk(olds) && Pristine(news) && Grows(olds, news)
    ensures Grows(Rebuilt(olds, news), news)
  {
    hide MapOk, Rebuilt;
    RebuiltOk(olds, news);
    GrowsSame(news, Rebuilt(olds, news), news);
  }

  lemma GrowsSame(a: seq<Seg>, b: seq<Seg>, news: seq<Seg>)
    requires SameRanges(a, b) && (a == news || Grows(a, news))
    ensures Grows(b, news)
  {
    forall i | 0 <= i < |b|
      ensures Listed(news, b[i].start, b[i].end, b[i].ident)
    {
      if a == news {
        assert news[i].start == b[i].start;
      } else {
        assert Listed(news, a[i].start, a[i].end, a[i].ident);
      }
    }
  }

  lemma GrowsTouched(segs: seq<Seg>, k: nat, news: seq<Seg>)
    requires k < |segs| && Grows(segs, news)
    ensures Grows(Touched(segs, k), news)
  {
    GrowsSame(segs, Touched(segs, k), news);
  }

  lemma GrowsOn(a: seq<Seg>, b: seq<Seg>, c: seq<Seg>)
    requires Grows(a, b) && Grows(b, c)
    ensures Grows(a, c)
  {
    forall i | 0 <= i < |a|
      ensures Listed(c, a[i].start, a[i].end, a[i].ident)
    {
      var k := Grown(a, b, i);
      assert Listed(c, b[k].start, b[k].end, b[k].ident);
    }
  }

  lemma EmptyFits(c: SegCache)
    requires c.Valid([]) && c.occupancy == 0 && c.idxOccupancy == 0 && c.epoch == 0
    ensures forall segs, epoch: nat :: Fits(c, segs, epoch)
  {
    assert c.ptr[..0] == [] && c.idx[..0] == [];
  }

  lemma OnlyGood(t: Table, k: nat)
    requires Steady(t) && k < |t.segs|
    ensures forall i :: 0 <= i < |t.segs| && t.segs[i].ident == t.segs[k].ident && !t.segs[i].badSegment ==> i == k
  {
    forall i | 0 <= i < |t.segs| && t.segs[i].ident == t.segs[k].ident && !t.segs[i].badSegment
      ensures i == k
    {
      OwnHash(t.segs, i);
    }
  }
}
