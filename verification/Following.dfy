/**
 What a change of the segment map does to caches that were filled before it. Loading, tokenization and verification
 all leave every cache of every thread usable (src/ccs.hpp:149-185, src/ccs.cpp:538-557, 1039-1064, 1106-1171).
 */
module Following {
  import opened Segments
  import opened Sorting
  import opened SegmentCache
  import opened SegmentTable
  import opened Verification

  /** The good segment that starts here has an index. */
  ghost predicate Numbers(segs: seq<Seg>, start: nat) {
    exists k :: 0 <= k < |segs| && segs[k].start == start && !segs[k].badSegment && segs[k].idx > 0
  }

  /** No entry of the pointer cache is a good segment that has an index. */
  ghost predicate Unindexed(segs: seq<Seg>, s: seq<PtrEntry>) {
    forall i :: 0 <= i < |s| ==> !Numbers(segs, s[i].start)
  }

  /** The cache belongs to the map, and holds no indexed segment by pointer unless it is known to be stale. */
  ghost predicate Fits(c: SegCache, segs: seq<Seg>, epoch: nat)
    reads c, c.ptr, c.tkn, c.idx
  {
    c.Valid(segs) && c.epoch <= epoch && (c.epoch == epoch ==> Unindexed(segs, c.ptr[..c.occupancy]))
  }

  /** A map and an epoch that caches of the earlier map and epoch still fit. */
  ghost predicate Follows(segs0: seq<Seg>, epoch0: nat, segs1: seq<Seg>, epoch1: nat) {
    && (forall s, e, d :: Listed(segs0, s, e, d) ==> Listed(segs1, s, e, d))
    && (forall s, e, x :: Indexed(segs0, s, e, x) ==> Indexed(segs1, s, e, x))
    && epoch0 <= epoch1
    && (epoch0 == epoch1 ==> forall s, e, d :: Listed(segs0, s, e, d) && Numbers(segs1, s) ==> Numbers(segs0, s))
  }

  lemma FollowsFits(c: SegCache, segs0: seq<Seg>, epoch0: nat, segs1: seq<Seg>, epoch1: nat)
    requires Fits(c, segs0, epoch0) && Follows(segs0, epoch0, segs1, epoch1)
    ensures Fits(c, segs1, epoch1)
  {
    hide Twins, SortedBy, Listed, Indexed, Numbers;
  }

  lemma FollowsOn(segs0: seq<Seg>, e0: nat, segs1: seq<Seg>, e1: nat, segs2: seq<Seg>, e2: nat)
    requires Follows(segs0, e0, segs1, e1) && Follows(segs1, e1, segs2, e2)
    ensures Follows(segs0, e0, segs2, e2)
  {
    hide Listed, Indexed, Numbers;
  }

  /** Indices of good segments stay, whatever happens to the rest. */
  lemma FollowsBy(segs0: seq<Seg>, e0: nat, segs1: seq<Seg>, e1: nat)
    requires SameRanges(segs0, segs1) && MapOk(segs0) && e0 <= e1
    requires forall i :: 0 <= i < |segs0| && !segs0[i].badSegment && segs0[i].idx > 0 ==> segs1[i].idx == segs0[i].idx
    requires e0 == e1 ==> forall i :: 0 <= i < |segs0| && !segs0[i].badSegment && segs1[i].idx > 0 ==> segs0[i].idx > 0
    ensures Follows(segs0, e0, segs1, e1)
  {
    forall s, e, d | Listed(segs0, s, e, d)
      ensures Listed(segs1, s, e, d)
    {
      var i :| 0 <= i < |segs0| && segs0[i].start == s && segs0[i].end == e && segs0[i].ident == d;
      assert segs1[i].start == s;
    }
    forall s, e, x | Indexed(segs0, s, e, x)
      ensures Indexed(segs1, s, e, x)
    {
      var i :| 0 <= i < |segs0| && segs0[i].start == s && segs0[i].end == e
        && (segs0[i].badSegment || segs0[i].idx == x);
      assert segs1[i].start == s;
    }
    if e0 == e1 {
      forall s | Numbers(segs1, s)
        ensures Numbers(segs0, s)
      {
        var k :| 0 <= k < |segs1| && segs1[k].start == s && !segs1[k].badSegment && segs1[k].idx > 0;
        assert segs0[k].start == s;
      }
    }
  }

  lemma RebuildFollows(olds: seq<Seg>, news: seq<Seg>, epoch: nat)
    requires MapOk(olds) && Pristine(news) && Grows(olds, news)
    ensures Follows(olds, epoch, Rebuilt(olds, news), epoch)
  {
    hide MapOk, Rebuilt;
    var r := Rebuilt(olds, news);
    RebuiltOk(olds, news);
    forall s, e, d | Listed(olds, s, e, d)
      ensures Listed(r, s, e, d) && (Numbers(r, s) ==> Numbers(olds, s))
    {
      var i :| 0 <= i < |olds| && olds[i].start == s && olds[i].end == e && olds[i].ident == d;
      var k := RebuiltKeeps(olds, news, i);
      assert r[k].start == s;
      if Numbers(r, s) {
        var m :| 0 <= m < |r| && r[m].start == s && !r[m].badSegment && r[m].idx > 0;
        SameStart(r, m, k);
      }
    }
    forall s, e, x | Indexed(olds, s, e, x)
      ensures Indexed(r, s, e, x)
    {
      var i :| 0 <= i < |olds| && olds[i].start == s && olds[i].end == e && (olds[i].badSegment || olds[i].idx == x);
      var k := RebuiltKeeps(olds, news, i);
      assert r[k].start == s;
    }
  }

  // ----- verification -----

  /** A good segment is verified, indexed and in the table of starts, or none of these. */
  predicate SegSteady(s: Seg, starts: map<nat, nat>, count: nat) {
    !s.badSegment ==> (s.verified <==> s.idx > 0) && (s.idx > 0 <==> InStarts(starts, count, s.start))
  }

  ghost predicate StartsOne(segs: seq<Seg>, start: nat) { exists k :: 0 <= k < |segs| && segs[k].start == start }

  /** The tables of a process, whatever duplicates it has loaded. */
  ghost predicate Steady(t: Table) {
    && MapOk(t.segs) && t.count >= 1
    && (forall i :: i in t.starts ==> 1 <= i < t.count && StartsOne(t.segs, t.starts[i]))
    && forall k :: 0 <= k < |t.segs| ==> SegSteady(t.segs[k], t.starts, t.count)
  }

  /** The tables of a rank that takes part in the agreement on indices are of this kind. */
  lemma TableSteady(t: Table, g: seq<Ident>)
    requires TableOk(t, g)
    ensures Steady(t)
  {
    hide MapOk, InStarts;
    NumberedMap(t, g);
    forall k | 0 <= k < |t.segs| ensures SegSteady(t.segs[k], t.starts, t.count) { StartsKnow(t, g, k); }
    forall i | i in t.starts ensures StartsOne(t.segs, t.starts[i]) { assert SlotOk(t.segs, t.starts, g, i - 1); }
  }

  lemma RebuildSteady(t: Table, news: seq<Seg>)
    requires Steady(t) && Pristine(news) && Grows(t.segs, news)
    ensures Steady(t.(segs := Rebuilt(t.segs, news)))
  {
    hide MapOk, InStarts, Rebuilt;
    var segs := Rebuilt(t.segs, news);
    RebuiltOk(t.segs, news);
    forall i | i in t.starts
      ensures StartsOne(segs, t.starts[i])
    {
      var o :| 0 <= o < |t.segs| && t.segs[o].start == t.starts[i];
      var k := RebuiltKeeps(t.segs, news, o);
    }
    forall k | 0 <= k < |segs| && !segs[k].badSegment
      ensures SegSteady(segs[k], t.starts, t.count)
    {
      RebuiltAt(t.segs, news, k);
      if i :| 0 <= i < |t.segs| && t.segs[i].ident == segs[k].ident {
        assert segs[k] == t.segs[i];
      } else {
        assert segs[k] == news[k];
        if InStarts(t.starts, t.count, segs[k].start) { NotNew(t, news, k); }
      }
    }
  }

  /** A segment of the table of starts is not new. */
  lemma NotNew(t: Table, news: seq<Seg>, k: nat)
    requires Steady(t) && MapOk(news) && Grows(t.segs, news) && k < |news| && InStarts(t.starts, t.count, news[k].start)
    ensures exists i :: 0 <= i < |t.segs| && t.segs[i].ident == news[k].ident
  {
    var i :| 1 <= i <= t.count && i in t.starts && t.starts[i] == news[k].start;
    var o :| 0 <= o < |t.segs| && t.segs[o].start == t.starts[i];
    var m := Grown(t.segs, news, o);
    SameStart(news, m, k);
  }

  /** The call fails although the segment named here has an index. */
  predicate Forgets(t: Table, h: Ident, reduced: Ident) {
    && reduced == NO_IDENT
    && exists k :: 0 <= k < |t.segs| && t.segs[k].ident == h && !t.segs[k].badSegment && t.segs[k].idx > 0
  }

  lemma InStartsMore(starts: map<nat, nat>, count: nat, start: nat, s: nat)
    requires count >= 1 && forall i :: i in starts ==> 1 <= i < count
    ensures InStarts(starts[count := start], count + 1, s) <==> InStarts(starts, count, s) || s == start
  {
    var more := starts[count := start];
    if InStarts(starts, count, s) {
      var i :| 1 <= i <= count && i in starts && starts[i] == s;
      assert more[i] == s;
    }
    if s == start { assert more[count] == s; }
  }

  /** Judging one segment: caches stay usable, and the tables steady unless a numbered segment is forgotten. */
  lemma JudgeSegmentFollows(t: Table, h: Ident, reduced: Ident, max: nat)
    requires Steady(t)
    ensures var t' := JudgeSegment(t, h, reduced, max).0;
            && Follows(t.segs, t.epoch, t'.segs, t'.epoch) && SameRanges(t.segs, t'.segs)
            && (!Forgets(t, h, reduced) ==> Steady(t'))
  {
    hide MapOk, InStarts, Follows;
    var t' := JudgeSegment(t, h, reduced, max).0;
    var k := Position(t.segs, h);
    PositionFinds(t.segs, h);
    NonNegative(t.segs);
    FollowsBy(t.segs, t.epoch, t'.segs, t'.epoch);
    SameRangesOk(t.segs, t'.segs);
    if t' != t && !Forgets(t, h, reduced) { StartsFollow(t, t', k); }
  }

  lemma StartsFollow(t: Table, t': Table, k: nat)
    requires Steady(t) && k < |t.segs| && SameRanges(t.segs, t'.segs) && MapOk(t'.segs)
    requires forall i :: 0 <= i < |t.segs| && i != k ==> t'.segs[i] == t.segs[i]
    requires if t'.count == t.count
             then t'.starts == t.starts && (t'.segs[k].badSegment
                                            || (!t'.segs[k].verified && t'.segs[k].idx == t.segs[k].idx == 0))
             else t'.count == t.count + 1 && t'.starts == t.starts[t.count := t.segs[k].start]
                  && t'.segs[k].verified && t'.segs[k].idx == t.count
    ensures Steady(t')
  {
    hide MapOk, InStarts;
    StartsSame(t.segs, t'.segs);
    assert StartsOne(t'.segs, t.segs[k].start) by { assert t'.segs[k].start == t.segs[k].start; }
    forall i | 0 <= i < |t'.segs|
      ensures SegSteady(t'.segs[i], t'.starts, t'.count)
    {
      assert SegSteady(t.segs[i], t.starts, t.count);
      if t'.count != t.count {
        InStartsMore(t.starts, t.count, t.segs[k].start, t.segs[i].start);
        if t.segs[i].start == t.segs[k].start { SameStart(t.segs, i, k); }
      }
    }
  }

  lemma StartsSame(a: seq<Seg>, b: seq<Seg>)
    requires SameRanges(a, b)
    ensures forall s :: StartsOne(a, s) ==> StartsOne(b, s)
  {
    forall s | StartsOne(a, s)
      ensures StartsOne(b, s)
    {
      var k :| 0 <= k < |a| && a[k].start == s;
      assert b[k].start == s;
    }
  }

  // ----- verify_all -----

  /** Some segment of the list starts here. */
  ghost predicate Among(news: seq<Seg>, start: nat) { exists i :: 0 <= i < |news| && news[i].start == start }

  /** Numbering a list: exactly its segments get an index and a slot in the table of starts. */
  lemma {:induction false} AssignEffect(t: Table, news: seq<Seg>)
    requires t.count >= 1 && forall i :: i in t.starts ==> 1 <= i < t.count
    ensures var t' := Assign(t, news);
            && t'.count >= t.count && t'.epoch == t.epoch && SameRanges(t.segs, t'.segs)
            && (forall i :: i in t'.starts ==> 1 <= i < t'.count)
            && (forall i :: i in t'.starts ==>
                  (i in t.starts && t'.starts[i] == t.starts[i]) || Among(news, t'.starts[i]))
            && (forall s :: InStarts(t'.starts, t'.count, s) <==> InStarts(t.starts, t.count, s) || Among(news, s))
            && (forall k :: 0 <= k < |t.segs| ==> t'.segs[k].verified == t.segs[k].verified)
            && (forall k :: 0 <= k < |t.segs| ==> if Among(news, t.segs[k].start) then t'.segs[k].idx >= t.count
                else t'.segs[k].idx == t.segs[k].idx)
    decreases |news|
  {
    hide InStarts;
    if news != [] {
      var n := news[0];
      var t1 := t.(segs := SetIdx(t.segs, n.start, t.count), starts := t.starts[t.count := n.start],
                   count := t.count + 1);
      AssignEffect(t1, news[1..]);
      forall s
        ensures Among(news, s) <==> s == n.start || Among(news[1..], s)
        ensures InStarts(t1.starts, t1.count, s) <==> InStarts(t.starts, t.count, s) || s == n.start
      {
        AmongFirst(news, s);
        InStartsMore(t.starts, t.count, n.start, s);
      }
    }
  }

  lemma AmongFirst(news: seq<Seg>, s: nat)
    requires news != []
    ensures Among(news, s) <==> s == news[0].start || Among(news[1..], s)
  {
    if Among(news[1..], s) { var i :| 0 <= i < |news[1..]| && news[1..][i].start == s; assert news[i + 1].start == s; }
    if Among(news, s) && s != news[0].start {
      var i :| 0 <= i < |news| && news[i].start == s;
      assert news[1..][i - 1].start == s;
    }
  }

  /** What is numbered by verify_all: verified segments that are not in the table of starts. */
  lemma AmongNew(segs: seq<Seg>, starts: map<nat, nat>, count: nat, k: nat)
    requires MapOk(segs) && k < |segs|
    ensures Among(Sorted(NewSegs(segs, starts, count)), segs[k].start) <==>
            segs[k].verified && !InStarts(starts, count, segs[k].start)
  {
    hide MapOk, InStarts, NewSegs, Sorted;
    var found := NewSegs(segs, starts, count);
    var news := Sorted(found);
    NewSegsAre(segs, starts, count);
    SortedPerm(found);
    if segs[k] in found {
      assert segs[k] in multiset(news);
      var i :| 0 <= i < |news| && news[i] == segs[k];
      assert Among(news, segs[k].start);
    }
    if Among(news, segs[k].start) {
      var i :| 0 <= i < |news| && news[i].start == segs[k].start;
      assert news[i] in multiset(news) && news[i] in found;
      var m :| 0 <= m < |segs| && segs[m] == news[i];
      SameStart(segs, m, k);
    }
  }

  lemma AmongListed(segs: seq<Seg>, starts: map<nat, nat>, count: nat, s: nat)
    requires Among(Sorted(NewSegs(segs, starts, count)), s)
    ensures StartsOne(segs, s)
  {
    hide InStarts, NewSegs, Sorted;
    var found := NewSegs(segs, starts, count);
    var news := Sorted(found);
    NewSegsAre(segs, starts, count);
    SortedPerm(found);
    var i :| 0 <= i < |news| && news[i].start == s;
    assert news[i] in multiset(news) && news[i] in found;
  }

  /** The list vouches for everything good that is numbered here. */
  predicate Vouches(t: Table, hashes: seq<Ident>, checks: seq<bool>)
    requires |hashes| == |checks|
  {
    Consistent(hashes, checks)
    && forall k :: 0 <= k < |t.segs| && !t.segs[k].badSegment && t.segs[k].idx > 0 ==>
      Approved(hashes, checks, t.segs[k].ident)
  }

  lemma JudgeAllFollows(t: Table, hashes: seq<Ident>, checks: seq<bool>, max: nat)
    requires Steady(t) && |hashes| == |checks| && Vouches(t, hashes, checks)
    ensures var (t', v) := JudgeAll(t, hashes, checks, max);
            && Follows(t.segs, t.epoch, t'.segs, t'.epoch) && SameRanges(t.segs, t'.segs)
            && (v != LimitExceeded ==> Steady(t'))
  {
    hide MapOk, InStarts, Follows, Approved, Flagged, Assign, NewSegs, Sorted, Consistent;
    var (t', v) := JudgeAll(t, hashes, checks, max);
    var segs := Flagged(t.segs, hashes, checks);
    var t1 := t.(segs := segs);
    FlaggedKeeps(t.segs, hashes, checks);
    NonNegative(t.segs);
    SameRangesOk(t.segs, segs);
    if v == LimitExceeded {
      FollowsBy(t.segs, t.epoch, segs, t.epoch);
    } else {
      var news := Sorted(NewSegs(segs, t.starts, t.count));
      AssignEffect(t1, news);
      forall k | 0 <= k < |segs|
        ensures t'.segs[k].idx >= 0 && (!segs[k].badSegment && t.segs[k].idx > 0 ==> t'.segs[k].idx == t.segs[k].idx)
        ensures news == [] ==> t'.segs[k].idx == t.segs[k].idx
        ensures SegSteady(t'.segs[k], t'.starts, t'.count)
      {
        assert SegSteady(t.segs[k], t.starts, t.count);
        AmongNew(segs, t.starts, t.count, k);
        if !segs[k].badSegment { FlaggedGood(t.segs, hashes, checks, k); }
      }
      FollowsBy(t.segs, t.epoch, t'.segs, t'.epoch);
      SameRangesOk(t.segs, t'.segs);
      StartsSame(t.segs, t'.segs);
      StartsSame(segs, t'.segs);
      forall i | i in t'.starts
        ensures StartsOne(t'.segs, t'.starts[i])
      {
        if Among(news, t'.starts[i]) { AmongListed(segs, t.starts, t.count, t'.starts[i]); }
      }
    }
  }

  /** A process that has just read its map. */
  lemma StartSteady(news: seq<Seg>, epoch: nat)
    requires Pristine(news)
    ensures Steady(Table(news, 1, map[], epoch))
  {
    hide MapOk;
  }

  lemma TouchFollows(t: Table, k: nat)
    requires Steady(t) && k < |t.segs|
    ensures var t' := t.(segs := t.segs[k := t.segs[k].(touched := true)]);
            Steady(t') && Follows(t.segs, t.epoch, t'.segs, t'.epoch)
  {
    hide MapOk, InStarts, Follows;
    var segs := t.segs[k := t.segs[k].(touched := true)];
    NonNegative(t.segs);
    SameRangesOk(t.segs, segs);
    StartsSame(t.segs, segs);
    FollowsBy(t.segs, t.epoch, segs, t.epoch);
    forall i | 0 <= i < |segs|
      ensures SegSteady(segs[i], t.starts, t.count)
    {
      assert SegSteady(t.segs[i], t.starts, t.count);
    }
  }
}
