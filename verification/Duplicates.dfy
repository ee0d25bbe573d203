/**
 What loading a second segment with the hash of another does to the numbering (src/ccs.cpp:406-415, 538-557,
 1110-1168). The segment takes over the flags and the index that its hash had, and verify_all decides by start
 addresses what has been numbered already.
 */
module Duplicates {
  import opened Segments
  import opened Sorting
  import opened SegmentTable
  import opened Verification
  import opened Following
  import opened Agreement
  import opened Misnaming

  /** Whatever is indexed here is indexed as g says, and the next index is behind g. */
  ghost predicate IndicesOk(t: Table, g: seq<Ident>) {
    && Distinct(g) && t.count == |g| + 1
    && forall k :: 0 <= k < |t.segs| && t.segs[k].idx > 0 ==>
      t.segs[k].idx <= |g| && g[t.segs[k].idx - 1] == t.segs[k].ident
  }

  /** A segment of the new map that has the hash of a numbered one and is not that one. */
  ghost predicate Copied(t: Table, g: seq<Ident>, news: seq<Seg>, m: nat)
    requires m < |news|
  {
    news[m].ident in g && !StartsOne(t.segs, news[m].start)
  }

  lemma {:induction false} StaysVerified(segs: seq<Seg>, hashes: seq<Ident>, checks: seq<bool>, m: nat)
    requires m < |segs| && segs[m].verified && |hashes| == |checks| && Consistent(hashes, checks)
    requires segs[m].ident in hashes ==> Approved(hashes, checks, segs[m].ident)
    ensures SameRanges(segs, FlagList(segs, hashes, checks)) && FlagList(segs, hashes, checks)[m].verified
    decreases |hashes|
  {
    FlagListKeeps(segs, hashes, checks);
    if hashes != [] {
      var n := |hashes| - 1;
      ApprovedMore(hashes, checks, segs[m].ident);
      if segs[m].ident in hashes[..n] {
        var i :| 0 <= i < n && hashes[..n][i] == segs[m].ident;
        var j :| 0 <= j < |hashes| && hashes[j] == segs[m].ident && checks[j];
        assert hashes[i] == hashes[j] && checks[..n][i];
      }
      StaysVerified(segs, hashes[..n], checks[..n], m);
      PositionFinds(FlagList(segs, hashes[..n], checks[..n]), hashes[n]);
    }
  }

  /**
   A rank loads a second segment with the hash d of a numbered one. The next verify_all, which every rank approves d
   for, gives the second segment an index beyond all those agreed on; ranks without it do not take part in that.
   */
  lemma DuplicateNumberedAgain(t: Table, g: seq<Ident>, d: Ident, news: seq<Seg>, m: nat, hashes: seq<Ident>,
                               checks: seq<bool>, max: nat)
    requires TableOk(t, g) && d in g && Pristine(news) && Grows(t.segs, news)
    requires m < |news| && news[m].ident == d && !StartsOne(t.segs, news[m].start)
    requires |hashes| == |checks| && Consistent(hashes, checks) && Approved(hashes, checks, d)
    requires JudgeAll(LoadedWith(t, news), hashes, checks, max).1 != LimitExceeded
    ensures var t' := JudgeAll(LoadedWith(t, news), hashes, checks, max).0;
            |t'.segs| == |news| && t'.segs[m].ident == d && t'.segs[m].idx > |g|
  {
    hide MapOk, InStarts, Assign, NewSegs, Sorted, FlagList, Rebuilt, Steady, Numbered;
    NumberedMap(t, g);
    TableSteady(t, g);
    var t1 := LoadedWith(t, news);
    RebuildSteady(t, news);
    SteadyTables(t1);
    assert SameRanges(news, t1.segs) && t1.segs[m].verified by { DuplicateInherits(t, g, d, news, m); }
    var flagged := FlagList(t1.segs, hashes, checks);
    StaysVerified(t1.segs, hashes, checks, m);
    FlaggedKeeps(t1.segs, hashes, checks);
    var segs := Flagged(t1.segs, hashes, checks);
    NonNegative(t1.segs);
    SameRangesOk(t1.segs, segs);
    if InStarts(t.starts, t.count, news[m].start) { SteadyStarts(t, news[m].start); }
    AmongNew(segs, t.starts, t.count, m);
    AssignEffect(t1.(segs := segs), Sorted(NewSegs(segs, t.starts, t.count)));
  }

  lemma SteadyTables(t: Table)
    requires Steady(t)
    ensures MapOk(t.segs) && t.count >= 1 && forall i :: i in t.starts ==> 1 <= i < t.count
  {}

  lemma SteadyStarts(t: Table, start: nat)
    requires Steady(t) && InStarts(t.starts, t.count, start)
    ensures StartsOne(t.segs, start)
  {
    var i :| 1 <= i <= t.count && i in t.starts && t.starts[i] == start;
    assert StartsOne(t.segs, t.starts[i]);
  }

  lemma DuplicateInherits(t: Table, g: seq<Ident>, d: Ident, news: seq<Seg>, m: nat)
    requires TableOk(t, g) && d in g && Pristine(news) && Grows(t.segs, news) && m < |news| && news[m].ident == d
    ensures SameRanges(news, Rebuilt(t.segs, news)) && Rebuilt(t.segs, news)[m].verified
  {
    NumberedMap(t, g);
    var k := NumberedAt(t, g, d);
    OwnHash(t.segs, k);
    RebuiltOk(t.segs, news);
    InheritOwn(news[m], t.segs, k);
  }

  // ----- without copies of numbered segments the numbering goes on -----

  /** What numbering a list of segments does, if none of them is numbered and no two have the same hash. */
  lemma {:induction false} AssignNames(t: Table, g: seq<Ident>, news: seq<Seg>)
    requires MapOk(t.segs) && IndicesOk(t, g) && DistinctSegs(news)
    requires forall i :: 0 <= i < |news| ==> news[i].ident !in g && Present(t.segs, news[i])
    ensures IndicesOk(Assign(t, news), g + Idents(news))
    decreases |news|
  {
    hide MapOk, Present;
    if news == [] {
      assert g + Idents(news) == g;
    } else {
      var n := news[0];
      var k := PresentAt(t.segs, n);
      OnlyOneStart(t.segs, k);
      NonNegative(t.segs);
      var segs := SetIdx(t.segs, n.start, t.count);
      SameRangesOk(t.segs, segs);
      var t1 := t.(segs := segs, starts := t.starts[t.count := n.start], count := t.count + 1);
      var g1 := g + [n.ident];
      OneMoreName(t, g, k, t1);
      forall i | 0 <= i < |news[1..]|
        ensures news[1..][i].ident !in g1 && Present(segs, news[1..][i])
      {
        assert news[1..][i] == news[i + 1] && news[0].ident != news[i + 1].ident;
        StillPresent(t.segs, segs, news[i + 1]);
      }
      AssignNames(t1, g1, news[1..]);
      assert g1 + Idents(news[1..]) == g + Idents(news);
    }
  }

  lemma OneMoreName(t: Table, g: seq<Ident>, k: nat, t1: Table)
    requires IndicesOk(t, g) && k < |t.segs| && t.segs[k].ident !in g && t1.count == t.count + 1
    requires SameRanges(t.segs, t1.segs) && t1.segs[k].idx == t.count
    requires forall i :: 0 <= i < |t.segs| && i != k ==> t1.segs[i].idx == t.segs[i].idx
    ensures IndicesOk(t1, g + [t.segs[k].ident])
  {}

  ghost predicate Present(segs: seq<Seg>, x: Seg) {
    exists k :: 0 <= k < |segs| && segs[k].ident == x.ident && segs[k].start == x.start
  }

  lemma PresentAt(segs: seq<Seg>, x: Seg) returns (k: nat)
    requires Present(segs, x)
    ensures k < |segs| && segs[k].ident == x.ident && segs[k].start == x.start
  {
    k :| 0 <= k < |segs| && segs[k].ident == x.ident && segs[k].start == x.start;
  }

  lemma StillPresent(a: seq<Seg>, b: seq<Seg>, x: Seg)
    requires SameRanges(a, b) && Present(a, x)
    ensures Present(b, x)
  {
    var k := PresentAt(a, x);
    assert b[k].ident == x.ident;
  }

  predicate IsNew(s: Seg, starts: map<nat, nat>, count: nat) { s.verified && !InStarts(starts, count, s.start) }

  lemma {:induction false} NewSegsApart(segs: seq<Seg>, starts: map<nat, nat>, count: nat)
    requires forall i, j :: 0 <= i < j < |segs| && IsNew(segs[i], starts, count) && IsNew(segs[j], starts, count) ==>
               segs[i].ident != segs[j].ident
    ensures DistinctSegs(NewSegs(segs, starts, count))
    decreases |segs|
  {
    hide InStarts;
    if segs != [] {
      var n := |segs| - 1;
      NewSegsApart(segs[..n], starts, count);
      NewSegsAre(segs[..n], starts, count);
      var front := NewSegs(segs[..n], starts, count);
      if IsNew(segs[n], starts, count) {
        forall i | 0 <= i < |front|
          ensures front[i].ident != segs[n].ident
        {
          assert front[i] in front && front[i] in segs[..n];
          var j :| 0 <= j < n && segs[..n][j] == front[i];
          assert segs[j] == front[i];
        }
      }
    }
  }

  /** The list flags the first segment with a hash and leaves the others as they are. */
  lemma {:induction false} FlagOnlyFirst(segs: seq<Seg>, hashes: seq<Ident>, checks: seq<bool>, i: nat, j: nat)
    requires |hashes| == |checks| && i < j < |segs| && segs[i].ident == segs[j].ident
    ensures SameRanges(segs, FlagList(segs, hashes, checks)) && FlagList(segs, hashes, checks)[j] == segs[j]
    decreases |hashes|
  {
    FlagListKeeps(segs, hashes, checks);
    if hashes != [] {
      var n := |hashes| - 1;
      FlagOnlyFirst(segs, hashes[..n], checks[..n], i, j);
      PositionFinds(FlagList(segs, hashes[..n], checks[..n]), hashes[n]);
    }
  }

  /** After loading, whatever is verified or indexed is the numbered segment of its hash. */
  lemma LoadedNames(t: Table, g: seq<Ident>, news: seq<Seg>, m: nat)
    requires TableOk(t, g) && Pristine(news) && Grows(t.segs, news) && m < |news|
    requires forall k :: 0 <= k < |news| ==> !Copied(t, g, news, k)
    ensures var s := Rebuilt(t.segs, news)[m];
            && (s.idx > 0 ==> s.idx <= |g| && g[s.idx - 1] == s.ident)
            && (s.ident in g ==> InStarts(t.starts, t.count, s.start))
            && (s.ident !in g ==> !s.verified)
  {
    hide MapOk, InStarts, Rebuilt;
    NumberedMap(t, g);
    RebuiltAt(t.segs, news, m);
    RebuiltIs(t.segs, news, m);
    var s := Rebuilt(t.segs, news)[m];
    if k :| 0 <= k < |t.segs| && t.segs[k].ident == s.ident {
      OwnHash(t.segs, k);
      InheritOwn(news[m], t.segs, k);
      VerifiedIffNumbered(t, g, k);
      assert SegNumbered(t.segs[k], g);
      if s.ident in g {
        assert !Copied(t, g, news, m);
        CopyIsSelf(t, news, m, k);
        StartsKnow(t, g, k);
      }
    } else {
      assert s == news[m];
      if s.ident in g { var k := NumberedAt(t, g, s.ident); }
    }
  }

  lemma RebuiltIs(olds: seq<Seg>, news: seq<Seg>, m: nat)
    requires m < |news|
    ensures |Rebuilt(olds, news)| == |news| && Rebuilt(olds, news)[m] == Inherit(news[m], olds)
  {}

  lemma CopyIsSelf(t: Table, news: seq<Seg>, m: nat, k: nat)
    requires MapOk(t.segs) && AllGood(t.segs) && MapOk(news) && Grows(t.segs, news) && m < |news| && k < |t.segs|
    requires t.segs[k].ident == news[m].ident && StartsOne(t.segs, news[m].start)
    ensures t.segs[k].start == news[m].start
  {
    hide MapOk;
    var o :| 0 <= o < |t.segs| && t.segs[o].start == news[m].start;
    var n := Grown(t.segs, news, o);
    SameStart(news, n, m);
    OwnHash(t.segs, k);
  }

  /** What verify_all finds to number after such a load: hashes that have no index, each once. */
  lemma FoundToNumber(t: Table, g: seq<Ident>, news: seq<Seg>, hashes: seq<Ident>, checks: seq<bool>)
    requires TableOk(t, g) && Pristine(news) && Grows(t.segs, news) && |hashes| == |checks|
    requires forall k :: 0 <= k < |news| ==> !Copied(t, g, news, k)
    ensures var segs := Flagged(Rebuilt(t.segs, news), hashes, checks);
            var found := NewSegs(segs, t.starts, t.count);
            && DistinctSegs(found) && forall x :: x in found ==> x in segs && x.ident !in g
  {
    hide MapOk, InStarts, NewSegs, Rebuilt, Copied;
    var r := Rebuilt(t.segs, news);
    NumberedMap(t, g);
    RebuiltOk(t.segs, news);
    var segs := Flagged(r, hashes, checks);
    FlaggedKeeps(r, hashes, checks);
    NewSegsAre(segs, t.starts, t.count);
    forall m | 0 <= m < |segs| && IsNew(segs[m], t.starts, t.count)
      ensures segs[m].ident !in g && !r[m].verified
    {
      LoadedNames(t, g, news, m);
    }
    forall i, j | 0 <= i < j < |segs| && IsNew(segs[i], t.starts, t.count) && IsNew(segs[j], t.starts, t.count)
      ensures segs[i].ident != segs[j].ident
    {
      if r[i].ident == r[j].ident {
        FlagOnlyFirst(r, hashes, checks, i, j);
      }
    }
    NewSegsApart(segs, t.starts, t.count);
  }

  lemma NumberingGoesOn(t: Table, g: seq<Ident>, news: seq<Seg>, hashes: seq<Ident>, checks: seq<bool>, max: nat)
      returns (g': seq<Ident>)
    requires TableOk(t, g) && Pristine(news) && Grows(t.segs, news) && |hashes| == |checks|
    requires forall k :: 0 <= k < |news| ==> !Copied(t, g, news, k)
    requires JudgeAll(LoadedWith(t, news), hashes, checks, max).1 != LimitExceeded
    ensures g <= g' && IndicesOk(JudgeAll(LoadedWith(t, news), hashes, checks, max).0, g')
  {
    hide MapOk, InStarts, NewSegs, Rebuilt, Copied, Flagged, Sorted, Assign;
    var r := Rebuilt(t.segs, news);
    NumberedMap(t, g);
    RebuiltOk(t.segs, news);
    var segs := Flagged(r, hashes, checks);
    FlaggedKeeps(r, hashes, checks);
    NonNegative(r);
    SameRangesOk(r, segs);
    var t1 := t.(segs := segs);
    forall m | 0 <= m < |segs| && segs[m].idx > 0
      ensures segs[m].idx <= |g| && g[segs[m].idx - 1] == segs[m].ident
    {
      LoadedNames(t, g, news, m);
    }
    var found := NewSegs(segs, t.starts, t.count);
    FoundToNumber(t, g, news, hashes, checks);
    SortedPerm(found);
    SortedDistinct(found);
    var sorted := Sorted(found);
    forall i | 0 <= i < |sorted|
      ensures sorted[i].ident !in g && Present(segs, sorted[i])
    {
      assert sorted[i] in multiset(sorted) && sorted[i] in found;
      var k :| 0 <= k < |segs| && segs[k] == sorted[i];
    }
    assert IndicesOk(t1, g);
    AssignNames(t1, g, sorted);
    g' := g + Idents(sorted);
  }

  lemma NumberedTwice(t: Table, g: seq<Ident>, m: nat, g': seq<Ident>)
    requires m < |t.segs| && t.segs[m].ident in g && t.segs[m].idx > |g|
    ensures !(g <= g' && IndicesOk(t, g'))
  {
    var i :| 0 <= i < |g| && g[i] == t.segs[m].ident;
    if g <= g' && t.segs[m].idx <= |g'| && g'[t.segs[m].idx - 1] == t.segs[m].ident { assert g'[i] == g[i]; }
  }

  /**
   After a load, the next verify_all goes on numbering, so that every index keeps its meaning, exactly when the load
   brought no second segment with the hash of a numbered one.
   */
  lemma NumberingKeptExactlyWhen(t: Table, g: seq<Ident>, news: seq<Seg>, hashes: seq<Ident>, checks: seq<bool>,
                                 max: nat)
    requires TableOk(t, g) && Pristine(news) && Grows(t.segs, news)
    requires |hashes| == |checks| && Consistent(hashes, checks) && forall d :: d in g ==> Approved(hashes, checks, d)
    requires JudgeAll(LoadedWith(t, news), hashes, checks, max).1 != LimitExceeded
    ensures (exists g' :: g <= g' && IndicesOk(JudgeAll(LoadedWith(t, news), hashes, checks, max).0, g')) <==>
            forall m :: 0 <= m < |news| ==> !Copied(t, g, news, m)
  {
    hide TableOk, Pristine, Grows, JudgeAll, LoadedWith, Approved, Consistent;
    if m :| 0 <= m < |news| && Copied(t, g, news, m) {
      DuplicateNumberedAgain(t, g, news[m].ident, news, m, hashes, checks, max);
      var t' := JudgeAll(LoadedWith(t, news), hashes, checks, max).0;
      forall g' ensures !(g <= g' && IndicesOk(t', g')) { NumberedTwice(t', g, m, g'); }
    } else {
      var g' := NumberingGoesOn(t, g, news, hashes, checks, max);
    }
  }

  /**
   All of the agreement is kept, and with it what later calls build on, exactly when the load brought no bad
   segment.
   */
  lemma TableKeptExactlyWhen(t: Table, g: seq<Ident>, news: seq<Seg>, hashes: seq<Ident>, checks: seq<bool>, max: nat)
    requires TableOk(t, g) && Pristine(news) && Grows(t.segs, news)
    requires |hashes| == |checks| && Consistent(hashes, checks) && forall d :: d in g ==> Approved(hashes, checks, d)
    requires forall i :: 0 <= i < |hashes| && checks[i] ==> Has(news, hashes[i])
    requires JudgeAll(LoadedWith(t, news), hashes, checks, max).1 != LimitExceeded
    ensures (exists g' :: TableOk(JudgeAll(LoadedWith(t, news), hashes, checks, max).0, g')) <==> AllGood(news)
  {
    hide MapOk, InStarts, Assign, NewSegs, Sorted, Flagged, Rebuilt, Steady, Numbered, Approved, Consistent;
    NumberedMap(t, g);
    RebuiltOk(t.segs, news);
    var t1 := LoadedWith(t, news);
    TableSteady(t, g);
    RebuildSteady(t, news);
    SteadyTables(t1);
    var segs := Flagged(t1.segs, hashes, checks);
    FlaggedKeeps(t1.segs, hashes, checks);
    AssignEffect(t1.(segs := segs), Sorted(NewSegs(segs, t.starts, t.count)));
    var t' := JudgeAll(t1, hashes, checks, max).0;
    assert SameRanges(news, t'.segs);
    if AllGood(news) {
      RebuildKeeps(t, g, news);
      SameHas(news, t1.segs);
      var g' := JudgeAllOk(t1, g, hashes, checks, max);
    } else {
      forall g' ensures !TableOk(t', g') { if TableOk(t', g') { NumberedMap(t', g'); } }
    }
  }
}
