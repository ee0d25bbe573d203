/**
 Collective verification of segments (src/ccs.cpp:994-1173): each rank hands out indices on its own,
 from what the collective operations told it, and the indices must name the same segment everywhere.
 */
module Verification {
  import opened Segments
  import opened Sorting

  // ----- the reduction -----

  /** verify_segment's operator: equal or nothing. */
  function EqualOrNone(a: Ident, b: Ident): Ident { if a == b then a else NO_IDENT }

  /** Any shape in which a reduction may combine the contributions of the ranks. */
  datatype Tree = Leaf(h: Ident) | Node(left: Tree, right: Tree)

  function Reduce(t: Tree): Ident {
    match t
    case Leaf(h) => h
    case Node(l, r) => EqualOrNone(Reduce(l), Reduce(r))
  }

  function Leaves(t: Tree): seq<Ident> {
    match t
    case Leaf(h) => [h]
    case Node(l, r) => Leaves(l) + Leaves(r)
  }

  ghost predicate AllEqual(hs: seq<Ident>, d: Ident) { forall i :: 0 <= i < |hs| ==> hs[i] == d }

  /** Whatever the tree, the result is a hash exactly when all ranks contributed that hash. */
  lemma {:induction false} ReduceAgrees(t: Tree, d: Ident)
    ensures |Leaves(t)| > 0
    ensures d != NO_IDENT ==> (Reduce(t) == d <==> AllEqual(Leaves(t), d))
  {
    if t.Node? {
      ReduceAgrees(t.left, d);
      ReduceAgrees(t.right, d);
      var l, r := Leaves(t.left), Leaves(t.right);
      assert forall i :: 0 <= i < |l| ==> (l + r)[i] == l[i];
      assert forall i :: 0 <= i < |r| ==> (l + r)[|l| + i] == r[i];
    } else {
      assert Leaves(t)[0] == t.h;
    }
  }

  // ----- a rank's tables -----

  datatype Table = Table(segs: seq<Seg>, count: nat, starts: map<nat, nat>, epoch: nat)

  datatype Verdict = Verified | NotOnAllRanks | LimitExceeded

  /** Index k of the segment with hash h, if the map has one. */
  function Position(segs: seq<Seg>, h: Ident): int {
    if segs == [] then -1 else if segs[0].ident == h then 0
    else var k := Position(segs[1..], h); if k < 0 then -1 else k + 1
  }

  lemma {:induction false} PositionFinds(segs: seq<Seg>, h: Ident)
    ensures var k := Position(segs, h);
            if k < 0 then k == -1 && forall i :: 0 <= i < |segs| ==> segs[i].ident != h
            else k < |segs| && segs[k].ident == h && forall i :: 0 <= i < k ==> segs[i].ident != h
  {
    if segs != [] { PositionFinds(segs[1..], h); }
  }

  /** The second half of verify_segment (lines 1039-1064): the segment named here, judged by the reduction. */
  function JudgeSegment(t: Table, h: Ident, reduced: Ident, max: nat): (Table, Verdict) {
    var k := Position(t.segs, h);
    PositionFinds(t.segs, h);
    if k < 0 then (t, NotOnAllRanks)
    else if reduced == NO_IDENT then
      (t.(segs := t.segs[k := t.segs[k].(badVerification := true, verified := false)]), NotOnAllRanks)
    else if t.segs[k].verified then (t, Verified)
    else if t.count > max then (t, LimitExceeded)
    else
      (Table(t.segs[k := t.segs[k].(verified := true, badVerification := false, idx := t.count)], t.count + 1,
             t.starts[t.count := t.segs[k].start], t.epoch + 1), Verified)
  }

  /** Segment k is the first one with hash h. */
  ghost predicate FirstWith(segs: seq<Seg>, h: Ident, k: int) {
    0 <= k < |segs| && segs[k].ident == h && forall i :: 0 <= i < k ==> segs[i].ident != h
  }

  /**
   What verify_segment answers and does. It fails exactly when the segment named is not loaded or the reduction is
   empty, and then flags the segment as bad; a verified segment stays as it is; any other gets the next index, and
   a new epoch begins, unless the limit is exceeded.
   */
  ghost predicate SegmentJudged(t: Table, h: Ident, reduced: Ident, max: nat, t': Table, v: Verdict) {
    && (v == NotOnAllRanks <==> reduced == NO_IDENT || forall k :: 0 <= k < |t.segs| ==> t.segs[k].ident != h)
    && |t'.segs| == |t.segs|
    && (forall k :: 0 <= k < |t.segs| && !FirstWith(t.segs, h, k) ==> t'.segs[k] == t.segs[k])
    && (v == NotOnAllRanks ==> t' == t.(segs := t'.segs))
    && forall k :: FirstWith(t.segs, h, k) ==>
         if reduced == NO_IDENT then t'.segs[k] == t.segs[k].(badVerification := true, verified := false)
         else if t.segs[k].verified then v == Verified && t' == t
         else if t.count > max then v == LimitExceeded
         else
           && v == Verified && t'.segs[k] == t.segs[k].(verified := true, badVerification := false, idx := t.count)
           && t'.count == t.count + 1 && t'.starts == t.starts[t.count := t.segs[k].start] && t'.epoch == t.epoch + 1
  }

  lemma JudgeSegmentSays(t: Table, h: Ident, reduced: Ident, max: nat)
    ensures var (t', v) := JudgeSegment(t, h, reduced, max); SegmentJudged(t, h, reduced, max, t', v)
  {
    PositionFinds(t.segs, h);
    var k := Position(t.segs, h);
    forall i | FirstWith(t.segs, h, i)
      ensures i == k
    {
    }
    if k >= 0 { assert FirstWith(t.segs, h, k); }
  }

  /** Lines 1113-1120: the verdict on a hash goes to the first segment that has it. */
  function FlagFirst(segs: seq<Seg>, h: Ident, ok: bool): seq<Seg> {
    var k := Position(segs, h);
    PositionFinds(segs, h);
    if k < 0 then segs else segs[k := segs[k].(verified := ok, badVerification := !ok)]
  }

  /** What the broadcast list says of the map, hash after hash (lines 1110-1121). */
  function FlagList(segs: seq<Seg>, hashes: seq<Ident>, checks: seq<bool>): seq<Seg>
    requires |hashes| == |checks|
  {
    if hashes == [] then segs
    else
      var n := |hashes| - 1;
      FlagFirst(FlagList(segs, hashes[..n], checks[..n]), hashes[n], checks[n])
  }

  /** Lines 1123-1131: whatever no rank vouched for is bad. */
  function Blame(s: Seg): Seg { if !s.verified && !s.badVerification then s.(badVerification := true) else s }

  function Flagged(segs: seq<Seg>, hashes: seq<Ident>, checks: seq<bool>): seq<Seg>
    requires |hashes| == |checks|
  {
    MapSeq(Blame, FlagList(segs, hashes, checks))
  }

  predicate InStarts(starts: map<nat, nat>, count: nat, start: nat) {
    exists i :: 1 <= i <= count && i in starts && starts[i] == start
  }

  /** Lines 1140-1152: verified segments not yet in the table of starts. */
  function NewSegs(segs: seq<Seg>, starts: map<nat, nat>, count: nat): seq<Seg> {
    if segs == [] then []
    else
      var n := |segs| - 1;
      NewSegs(segs[..n], starts, count) + if segs[n].verified && !InStarts(starts, count, segs[n].start) then [segs[n]]
        else []
  }

  function IdentOf(s: Seg): int { s.ident }

  function Sorted(s: seq<Seg>): seq<Seg> { if s == [] then [] else Inserted(IdentOf, s[0], Sorted(s[1..])) }

  function SetIdx(segs: seq<Seg>, start: nat, idx: int): seq<Seg> {
    MapSeq((s: Seg) => if s.start == start then s.(idx := idx) else s, segs)
  }

  /** Lines 1161-1168: the new segments in the order of their hashes get the next indices. */
  function Assign(t: Table, news: seq<Seg>): Table
    decreases |news|
  {
    if news == [] then t
    else
      Assign(t.(segs := SetIdx(t.segs, news[0].start, t.count), starts := t.starts[t.count := news[0].start],
                count := t.count + 1), news[1..])
  }

  /** The second half of verify_all; beyond the limit the process ends, with the flags set. */
  function JudgeAll(t: Table, hashes: seq<Ident>, checks: seq<bool>, max: nat): (Table, Verdict)
    requires |hashes| == |checks|
  {
    var segs := Flagged(t.segs, hashes, checks);
    var news := Sorted(NewSegs(segs, t.starts, t.count));
    if t.count + |news| > max then (t.(segs := segs), LimitExceeded)
    else
      var t' := Assign(t.(segs := segs), news);
      (if news == [] then t' else t'.(epoch := t'.epoch + 1), Verified)
  }

  // ----- the indices as handed out -----

  ghost predicate Distinct(g: seq<Ident>) { forall i, j :: 0 <= i < j < |g| ==> g[i] != g[j] }

  /** A segment has index i + 1 exactly when its hash is g[i]. */
  ghost predicate SegNumbered(s: Seg, g: seq<Ident>) {
    && (s.idx > 0 ==> s.idx <= |g| && g[s.idx - 1] == s.ident)
    && (forall i :: 0 <= i < |g| && s.ident == g[i] ==> s.idx == i + 1)
  }

  /** Slot i + 1 of the table of starts is where the segment with hash g[i] starts. */
  ghost predicate SlotOk(segs: seq<Seg>, starts: map<nat, nat>, g: seq<Ident>, i: nat) {
    i < |g| ==> i + 1 in starts && HasStart(segs, g[i], starts[i + 1])
  }

  /** Index i + 1 belongs to the segment with hash g[i], in the map and in the table of starts. */
  ghost predicate Numbered(t: Table, g: seq<Ident>) {
    && MapOk(t.segs) && AllGood(t.segs) && Distinct(g) && t.count == |g| + 1
    && (forall k :: 0 <= k < |t.segs| ==> SegNumbered(t.segs[k], g))
    && (forall i: nat :: SlotOk(t.segs, t.starts, g, i))
    && (forall i :: i in t.starts ==> 1 <= i <= |g|)
  }

  ghost predicate HasStart(segs: seq<Seg>, d: Ident, start: nat) {
    exists k :: 0 <= k < |segs| && segs[k].ident == d && segs[k].start == start
  }

  ghost predicate Judged(t: Table) { forall k :: 0 <= k < |t.segs| ==> (t.segs[k].verified <==> t.segs[k].idx > 0) }

  /** A rank's tables after the indices g have been handed out. */
  ghost predicate TableOk(t: Table, g: seq<Ident>) { Numbered(t, g) && Judged(t) }

  ghost predicate Has(segs: seq<Seg>, d: Ident) { exists k :: 0 <= k < |segs| && segs[k].ident == d }

  /** One more index. */
  lemma NumberOne(t: Table, g: seq<Ident>, k: nat, segs: seq<Seg>)
    requires Numbered(t, g) && k < |t.segs| && t.segs[k].idx == 0
    requires SameRanges(t.segs, segs) && segs[k].idx == t.count
    requires forall i :: 0 <= i < |segs| && i != k ==> segs[i].idx == t.segs[i].idx
    ensures Numbered(Table(segs, t.count + 1, t.starts[t.count := t.segs[k].start], t.epoch), g + [t.segs[k].ident])
  {
    hide MapOk;
    var d := t.segs[k].ident;
    var g' := g + [d];
    var t' := Table(segs, t.count + 1, t.starts[t.count := t.segs[k].start], t.epoch);
    assert MapOk(segs) by { NonNegative(t.segs); SameRangesOk(t.segs, segs); }
    DistinctIdents(t.segs);
    assert SegNumbered(t.segs[k], g) && d !in g;
    forall m | 0 <= m < |segs|
      ensures SegNumbered(segs[m], g')
    {
      assert SegNumbered(t.segs[m], g);
    }
    SameStarts(t.segs, segs);
    assert HasStart(segs, d, t.segs[k].start) by { assert segs[k].ident == d; }
    forall i: nat
      ensures SlotOk(segs, t'.starts, g', i)
    {
      assert SlotOk(t.segs, t.starts, g, i);
    }
  }

  lemma NonNegative(segs: seq<Seg>)
    requires MapOk(segs)
    ensures forall i :: 0 <= i < |segs| ==> segs[i].idx >= 0
  {}

  lemma DistinctIdents(segs: seq<Seg>)
    requires MapOk(segs) && AllGood(segs)
    ensures forall i, j :: 0 <= i < |segs| && 0 <= j < |segs| && segs[i].ident == segs[j].ident ==> i == j
  {
    forall i | 0 <= i < |segs|
      ensures forall j :: 0 <= j < |segs| && segs[i].ident == segs[j].ident ==> i == j
    {
      OwnHash(segs, i);
    }
  }

  lemma SameStarts(a: seq<Seg>, b: seq<Seg>)
    requires SameRanges(a, b)
    ensures forall d, s :: HasStart(a, d, s) ==> HasStart(b, d, s)
  {
    forall d, s | HasStart(a, d, s)
      ensures HasStart(b, d, s)
    {
      var k :| 0 <= k < |a| && a[k].ident == d && a[k].start == s;
      assert b[k].ident == d;
    }
  }

  // ----- one segment -----

  /**
   Judging a segment succeeds exactly when it is loaded and all ranks named it, unless that takes an index beyond the
   limit. It either changes no index or gives the next one to the segment all ranks named.
   */
  lemma JudgeSegmentOk(t: Table, g: seq<Ident>, h: Ident, reduced: Ident, max: nat)
    requires TableOk(t, g) && (h != NO_IDENT ==> Has(t.segs, h)) && (reduced != NO_IDENT ==> h == reduced)
    ensures var v := JudgeSegment(t, h, reduced, max).1;
            && (v == NotOnAllRanks <==> reduced == NO_IDENT || !Has(t.segs, h))
            && (v == LimitExceeded <==> reduced != NO_IDENT && Has(t.segs, h) && h !in g && |g| + 1 > max)
    ensures var (t', v) := JudgeSegment(t, h, reduced, max);
            v != LimitExceeded && (reduced == NO_IDENT ==> h !in g) ==>
              TableOk(t', if reduced != NO_IDENT && h !in g then g + [h] else g) && SameRanges(t.segs, t'.segs)
  {
    hide MapOk, Numbered;
    var k := Position(t.segs, h);
    PositionFinds(t.segs, h);
    NumberedMap(t, g);
    NotEmptyHash(t.segs);
    if k >= 0 {
      var s := t.segs[k];
      VerifiedIffNumbered(t, g, k);
      if reduced == NO_IDENT {
        SameFlags(t, g, t.segs[k := s.(badVerification := true, verified := false)]);
      } else if !s.verified && t.count <= max {
        var segs := t.segs[k := s.(verified := true, badVerification := false, idx := t.count)];
        NumberOne(t, g, k, segs);
        OtherEpoch(Table(segs, t.count + 1, t.starts[t.count := s.start], t.epoch), g + [h], t.epoch + 1);
      }
    }
  }

  /**
   A call keeps the tables consistent with some numbering exactly when it succeeds or the segment named here has no
   number yet. A failed call on a numbered segment leaves an index without its verified flag.
   */
  lemma ConsistentExactlyWhen(t: Table, g: seq<Ident>, h: Ident, reduced: Ident, max: nat)
    requires TableOk(t, g) && Has(t.segs, h) && (reduced != NO_IDENT ==> h == reduced)
    requires JudgeSegment(t, h, reduced, max).1 != LimitExceeded
    ensures (exists g' :: TableOk(JudgeSegment(t, h, reduced, max).0, g')) <==> reduced != NO_IDENT || h !in g
  {
    hide MapOk, Numbered;
    var t' := JudgeSegment(t, h, reduced, max).0;
    if reduced != NO_IDENT || h !in g {
      JudgeSegmentOk(t, g, h, reduced, max);
    } else {
      var k := Position(t.segs, h);
      PositionFinds(t.segs, h);
      VerifiedIffNumbered(t, g, k);
      assert t.segs[k].idx > 0 && t'.segs[k].idx == t.segs[k].idx && !t'.segs[k].verified;
      assert !Judged(t');
    }
  }

  /**
   The table of starts is allocated with max slots, 0 to max - 1, and the limit is tested after the count is
   read: the index given stays inside the table exactly when the count was below max.
   */
  lemma IndexInTable(t: Table, g: seq<Ident>, h: Ident, max: nat)
    requires TableOk(t, g) && Has(t.segs, h) && h !in g && h != NO_IDENT && t.count <= max
    ensures var (t', v) := JudgeSegment(t, h, h, max);
            v == Verified && ((forall k :: 0 <= k < |t'.segs| && t'.segs[k].ident == h ==> t'.segs[k].idx < max) <==>
                              t.count < max)
  {
    hide MapOk, Numbered;
    var k := Position(t.segs, h);
    PositionFinds(t.segs, h);
    VerifiedIffNumbered(t, g, k);
    NumberedMap(t, g);
    DistinctIdents(t.segs);
    var t' := JudgeSegment(t, h, h, max).0;
    assert t'.segs[k].ident == h && t'.segs[k].idx == t.count;
  }

  lemma VerifiedIffNumbered(t: Table, g: seq<Ident>, k: nat)
    requires TableOk(t, g) && k < |t.segs|
    ensures t.segs[k].verified <==> t.segs[k].ident in g
    ensures !t.segs[k].verified ==> t.segs[k].idx == 0
  {
    NonNegative(t.segs);
    assert SegNumbered(t.segs[k], g);
    if t.segs[k].ident in g { var i :| 0 <= i < |g| && g[i] == t.segs[k].ident; assert t.segs[k].idx == i + 1; }
  }

  lemma NotEmptyHash(segs: seq<Seg>)
    requires MapOk(segs) && AllGood(segs)
    ensures forall i :: 0 <= i < |segs| ==> segs[i].ident != NO_IDENT
  {}

  lemma OtherEpoch(t: Table, g: seq<Ident>, epoch: nat)
    requires Numbered(t, g)
    ensures Numbered(t.(epoch := epoch), g)
  {}

  lemma SameFlags(t: Table, g: seq<Ident>, segs: seq<Seg>)
    requires Numbered(t, g) && SameRanges(t.segs, segs) && forall i :: 0 <= i < |segs| ==> segs[i].idx == t.segs[i].idx
    ensures Numbered(t.(segs := segs), g)
  {
    hide MapOk;
    NonNegative(t.segs);
    SameRangesOk(t.segs, segs);
    SameStarts(t.segs, segs);
    forall i: nat
      ensures SlotOk(segs, t.starts, g, i)
    {
      assert SlotOk(t.segs, t.starts, g, i);
    }
    forall k | 0 <= k < |segs|
      ensures SegNumbered(segs[k], g)
    {
      assert SegNumbered(t.segs[k], g);
    }
  }

  // ----- all segments -----

  /** The list vouches for d: some entry is d and every rank had it. */
  predicate Approved(hashes: seq<Ident>, checks: seq<bool>, d: Ident)
    requires |hashes| == |checks|
  {
    exists i :: 0 <= i < |hashes| && hashes[i] == d && checks[i]
  }

  /** The list says the same wherever it names a hash. */
  predicate Consistent(hashes: seq<Ident>, checks: seq<bool>)
    requires |hashes| == |checks|
  {
    forall i, j :: 0 <= i < |hashes| && 0 <= j < |hashes| && hashes[i] == hashes[j] ==> checks[i] == checks[j]
  }

  lemma {:induction false} FlagListKeeps(segs: seq<Seg>, hashes: seq<Ident>, checks: seq<bool>)
    requires |hashes| == |checks|
    ensures var r := FlagList(segs, hashes, checks);
            SameRanges(segs, r) && forall k :: 0 <= k < |segs| ==> r[k].idx == segs[k].idx
    decreases |hashes|
  {
    if hashes != [] {
      var n := |hashes| - 1;
      FlagListKeeps(segs, hashes[..n], checks[..n]);
      PositionFinds(FlagList(segs, hashes[..n], checks[..n]), hashes[n]);
    }
  }

  /** A good segment is flagged as the list says, or keeps its flags if the list does not name it. */
  lemma {:induction false} FlagListGood(segs: seq<Seg>, hashes: seq<Ident>, checks: seq<bool>, k: nat)
    requires MapOk(segs) && k < |segs| && !segs[k].badSegment && |hashes| == |checks| && Consistent(hashes, checks)
    ensures var r := FlagList(segs, hashes, checks);
            && |r| == |segs|
            && (segs[k].ident in hashes ==>
                  && (r[k].verified <==> Approved(hashes, checks, segs[k].ident))
                  && (r[k].badVerification <==> !Approved(hashes, checks, segs[k].ident)))
            && (segs[k].ident !in hashes ==> r[k] == segs[k])
    decreases |hashes|
  {
    hide MapOk;
    FlagListKeeps(segs, hashes, checks);
    if hashes != [] {
      var n := |hashes| - 1;
      var hs, cs := hashes[..n], checks[..n];
      var r := FlagList(segs, hs, cs);
      FlagListGood(segs, hs, cs, k);
      FlagListKeeps(segs, hs, cs);
      PositionFinds(r, hashes[n]);
      OwnHash(segs, k);
      ApprovedMore(hashes, checks, segs[k].ident);
    }
  }

  lemma ApprovedMore(hashes: seq<Ident>, checks: seq<bool>, d: Ident)
    requires |hashes| == |checks| && hashes != [] && Consistent(hashes, checks)
    ensures var n := |hashes| - 1;
            && (d in hashes <==> d in hashes[..n] || d == hashes[n])
            && (d == hashes[n] ==> (Approved(hashes, checks, d) <==> checks[n]))
            && (d != hashes[n] ==> (Approved(hashes, checks, d) <==> Approved(hashes[..n], checks[..n], d)))
  {
    var n := |hashes| - 1;
    assert hashes == hashes[..n] + [hashes[n]];
    if d != hashes[n] && Approved(hashes, checks, d) {
      var i :| 0 <= i < |hashes| && hashes[i] == d && checks[i];
      assert hashes[..n][i] == d && checks[..n][i];
    }
    if Approved(hashes[..n], checks[..n], d) {
      var i :| 0 <= i < n && hashes[..n][i] == d && checks[..n][i];
      assert hashes[i] == d && checks[i];
    }
  }

  /** What was verified before must be vouched for again; then the flag says exactly what the list vouches for. */
  lemma FlaggedGood(segs: seq<Seg>, hashes: seq<Ident>, checks: seq<bool>, k: nat)
    requires MapOk(segs) && k < |segs| && !segs[k].badSegment && |hashes| == |checks| && Consistent(hashes, checks)
    requires segs[k].verified ==> Approved(hashes, checks, segs[k].ident)
    ensures var r := Flagged(segs, hashes, checks);
            && |r| == |segs| && (r[k].verified <==> Approved(hashes, checks, segs[k].ident))
            && (segs[k].ident in hashes || !segs[k].verified ==> (r[k].badVerification <==> !r[k].verified))
  {
    FlagListGood(segs, hashes, checks, k);
  }

  lemma FlaggedKeeps(segs: seq<Seg>, hashes: seq<Ident>, checks: seq<bool>)
    requires |hashes| == |checks|
    ensures var r := Flagged(segs, hashes, checks);
            SameRanges(segs, r) && forall k :: 0 <= k < |segs| ==> r[k].idx == segs[k].idx
  {
    FlagListKeeps(segs, hashes, checks);
  }

  lemma ApprovedListed(hashes: seq<Ident>, checks: seq<bool>, d: Ident)
    requires |hashes| == |checks| && Approved(hashes, checks, d)
    ensures d in hashes
  {}

  lemma FlaggedOk(t: Table, g: seq<Ident>, hashes: seq<Ident>, checks: seq<bool>)
    requires TableOk(t, g) && |hashes| == |checks| && Consistent(hashes, checks)
    requires forall d :: d in g ==> Approved(hashes, checks, d)
    ensures var segs := Flagged(t.segs, hashes, checks);
            && SameRanges(t.segs, segs) && Numbered(t.(segs := segs), g)
            && (forall k :: 0 <= k < |segs| ==>
                  && (segs[k].verified <==> Approved(hashes, checks, segs[k].ident))
                  && (segs[k].badVerification <==> !segs[k].verified))
  {
    hide MapOk, Approved, Flagged;
    var segs := Flagged(t.segs, hashes, checks);
    FlaggedKeeps(t.segs, hashes, checks);
    forall k | 0 <= k < |segs|
      ensures segs[k].verified <==> Approved(hashes, checks, segs[k].ident)
      ensures segs[k].badVerification <==> !segs[k].verified
    {
      if t.segs[k].verified {
        VerifiedIffNumbered(t, g, k);
        ApprovedListed(hashes, checks, t.segs[k].ident);
      }
      FlaggedGood(t.segs, hashes, checks, k);
    }
    SameFlags(t, g, segs);
  }

  lemma {:induction false} NewSegsAre(segs: seq<Seg>, starts: map<nat, nat>, count: nat)
    ensures forall s :: s in NewSegs(segs, starts, count) <==>
            s in segs && s.verified && !InStarts(starts, count, s.start)
    decreases |segs|
  {
    if segs != [] {
      var n := |segs| - 1;
      NewSegsAre(segs[..n], starts, count);
      assert segs == segs[..n] + [segs[n]];
    }
  }

  ghost predicate DistinctSegs(s: seq<Seg>) { forall i, j :: 0 <= i < j < |s| ==> s[i].ident != s[j].ident }

  lemma {:induction false} NewSegsDistinct(segs: seq<Seg>, starts: map<nat, nat>, count: nat)
    requires DistinctSegs(segs)
    ensures DistinctSegs(NewSegs(segs, starts, count))
    decreases |segs|
  {
    if segs != [] {
      var n := |segs| - 1;
      NewSegsDistinct(segs[..n], starts, count);
      NewSegsAre(segs[..n], starts, count);
      var front := NewSegs(segs[..n], starts, count);
      forall i | 0 <= i < |front|
        ensures front[i].ident != segs[n].ident
      {
        assert front[i] in segs[..n];
      }
    }
  }

  /** The table of starts knows exactly the segments that have an index. */
  lemma StartsKnow(t: Table, g: seq<Ident>, k: nat)
    requires Numbered(t, g) && k < |t.segs|
    ensures InStarts(t.starts, t.count, t.segs[k].start) <==> t.segs[k].idx > 0
  {
    var s := t.segs[k];
    if s.idx > 0 {
      var i := s.idx - 1;
      assert SegNumbered(s, g) && SlotOk(t.segs, t.starts, g, i);
      var m :| 0 <= m < |t.segs| && t.segs[m].ident == g[i] && t.segs[m].start == t.starts[i + 1];
      assert m == k;
    }
    if InStarts(t.starts, t.count, s.start) {
      var i :| 1 <= i <= t.count && i in t.starts && t.starts[i] == s.start;
      assert SlotOk(t.segs, t.starts, g, i - 1);
      var m :| 0 <= m < |t.segs| && t.segs[m].ident == g[i - 1] && t.segs[m].start == t.starts[i];
      SameStart(t.segs, m, k);
      assert SegNumbered(s, g);
    }
  }

  lemma {:induction false} SortedPerm(s: seq<Seg>)
    ensures SortedBy(IdentOf, Sorted(s)) && multiset(Sorted(s)) == multiset(s) && |Sorted(s)| == |s|
  {
    if s != [] {
      SortedPerm(s[1..]);
      InsertedSorted(IdentOf, s[0], Sorted(s[1..]));
      InsertedElements(IdentOf, s[0], Sorted(s[1..]));
      assert s == [s[0]] + s[1..];
    }
  }

  lemma {:induction false} InsertedDistinct(x: Seg, s: seq<Seg>)
    requires DistinctSegs(s) && forall i :: 0 <= i < |s| ==> s[i].ident != x.ident
    ensures DistinctSegs(Inserted(IdentOf, x, s))
  {
    if s != [] && IdentOf(x) > IdentOf(s[0]) {
      InsertedDistinct(x, s[1..]);
      var r := Inserted(IdentOf, x, s[1..]);
      InsertedElements(IdentOf, x, s[1..]);
      forall j | 0 <= j < |r|
        ensures r[j].ident != s[0].ident
      {
        assert r[j] in multiset(r);
        assert r[j] == x || r[j] in s[1..];
      }
    }
  }

  lemma {:induction false} SortedDistinct(s: seq<Seg>)
    requires DistinctSegs(s)
    ensures DistinctSegs(Sorted(s))
  {
    if s != [] {
      SortedDistinct(s[1..]);
      SortedPerm(s[1..]);
      var r := Sorted(s[1..]);
      forall i | 0 <= i < |r|
        ensures r[i].ident != s[0].ident
      {
        assert r[i] in multiset(r);
        assert r[i] in s[1..];
      }
      InsertedDistinct(s[0], r);
    }
  }

  function Idents(s: seq<Seg>): seq<Ident> { MapSeq((x: Seg) => x.ident, s) }

  /** The segments to be numbered: in the map, not yet numbered, no two alike. */
  ghost predicate Pending(t: Table, news: seq<Seg>) {
    && DistinctSegs(news)
    && forall i :: 0 <= i < |news| ==> Unnumbered(t.segs, news[i])
  }

  /** The map has segment x, without an index. */
  ghost predicate Unnumbered(segs: seq<Seg>, x: Seg) {
    exists k :: 0 <= k < |segs| && segs[k].ident == x.ident && segs[k].start == x.start && segs[k].idx == 0
  }

  lemma {:induction false} AssignOk(t: Table, g: seq<Ident>, news: seq<Seg>)
    requires Numbered(t, g) && Pending(t, news)
    ensures var t' := Assign(t, news);
            && Numbered(t', g + Idents(news)) && SameRanges(t.segs, t'.segs) && t'.epoch == t.epoch
            && (forall k :: 0 <= k < |t.segs| ==> t'.segs[k].(idx := t.segs[k].idx) == t.segs[k])
    decreases |news|
  {
    hide MapOk, Numbered, Pending;
    if news == [] {
      assert g + Idents(news) == g;
    } else {
      var n := news[0];
      NumberedMap(t, g);
      var k := PendingAt(t, news);
      var segs := SetIdx(t.segs, n.start, t.count);
      OnlyOneStart(t.segs, k);
      NumberOne(t, g, k, segs);
      var t1 := Table(segs, t.count + 1, t.starts[t.count := n.start], t.epoch);
      StillPending(t, news, k, t1);
      AssignOk(t1, g + [n.ident], news[1..]);
      assert g + [n.ident] + Idents(news[1..]) == g + Idents(news);
    }
  }

  lemma NumberedMap(t: Table, g: seq<Ident>)
    requires Numbered(t, g)
    ensures MapOk(t.segs) && AllGood(t.segs) && t.count == |g| + 1
  {}

  lemma PendingAt(t: Table, news: seq<Seg>) returns (k: nat)
    requires Pending(t, news) && news != []
    ensures k < |t.segs| && t.segs[k].ident == news[0].ident && t.segs[k].start == news[0].start && t.segs[k].idx == 0
  {
    assert Unnumbered(t.segs, news[0]);
    k :| 0 <= k < |t.segs| && t.segs[k].ident == news[0].ident && t.segs[k].start == news[0].start
      && t.segs[k].idx == 0;
  }

  lemma OnlyOneStart(segs: seq<Seg>, k: nat)
    requires MapOk(segs) && k < |segs|
    ensures forall i :: 0 <= i < |segs| && segs[i].start == segs[k].start ==> i == k
  {
    forall i | 0 <= i < |segs| && segs[i].start == segs[k].start ensures i == k { SameStart(segs, i, k); }
  }

  lemma StillPending(t: Table, news: seq<Seg>, k: nat, t1: Table)
    requires MapOk(t.segs) && Pending(t, news) && news != [] && k < |t.segs| && t.segs[k].ident == news[0].ident
    requires t.segs[k].start == news[0].start
    requires t1.segs == SetIdx(t.segs, news[0].start, t.count)
    ensures Pending(t1, news[1..])
  {
    OnlyOneStart(t.segs, k);
    forall i | 0 <= i < |news[1..]|
      ensures Unnumbered(t1.segs, news[1..][i])
    {
      var x := news[i + 1];
      assert Unnumbered(t.segs, x);
      var m :| 0 <= m < |t.segs| && t.segs[m].ident == x.ident && t.segs[m].start == x.start && t.segs[m].idx == 0;
      assert news[0].ident != x.ident;
      assert m != k && t1.segs[m].ident == x.ident;
    }
  }

  ghost predicate Increasing(g: seq<Ident>) { forall i, j :: 0 <= i < j < |g| ==> g[i] < g[j] }

  /** The hashes a verify_all call numbers: approved and not numbered before, in increasing order. */
  ghost predicate AllGrant(g: seq<Ident>, hashes: seq<Ident>, checks: seq<bool>, g': seq<Ident>)
    requires |hashes| == |checks|
  {
    Increasing(g') && forall d :: d in g' <==> d !in g && Approved(hashes, checks, d)
  }

  lemma JudgeAllOk(t: Table, g: seq<Ident>, hashes: seq<Ident>, checks: seq<bool>, max: nat) returns (g': seq<Ident>)
    requires TableOk(t, g) && |hashes| == |checks| && Consistent(hashes, checks)
    requires forall d :: d in g ==> Approved(hashes, checks, d)
    requires forall i :: 0 <= i < |hashes| && checks[i] ==> Has(t.segs, hashes[i])
    ensures AllGrant(g, hashes, checks, g') && SameRanges(t.segs, JudgeAll(t, hashes, checks, max).0.segs)
    ensures JudgeAll(t, hashes, checks, max).1 == if t.count + |g'| > max then LimitExceeded else Verified
    ensures forall k :: 0 <= k < |t.segs| ==>
              && var s := JudgeAll(t, hashes, checks, max).0.segs[k];
              && (s.verified <==> Approved(hashes, checks, t.segs[k].ident))
              && (s.badVerification <==> !s.verified)
    ensures t.count + |g'| <= max ==> TableOk(JudgeAll(t, hashes, checks, max).0, g + g')
    ensures t.count + |g'| <= max ==>
              JudgeAll(t, hashes, checks, max).0.epoch == if g' == [] then t.epoch else t.epoch + 1
  {
    hide MapOk, Approved, Numbered, InStarts, Pending, Flagged, Sorted, Assign, NewSegs, Idents;
    var segs := Flagged(t.segs, hashes, checks);
    FlaggedOk(t, g, hashes, checks);
    var t1 := t.(segs := segs);
    SameHas(t.segs, segs);
    g' := NumberApproved(t1, g, hashes, checks);
    var t2 := Assign(t1, Sorted(NewSegs(segs, t.starts, t.count)));
    OtherEpoch(t2, g + g', t2.epoch + 1);
  }

  /**
   What verify_all does to any map, duplicates included: a good segment that the list names is verified if every rank
   had it and bad otherwise, one that it does not name keeps its flags and is bad unless it was verified; indices come
   with a new epoch.
   */
  ghost predicate AllJudged(t: Table, hashes: seq<Ident>, checks: seq<bool>, max: nat, t': Table, v: Verdict)
    requires |hashes| == |checks|
  {
    && v != NotOnAllRanks && SameRanges(t.segs, t'.segs)
    && (v == Verified ==> t.count <= t'.count <= max)
    && (v == Verified ==> t'.epoch == if t'.count > t.count then t.epoch + 1 else t.epoch)
    && (Consistent(hashes, checks) ==> forall k :: 0 <= k < |t.segs| && !t.segs[k].badSegment ==>
          var s, s' := t.segs[k], t'.segs[k];
          if s.ident in hashes then
            && (s'.verified <==> Approved(hashes, checks, s.ident))
            && (s'.badVerification <==> !Approved(hashes, checks, s.ident))
          else s'.verified == s.verified && (s'.badVerification <==> s.badVerification || !s.verified))
  }

  lemma {:induction false} AssignFlags(t: Table, news: seq<Seg>)
    ensures var t' := Assign(t, news);
            && t'.count == t.count + |news| && t'.epoch == t.epoch && SameRanges(t.segs, t'.segs)
            && forall k :: 0 <= k < |t.segs| ==> t'.segs[k].(idx := t.segs[k].idx) == t.segs[k]
    decreases |news|
  {
    if news != [] {
      AssignFlags(t.(segs := SetIdx(t.segs, news[0].start, t.count), starts := t.starts[t.count := news[0].start],
                     count := t.count + 1), news[1..]);
    }
  }

  lemma JudgeAllSays(t: Table, hashes: seq<Ident>, checks: seq<bool>, max: nat)
    requires MapOk(t.segs) && |hashes| == |checks|
    ensures var (t', v) := JudgeAll(t, hashes, checks, max); AllJudged(t, hashes, checks, max, t', v)
  {
    hide MapOk, Approved, FlagList, Sorted, NewSegs, Assign, Consistent;
    var segs := Flagged(t.segs, hashes, checks);
    FlaggedKeeps(t.segs, hashes, checks);
    AssignFlags(t.(segs := segs), Sorted(NewSegs(segs, t.starts, t.count)));
    if Consistent(hashes, checks) {
      forall k | 0 <= k < |t.segs| && !t.segs[k].badSegment
        ensures segs[k] == Blame(FlagList(t.segs, hashes, checks)[k])
        ensures var r := FlagList(t.segs, hashes, checks);
                if t.segs[k].ident in hashes then
                  && (r[k].verified <==> Approved(hashes, checks, t.segs[k].ident))
                  && (r[k].badVerification <==> !Approved(hashes, checks, t.segs[k].ident))
                else r[k] == t.segs[k]
      {
        FlagListGood(t.segs, hashes, checks, k);
      }
    }
  }

  lemma SameHas(a: seq<Seg>, b: seq<Seg>)
    requires SameRanges(a, b)
    ensures forall d :: Has(a, d) ==> Has(b, d)
  {
    forall d | Has(a, d)
      ensures Has(b, d)
    {
      var k :| 0 <= k < |a| && a[k].ident == d;
      assert b[k].ident == d;
    }
  }

  /** Lines 1140-1168 on a map whose verified flags say what was approved. */
  lemma NumberApproved(t: Table, g: seq<Ident>, hashes: seq<Ident>, checks: seq<bool>) returns (g': seq<Ident>)
    requires Numbered(t, g) && |hashes| == |checks|
    requires forall d :: d in g ==> Approved(hashes, checks, d)
    requires forall k :: 0 <= k < |t.segs| ==> (t.segs[k].verified <==> Approved(hashes, checks, t.segs[k].ident))
    requires forall i :: 0 <= i < |hashes| && checks[i] ==> Has(t.segs, hashes[i])
    ensures var t' := Assign(t, Sorted(NewSegs(t.segs, t.starts, t.count)));
            && AllGrant(g, hashes, checks, g') && TableOk(t', g + g') && SameRanges(t.segs, t'.segs)
            && |g'| == |Sorted(NewSegs(t.segs, t.starts, t.count))| && t'.epoch == t.epoch
            && (forall k :: 0 <= k < |t.segs| ==> t'.segs[k].(idx := t.segs[k].idx) == t.segs[k])
  {
    hide MapOk, Numbered, InStarts, Pending, Sorted, Assign, NewSegs;
    var found := NewSegs(t.segs, t.starts, t.count);
    var news := Sorted(found);
    NewSegsPending(t, g, found);
    SortedPerm(found);
    SortedPending(t, found, news);
    AssignOk(t, g, news);
    g' := Idents(news);
    forall d
      ensures d in g' <==> d !in g && Approved(hashes, checks, d)
    {
      GrantMember(t, g, found, news, hashes, checks, d);
    }
    GrantJudged(Assign(t, news), g, g', hashes, checks);
  }

  lemma NewSegsPending(t: Table, g: seq<Ident>, found: seq<Seg>)
    requires Numbered(t, g) && found == NewSegs(t.segs, t.starts, t.count)
    ensures Pending(t, found)
    ensures forall k :: 0 <= k < |t.segs| ==> (t.segs[k] in found <==> t.segs[k].verified && t.segs[k].idx == 0)
  {
    hide InStarts;
    NewSegsAre(t.segs, t.starts, t.count);
    NewSegsDistinct(t.segs, t.starts, t.count);
    forall k | 0 <= k < |t.segs|
      ensures InStarts(t.starts, t.count, t.segs[k].start) <==> t.segs[k].idx > 0
    {
      StartsKnow(t, g, k);
    }
    forall i | 0 <= i < |found|
      ensures Unnumbered(t.segs, found[i])
    {
      assert found[i] in found && found[i] in t.segs;
      var k :| 0 <= k < |t.segs| && t.segs[k] == found[i];
    }
  }

  lemma SortedPending(t: Table, found: seq<Seg>, news: seq<Seg>)
    requires Pending(t, found) && news == Sorted(found)
    ensures Pending(t, news) && Increasing(Idents(news))
  {
    SortedPerm(found);
    SortedDistinct(found);
    forall i | 0 <= i < |news|
      ensures Unnumbered(t.segs, news[i])
    {
      assert news[i] in multiset(news) && news[i] in found;
      var j :| 0 <= j < |found| && found[j] == news[i];
    }
    forall i, j | 0 <= i < j < |news|
      ensures Idents(news)[i] < Idents(news)[j]
    {
      assert IdentOf(news[i]) <= IdentOf(news[j]) && news[i].ident != news[j].ident;
    }
  }

  lemma GrantMember(t: Table, g: seq<Ident>, found: seq<Seg>, news: seq<Seg>, hashes: seq<Ident>, checks: seq<bool>,
                    d: Ident)
    requires Numbered(t, g) && |hashes| == |checks| && multiset(news) == multiset(found)
    requires found == NewSegs(t.segs, t.starts, t.count)
    requires forall k :: 0 <= k < |t.segs| ==> (t.segs[k].verified <==> Approved(hashes, checks, t.segs[k].ident))
    requires forall k :: 0 <= k < |t.segs| ==> (t.segs[k] in found <==> t.segs[k].verified && t.segs[k].idx == 0)
    requires Approved(hashes, checks, d) ==> Has(t.segs, d)
    ensures d in Idents(news) <==> d !in g && Approved(hashes, checks, d)
  {
    hide InStarts, Approved;
    NonNegative(t.segs);
    if d in Idents(news) {
      var i :| 0 <= i < |news| && Idents(news)[i] == d;
      assert news[i] in multiset(news) && news[i] in found;
      NewSegsAre(t.segs, t.starts, t.count);
      var k :| 0 <= k < |t.segs| && t.segs[k] == news[i];
      assert d !in g;
    }
    if d !in g && Approved(hashes, checks, d) {
      var k :| 0 <= k < |t.segs| && t.segs[k].ident == d;
      assert t.segs[k].idx == 0;
      assert t.segs[k] in multiset(found) && t.segs[k] in news;
      var i :| 0 <= i < |news| && news[i] == t.segs[k];
      assert Idents(news)[i] == d;
    }
  }

  lemma GrantJudged(t: Table, g: seq<Ident>, g': seq<Ident>, hashes: seq<Ident>, checks: seq<bool>)
    requires Numbered(t, g + g') && |hashes| == |checks|
    requires forall k :: 0 <= k < |t.segs| ==> (t.segs[k].verified <==> Approved(hashes, checks, t.segs[k].ident))
    requires forall d :: d in g' <==> d !in g && Approved(hashes, checks, d)
    requires forall d :: d in g ==> Approved(hashes, checks, d)
    ensures Judged(t)
  {
    hide Approved, MapOk;
    NonNegative(t.segs);
    var all := g + g';
    forall k | 0 <= k < |t.segs|
      ensures t.segs[k].verified <==> t.segs[k].idx > 0
    {
      var d := t.segs[k].ident;
      assert d in all <==> Approved(hashes, checks, d);
      if t.segs[k].idx > 0 { assert all[t.segs[k].idx - 1] == d; }
      if d in all { var i :| 0 <= i < |all| && all[i] == d; assert t.segs[k].idx == i + 1; }
    }
  }
}
