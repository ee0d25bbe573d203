/**
 Runs of a process whose threads, each with its own cache, tokenize and detokenize while segments are loaded and
 verified. Every tokenization answers as a linear scan of the map would, whatever the caches have been through.
 */
module Threads {
  import opened Segments
  import opened SegmentCache
  import opened SegmentTable
  import opened Verification
  import opened Following
  import opened Tokens
  import opened Process

  // ----- runs -----

  datatype Op =
    | Tokenize(i: nat, p: nat)
    | Detokenize(i: nat, token: SegmentTable.Token)
    | Reload
    | Name(p: nat)
    | JudgeOne(h: Ident, reduced: Ident)
    | JudgeEvery(hashes: seq<Ident>, checks: seq<bool>)
    | Enforce(on: bool)

  datatype Reply = Token(r: Outcome) | Place(a: Address) | Named(n: Naming) | Judgement(v: Verdict) | Done

  predicate OpOk(op: Op, n: nat) {
    match op
    case Tokenize(i, _) => i < n
    case Detokenize(i, _) => i < n
    case JudgeEvery(hashes, checks) => |hashes| == |checks|
    case _ => true
  }

  /** The run ends: the limit is exceeded, or the collective call fails for a segment that has an index here. */
  predicate Ends(t: Table, op: Op, max: nat) {
    match op
    case JudgeOne(h, reduced) => Forgets(t, h, reduced) || JudgeSegment(t, h, reduced, max).1 == LimitExceeded
    case JudgeEvery(hashes, checks) =>
      |hashes| == |checks| ==> !Vouches(t, hashes, checks) || JudgeAll(t, hashes, checks, max).1 == LimitExceeded
    case _ => false
  }

  /** What a thread has cached. */
  datatype View = View(idxs: seq<IdxEntry>, ptrs: seq<PtrEntry>, epoch: nat)

  const EMPTY := View([], [], 0)

  ghost function ViewOf(c: SegCache): View
    reads c, c.ptr, c.idx
  {
    if c.occupancy <= c.ptr.Length && c.idxOccupancy <= c.idx.Length then
      View(c.idx[..c.idxOccupancy], c.ptr[..c.occupancy], c.epoch)
    else EMPTY
  }

  ghost function Views(cs: seq<SegCache>): (vs: seq<View>)
    reads cs, set c | c in cs :: c.ptr, set c | c in cs :: c.idx
    ensures |vs| == |cs| && forall i :: 0 <= i < |cs| ==> vs[i] == ViewOf(cs[i])
  {
    seq(|cs|, i requires 0 <= i < |cs| reads cs, set c | c in cs :: c.ptr, set c | c in cs :: c.idx => ViewOf(cs[i]))
  }

  /** The pointer entries a thread looks at: none when verification is enforced, or when they are stale. */
  ghost function UsableIn(v: View, enforce: bool, epoch: nat): seq<PtrEntry> {
    if !enforce && v.epoch == epoch then v.ptrs else []
  }

  /** Only the thread that acts changes its cache. */
  ghost predicate OthersSame(vs: seq<View>, vs': seq<View>, i: nat) {
    |vs'| == |vs| && forall j :: 0 <= j < |vs| && j != i ==> vs'[j] == vs[j]
  }

  /**
   What a tokenization answers: in the primary segment, the offset from its start; in a good segment,
     what a linear scan says, of the map as it is or, for a pointer in no
   segment, of the map rebuilt; in a bad segment and at the ends, what a cache says that covers the pointer, or else
   the scan.
   */
  ghost predicate Scanned(primary: Seg, t: Table, news: seq<Seg>, v: View, p: nat, enforce: bool, r: Outcome) {
    && (primary.start <= p < primary.end <==> r == Got(Single(p - primary.start)))
    && (!(primary.start <= p < primary.end) ==>
          Answers(t.segs, Rebuilt(t.segs, news), v.idxs, UsableIn(v, enforce, t.epoch), p, enforce, r))
  }

  /** A process between two operations. */
  datatype Moment = Moment(t: Table, enforce: bool, views: seq<View>)

  ghost function Now(pr: Process, cs: seq<SegCache>): Moment
    reads pr, cs, set c | c in cs :: c.ptr, set c | c in cs :: c.idx
  {
    Moment(pr.T(), pr.enforce, Views(cs))
  }

  /** What an operation answers, and does to the tables and to what the threads have cached. */
  ghost predicate StepOk(primary: Seg, m: Moment, op: Op, news: seq<Seg>, max: nat, reply: Reply, m': Moment) {
    var t, t' := m.t, m'.t;
    match op
    case Tokenize(i, p) =>
      && reply.Token? && i < |m.views| && OthersSame(m.views, m'.views, i) && m' == m.(t := m'.t, views := m'.views)
      && Scanned(primary, t, news, m.views[i], p, m.enforce, reply.r) && t' == t.(segs := t'.segs)
      && PtrFrom(m.views[i].ptrs, m'.views[i].ptrs, p) && IdxFrom(m.views[i].idxs, m'.views[i].idxs, p)
    case Detokenize(i, token) =>
      && reply.Place? && i < |m.views| && OthersSame(m.views, m'.views, i) && m' == m.(t := m'.t, views := m'.views)
      && Detokenized(primary, t, news, token, reply.a) && t' == t.(segs := t'.segs)
      && HoldsFrom(m.views[i].ptrs, m'.views[i].ptrs, m.views[i].idxs, m'.views[i].idxs,
                   if token.Multi? && reply.a.At? then reply.a.addr - token.offset else -1)
    case Reload => reply == Done && m' == m.(t := t.(segs := Rebuilt(t.segs, news)))
    case Name(p) => reply.Named? && NamedBy(t'.segs, p, reply.n) && m' == m.(t := t.(segs := Rebuilt(t.segs, news)))
    case JudgeOne(h, reduced) =>
      && reply.Judgement? && m' == m.(t := t') && (t', reply.v) == JudgeSegment(t, h, reduced, max)
      && SegmentJudged(t, h, reduced, max, t', reply.v)
    case JudgeEvery(hashes, checks) =>
      && reply.Judgement? && m' == m.(t := t') && |hashes| == |checks|
      && (t', reply.v) == JudgeAll(t, hashes, checks, max) && AllJudged(t, hashes, checks, max, t', reply.v)
    case Enforce(on) => reply == Done && m' == m.(enforce := on)
  }

  ghost predicate Apart(cs: seq<SegCache>) {
    forall i, j :: 0 <= i < j < |cs| ==>
      cs[i] != cs[j] && cs[i].ptr != cs[j].ptr && cs[i].tkn != cs[j].tkn && cs[i].idx != cs[j].idx
  }

  /** Every cache fits the map. */
  ghost predicate AllFit(cs: seq<SegCache>, segs: seq<Seg>, epoch: nat)
    reads cs, set c | c in cs :: c.ptr, set c | c in cs :: c.tkn, set c | c in cs :: c.idx
  {
    forall i :: 0 <= i < |cs| ==> Fits(cs[i], segs, epoch)
  }

  lemma AllFollow(cs: seq<SegCache>, segs0: seq<Seg>, epoch0: nat, segs1: seq<Seg>, epoch1: nat)
    requires AllFit(cs, segs0, epoch0) && Follows(segs0, epoch0, segs1, epoch1)
    ensures AllFit(cs, segs1, epoch1)
  {
    hide Fits, Follows;
    forall i | 0 <= i < |cs| ensures Fits(cs[i], segs1, epoch1) { FollowsFits(cs[i], segs0, epoch0, segs1, epoch1); }
  }

  lemma OthersFollow(cs: seq<SegCache>, i: nat, segs0: seq<Seg>, segs1: seq<Seg>, epoch: nat)
    requires i < |cs| && Fits(cs[i], segs1, epoch) && Follows(segs0, epoch, segs1, epoch)
    requires forall j :: 0 <= j < |cs| && j != i ==> Fits(cs[j], segs0, epoch)
    ensures AllFit(cs, segs1, epoch)
  {
    hide Fits, Follows;
    forall j | 0 <= j < |cs|
      ensures Fits(cs[j], segs1, epoch)
    {
      if j != i { FollowsFits(cs[j], segs0, epoch, segs1, epoch); }
    }
  }

  lemma FitsShape(c: SegCache, segs: seq<Seg>, epoch: nat)
    requires Fits(c, segs, epoch)
    ensures c.Shape()
  {}

  method TokenizeStep(pr: Process, cs: seq<SegCache>, i: nat, p: nat, news: seq<Seg>) returns (r: Outcome)
    requires Steady(pr.T()) && AllFit(cs, pr.segs, pr.epoch) && Apart(cs) && i < |cs| && Pristine(news)
    requires Grows(pr.segs, news)
    modifies pr`segs, cs, set c | c in cs :: c.ptr, set c | c in cs :: c.tkn, set c | c in cs :: c.idx
    ensures Steady(pr.T()) && AllFit(cs, pr.segs, pr.epoch) && Grows(pr.segs, news)
    ensures Scanned(pr.primary, old(pr.T()), news, old(ViewOf(cs[i])), p, pr.enforce, r)
    ensures forall j :: 0 <= j < |cs| && j != i ==> ViewOf(cs[j]) == old(ViewOf(cs[j]))
    ensures PtrFrom(old(ViewOf(cs[i])).ptrs, ViewOf(cs[i]).ptrs, p)
    ensures IdxFrom(old(ViewOf(cs[i])).idxs, ViewOf(cs[i]).idxs, p)
  {
    hide Follows, Steady, Answers, PtrCovers, IdxCovers, Rebuilt, MapOk, Grows, PtrFrom, IdxFrom, Fits;
    FitsShape(cs[i], pr.segs, pr.epoch);
    assert pr.Usable(cs[i]) == UsableIn(ViewOf(cs[i]), pr.enforce, pr.epoch);
    ghost var segs0 := pr.segs;
    r := pr.Tokenize(p, cs[i], news);
    FitsShape(cs[i], pr.segs, pr.epoch);
    OthersFollow(cs, i, segs0, pr.segs, pr.epoch);
  }

  method DetokenizeStep(pr: Process, cs: seq<SegCache>, i: nat, token: SegmentTable.Token, news: seq<Seg>)
      returns (r: Address)
    requires Steady(pr.T()) && AllFit(cs, pr.segs, pr.epoch) && Apart(cs) && i < |cs| && Pristine(news)
    requires Grows(pr.segs, news)
    modifies pr`segs, cs, set c | c in cs :: c.ptr, set c | c in cs :: c.tkn, set c | c in cs :: c.idx
    ensures Steady(pr.T()) && AllFit(cs, pr.segs, pr.epoch) && Grows(pr.segs, news)
    ensures Detokenized(pr.primary, old(pr.T()), news, token, r)
    ensures forall j :: 0 <= j < |cs| && j != i ==> ViewOf(cs[j]) == old(ViewOf(cs[j]))
    ensures HoldsFrom(old(ViewOf(cs[i])).ptrs, ViewOf(cs[i]).ptrs, old(ViewOf(cs[i])).idxs, ViewOf(cs[i]).idxs,
                      if token.Multi? && r.At? then r.addr - token.offset else -1)
  {
    hide Follows, Steady, Holds, Detokenized, Rebuilt, MapOk, Grows, HoldsFrom, Fits;
    FitsShape(cs[i], pr.segs, pr.epoch);
    ghost var segs0 := pr.segs;
    r := pr.Detokenize(token, cs[i], news);
    FitsShape(cs[i], pr.segs, pr.epoch);
    OthersFollow(cs, i, segs0, pr.segs, pr.epoch);
  }

  method JudgeStep(pr: Process, cs: seq<SegCache>, op: Op, news: seq<Seg>, max: nat) returns (v: Verdict)
    requires Steady(pr.T()) && AllFit(cs, pr.segs, pr.epoch) && Grows(pr.segs, news) && (op.JudgeOne? || op.JudgeEvery?)
    requires OpOk(op, |cs|)
    requires !Ends(pr.T(), op, max)
    modifies pr`segs, pr`count, pr`starts, pr`epoch
    ensures Steady(pr.T()) && AllFit(cs, pr.segs, pr.epoch) && Grows(pr.segs, news)
    ensures op.JudgeOne? ==>
              && (pr.T(), v) == JudgeSegment(old(pr.T()), op.h, op.reduced, max)
              && SegmentJudged(old(pr.T()), op.h, op.reduced, max, pr.T(), v)
    ensures op.JudgeEvery? ==>
              && (pr.T(), v) == JudgeAll(old(pr.T()), op.hashes, op.checks, max)
              && AllJudged(old(pr.T()), op.hashes, op.checks, max, pr.T(), v)
  {
    hide Follows, Steady, MapOk, Grows, JudgeSegment, JudgeAll, Fits, SegmentJudged, AllJudged;
    ghost var t := pr.T();
    SteadyMap(t);
    if op.JudgeOne? {
      JudgeSegmentFollows(t, op.h, op.reduced, max);
      v := pr.JudgeOne(op.h, op.reduced, max);
    } else {
      JudgeAllFollows(t, op.hashes, op.checks, max);
      v := pr.JudgeEvery(op.hashes, op.checks, max);
    }
    AllFollow(cs, t.segs, t.epoch, pr.segs, pr.epoch);
    GrowsSame(t.segs, pr.segs, news);
  }

  /** Loading, naming, verification and enforcement touch no cache. */
  method QuietStep(pr: Process, cs: seq<SegCache>, op: Op, news: seq<Seg>, max: nat) returns (reply: Reply)
    requires Steady(pr.T()) && AllFit(cs, pr.segs, pr.epoch) && OpOk(op, |cs|) && Pristine(news)
    requires Grows(pr.segs, news) && !Ends(pr.T(), op, max) && !op.Tokenize? && !op.Detokenize?
    modifies pr
    ensures Steady(pr.T()) && AllFit(cs, pr.segs, pr.epoch) && Grows(pr.segs, news)
    ensures StepOk(pr.primary, old(Now(pr, cs)), op, news, max, reply, Now(pr, cs))
  {
    hide Follows, Steady, Rebuilt, MapOk, Grows, JudgeSegment;
    hide JudgeAll, Fits, ViewOf, NamedBy, SegmentJudged, AllJudged;
    ghost var segs0, views0 := pr.segs, Views(cs);
    match op {
      case Reload =>
        SteadyMap(pr.T());
        GrownByNews(pr.segs, news);
        pr.RebuildMap(news);
        AllFollow(cs, segs0, pr.epoch, pr.segs, pr.epoch);
        reply := Done;
      case Name(p) =>
        SteadyMap(pr.T());
        GrownByNews(pr.segs, news);
        var n := pr.NameSegment(p, news);
        AllFollow(cs, segs0, pr.epoch, pr.segs, pr.epoch);
        reply := Named(n);
      case JudgeOne(_, _) =>
        var v := JudgeStep(pr, cs, op, news, max);
        reply := Judgement(v);
      case JudgeEvery(_, _) =>
        var v := JudgeStep(pr, cs, op, news, max);
        reply := Judgement(v);
      case Enforce(on) =>
        pr.enforce := on;
        reply := Done;
    }
    assert Views(cs) == views0;
  }

  lemma SameOthers(vs: seq<View>, vs': seq<View>, i: nat)
    requires |vs'| == |vs| && forall j :: 0 <= j < |vs| && j != i ==> vs'[j] == vs[j]
    ensures OthersSame(vs, vs', i)
  {}

  method Step(pr: Process, cs: seq<SegCache>, op: Op, news: seq<Seg>, max: nat) returns (reply: Reply)
    requires Steady(pr.T()) && AllFit(cs, pr.segs, pr.epoch) && Apart(cs) && OpOk(op, |cs|) && Pristine(news)
    requires Grows(pr.segs, news)
    requires !Ends(pr.T(), op, max)
    modifies pr, cs, set c | c in cs :: c.ptr, set c | c in cs :: c.tkn, set c | c in cs :: c.idx
    ensures Steady(pr.T()) && AllFit(cs, pr.segs, pr.epoch) && Grows(pr.segs, news)
    ensures StepOk(pr.primary, old(Now(pr, cs)), op, news, max, reply, Now(pr, cs))
  {
    hide Follows, Steady, Rebuilt, MapOk, Grows, JudgeSegment;
    hide JudgeAll, Scanned, Detokenized, Fits, SegmentJudged, AllJudged;
    hide OthersSame, PtrFrom, IdxFrom, HoldsFrom, ViewOf, AllFit, Ends;
    ghost var views0 := Views(cs);
    match op
    case Tokenize(i, p) =>
      var r := TokenizeStep(pr, cs, i, p, news);
      SameOthers(views0, Views(cs), i);
      reply := Token(r);
    case Detokenize(i, token) =>
      var a := DetokenizeStep(pr, cs, i, token, news);
      SameOthers(views0, Views(cs), i);
      reply := Place(a);
    case _ =>
      reply := QuietStep(pr, cs, op, news, max);
  }

  /** What the loader reports, operation after operation: segments are only added. */
  ghost predicate Chain(first: seq<Seg>, loads: seq<seq<Seg>>) {
    && Pristine(first) && (forall k :: 0 <= k < |loads| ==> Pristine(loads[k]))
    && (|loads| > 0 ==> Grows(first, loads[0]))
    && (forall k :: 0 < k < |loads| ==> Grows(loads[k - 1], loads[k]))
  }

  /** A cache nothing has been put into. */
  ghost predicate Blank(c: SegCache)
    reads c, c.ptr, c.tkn, c.idx
  {
    c.Valid([]) && c.occupancy == 0 && c.idxOccupancy == 0 && c.epoch == 0
  }

  lemma BlankFits(cs: seq<SegCache>)
    requires forall i :: 0 <= i < |cs| ==> Blank(cs[i])
    ensures forall segs, epoch :: AllFit(cs, segs, epoch)
    ensures Views(cs) == seq(|cs|, _ => EMPTY)
  {
    hide Fits;
    forall i | 0 <= i < |cs|
      ensures (forall segs, epoch: nat :: Fits(cs[i], segs, epoch)) && ViewOf(cs[i]) == EMPTY
    {
      EmptyFits(cs[i]);
    }
  }

  method NewCaches(n: nat) returns (cs: seq<SegCache>)
    ensures |cs| == n && Apart(cs) && fresh(cs)
    ensures forall c :: c in cs ==> fresh(c.ptr) && fresh(c.tkn) && fresh(c.idx)
    ensures forall i :: 0 <= i < |cs| ==> Blank(cs[i])
  {
    hide Blank;
    cs := [];
    for k := 0 to n
      invariant |cs| == k && Apart(cs) && fresh(cs)
      invariant forall c :: c in cs ==> fresh(c.ptr) && fresh(c.tkn) && fresh(c.idx)
      invariant forall i :: 0 <= i < |cs| ==> Blank(cs[i])
    {
      var c := NewCache();
      cs := cs + [c];
    }
  }

  method NewCache() returns (c: SegCache)
    ensures Blank(c) && fresh(c) && fresh(c.ptr) && fresh(c.tkn) && fresh(c.idx)
  {
    c := new SegCache();
  }

  /**
   A process with n threads, from its start: a sequence of operations under a loader that only adds segments. The run
   goes on to the end unless the limit is exceeded or a call fails for a segment that has an index.
   */
  method Run(primary: Seg, first: seq<Seg>, enforce: bool, n: nat, ops: seq<Op>, loads: seq<seq<Seg>>, max: nat)
      returns (replies: seq<Reply>, ghost moments: seq<Moment>)
    requires |loads| == |ops| && Chain(first, loads) && forall k :: 0 <= k < |ops| ==> OpOk(ops[k], n)
    ensures |replies| <= |ops| && |moments| == |replies| + 1
    ensures moments[0] == Moment(Table(first, 1, map[], 0), enforce, seq(n, _ => EMPTY))
    ensures forall k :: 0 <= k < |replies| ==>
              StepOk(primary, moments[k], ops[k], loads[k], max, replies[k], moments[k + 1])
    ensures |replies| < |ops| ==> Ends(moments[|replies|].t, ops[|replies|], max)
  {
    hide Steady, Fits, StepOk, Ends, Grows, MapOk, OpOk, Pristine, AllFit, Apart, ViewOf, Blank;
    assert Pristine(first);
    var pr := new Process(primary, first, enforce);
    var cs := NewCaches(n);
    BlankFits(cs);
    GrowsSame(first, first, first);
    replies, moments := [], [Now(pr, cs)];
    for k := 0 to |ops|
      invariant |replies| == k && |moments| == k + 1 && moments[k] == Now(pr, cs)
      invariant pr.primary == primary && fresh(pr) && fresh(cs)
      invariant forall c :: c in cs ==> fresh(c.ptr) && fresh(c.tkn) && fresh(c.idx)
      invariant Steady(pr.T()) && AllFit(cs, pr.segs, pr.epoch)
      invariant Grows(pr.segs, if k == 0 then first else loads[k - 1])
      invariant moments[0] == Moment(Table(first, 1, map[], 0), enforce, seq(n, _ => EMPTY))
      invariant forall i :: 0 <= i < k ==>
                  StepOk(primary, moments[i], ops[i], loads[i], max, replies[i], moments[i + 1])
    {
      assert OpOk(ops[k], n);
      if Ends(pr.T(), ops[k], max) { return; }
      GrowsOn(pr.segs, if k == 0 then first else loads[k - 1], loads[k]);
      var reply := Step(pr, cs, ops[k], loads[k], max);
      replies, moments := replies + [reply], moments + [Now(pr, cs)];
    }
  }
}
