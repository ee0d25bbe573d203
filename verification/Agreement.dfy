/**
 Runs of collective verification: every rank takes part in the same calls in the same order, while its
 own segment map grows at any time, and however far each rank has got, an index names one segment.
 */
module Agreement {
  import opened Segments
  import opened SegmentTable
  import opened Verification

  /** A collective call, by what the ranks contribute: the hash each named, or the hashes each had loaded. */
  datatype Call = One(hs: seq<Ident>) | All(lists: seq<seq<Ident>>)

  ghost predicate Loaded(lists: seq<seq<Ident>>, d: Ident) { forall r :: 0 <= r < |lists| ==> d in lists[r] }

  /** reduce_all with op_fast_bit_and over the ranks' checklists, for the list of rank 0. */
  ghost function Checks(lists: seq<seq<Ident>>): (c: seq<bool>)
    requires |lists| > 0
    ensures |c| == |lists[0]| && forall i :: 0 <= i < |c| ==> (c[i] <==> Loaded(lists, lists[0][i]))
  {
    seq(|lists[0]|, i requires 0 <= i < |lists[0]| => Loaded(lists, lists[0][i]))
  }

  /** The hash all ranks named, if there is one. */
  ghost function Reduced(hs: seq<Ident>): Ident {
    if |hs| > 0 && AllEqual(hs, hs[0]) then hs[0] else NO_IDENT
  }

  /** It is what the reduction yields, whatever its tree. */
  lemma ReducedByTree(t: Tree, hs: seq<Ident>)
    requires Leaves(t) == hs
    ensures Reduce(t) == Reduced(hs)
  {
    ReduceAgrees(t, Reduce(t));
    ReduceAgrees(t, Reduced(hs));
    assert hs[0] == Leaves(t)[0];
  }

  /** The indices a call hands out, given those handed out before. */
  ghost predicate Grants(c: Call, g: seq<Ident>, g': seq<Ident>) {
    match c
    case One(hs) => g' == if Reduced(hs) != NO_IDENT && Reduced(hs) !in g then [Reduced(hs)] else []
    case All(lists) => |lists| > 0 && Increasing(g') && forall d :: d in g' <==> d !in g && Loaded(lists, d)
  }

  lemma IncreasingHead(a: seq<Ident>, b: seq<Ident>)
    requires Increasing(a) && Increasing(b) && (forall d :: d in a <==> d in b) && a != [] && b != []
    ensures a[0] == b[0]
  {
    assert a[0] in b && b[0] in a;
    var i :| 0 <= i < |b| && b[i] == a[0];
    var j :| 0 <= j < |a| && a[j] == b[0];
  }

  lemma {:induction false} SubsetLength(a: seq<Ident>, b: seq<Ident>)
    requires Increasing(a) && Increasing(b) && forall d :: d in a ==> d in b
    ensures |a| <= |b|
  {
    if a != [] {
      assert a[0] in b;
      var i :| 0 <= i < |b| && b[i] == a[0];
      forall d | d in a[1..]
        ensures d in b[i + 1..]
      {
        var j :| 0 <= j < |a[1..]| && a[1..][j] == d;
        assert a[j + 1] in b;
        var k :| 0 <= k < |b| && b[k] == d;
        assert a[0] < d && i < k;
        assert b[i + 1..][k - i - 1] == d;
      }
      SubsetLength(a[1..], b[i + 1..]);
    }
  }

  lemma {:induction false} IncreasingUnique(a: seq<Ident>, b: seq<Ident>)
    requires Increasing(a) && Increasing(b) && forall d :: d in a <==> d in b
    ensures a == b
    decreases |a|
  {
    SubsetLength(a, b);
    SubsetLength(b, a);
    if a != [] {
      IncreasingHead(a, b);
      var x := a[0];
      assert forall d :: d in a[1..] <==> d in a && d != x;
      assert forall d :: d in b[1..] <==> d in b && d != x;
      IncreasingUnique(a[1..], b[1..]);
      assert a == [x] + a[1..] && b == [x] + b[1..];
    }
  }

  /** What a call hands out does not depend on who computes it. */
  lemma GrantsUnique(c: Call, g: seq<Ident>, g1: seq<Ident>, g2: seq<Ident>)
    requires Grants(c, g, g1) && Grants(c, g, g2)
    ensures g1 == g2
  {
    if c.All? { IncreasingUnique(g1, g2); }
  }

  // ----- one rank joins a call -----

  ghost function Joined(t: Table, c: Call, r: nat, max: nat): (Table, Verdict)
    requires c.One? ==> r < |c.hs|
    requires c.All? ==> |c.lists| > 0
  {
    match c
    case One(hs) => JudgeSegment(t, hs[r], Reduced(hs), max)
    case All(lists) => JudgeAll(t, lists[0], Checks(lists), max)
  }

  /** What a rank brought to a call is in its map. */
  ghost predicate Honest(t: Table, c: Call, r: nat) {
    match c
    case One(hs) => r < |hs| && (hs[r] != NO_IDENT ==> Has(t.segs, hs[r]))
    case All(lists) => r < |lists| && forall d :: d in lists[r] ==> Has(t.segs, d)
  }

  /** A verify_segment call that fails names no numbered segment here; verify_all is told of all numbered ones. */
  ghost predicate Covering(c: Call, g: seq<Ident>, r: nat) {
    match c
    case One(hs) => r < |hs| && (Reduced(hs) == NO_IDENT ==> hs[r] !in g)
    case All(lists) => forall d :: d in g ==> Loaded(lists, d)
  }

  /** The call fails, and the segment this rank named has an index already. */
  ghost predicate Misnamed(t: Table, c: Call, r: nat) {
    c.One? && r < |c.hs| && Reduced(c.hs) == NO_IDENT
    && exists k :: 0 <= k < |t.segs| && t.segs[k].ident == c.hs[r] && t.segs[k].idx > 0
  }

  /** All ranks named the same segment. */
  ghost predicate AllNamed(hs: seq<Ident>, d: Ident) {
    d != NO_IDENT && |hs| > 0 && forall r :: 0 <= r < |hs| ==> hs[r] == d
  }

  /**
   What a call answers, given the numbers handed out before: verify_segment fails unless all ranks named the same
   segment, and either call gives up when the segments it would number exceed the limit.
   */
  ghost predicate VerdictIs(c: Call, g: seq<Ident>, max: nat, v: Verdict) {
    match c
    case One(hs) =>
      && (v == NotOnAllRanks <==> forall d :: !AllNamed(hs, d))
      && (v == LimitExceeded <==> exists d :: AllNamed(hs, d) && d !in g && |g| + 1 > max)
    case All(lists) =>
      exists g' :: Grants(c, g, g') && v == if |g| + 1 + |g'| > max then LimitExceeded else Verified
  }

  lemma OneVerdict(c: Call, g: seq<Ident>, max: nat, v1: Verdict, v2: Verdict)
    requires VerdictIs(c, g, max, v1) && VerdictIs(c, g, max, v2)
    ensures v1 == v2
  {
    if c.All? {
      var g1 :| Grants(c, g, g1) && v1 == if |g| + 1 + |g1| > max then LimitExceeded else Verified;
      var g2 :| Grants(c, g, g2) && v2 == if |g| + 1 + |g2| > max then LimitExceeded else Verified;
      GrantsUnique(c, g, g1, g2);
    }
  }

  lemma RebuildKeeps(t: Table, g: seq<Ident>, news: seq<Seg>)
    requires TableOk(t, g) && Pristine(news) && AllGood(news) && Grows(t.segs, news)
    ensures TableOk(t.(segs := Rebuilt(t.segs, news)), g)
  {
    hide Rebuilt;
    var olds, segs := t.segs, Rebuilt(t.segs, news);
    RebuiltOk(olds, news);
    RebuiltLength(olds, news);
    forall i: nat
      ensures SlotOk(segs, t.starts, g, i)
    {
      assert SlotOk(t.segs, t.starts, g, i);
      if i < |g| {
        var k :| 0 <= k < |olds| && olds[k].ident == g[i] && olds[k].start == t.starts[i + 1];
        var m := RebuiltKeeps(olds, news, k);
        assert segs[m].ident == g[i];
      }
    }
    forall k | 0 <= k < |segs|
      ensures segs[k].verified <==> segs[k].idx > 0
      ensures SegNumbered(segs[k], g)
    {
      RebuiltAt(olds, news, k);
      if o :| 0 <= o < |olds| && olds[o].ident == segs[k].ident {
        assert SegNumbered(olds[o], g) && segs[k] == olds[o];
      } else {
        assert segs[k] == news[k];
        forall i: nat | i < |g| ensures g[i] != segs[k].ident { assert SlotOk(t.segs, t.starts, g, i); }
      }
    }
  }

  lemma RebuiltHas(olds: seq<Seg>, news: seq<Seg>)
    requires MapOk(olds) && Pristine(news) && Grows(olds, news)
    ensures forall d :: Has(olds, d) ==> Has(Rebuilt(olds, news), d)
  {
    forall d | Has(olds, d)
      ensures Has(Rebuilt(olds, news), d)
    {
      var k :| 0 <= k < |olds| && olds[k].ident == d;
      var m := RebuiltKeeps(olds, news, k);
      assert Rebuilt(olds, news)[m].ident == d;
    }
  }

  lemma RebuiltLength(olds: seq<Seg>, news: seq<Seg>)
    ensures |Rebuilt(olds, news)| == |news|
  {}

  /** Every numbered segment is in the map. */
  lemma NumberedHas(t: Table, g: seq<Ident>)
    requires TableOk(t, g)
    ensures forall d :: d in g ==> Has(t.segs, d) && d != NO_IDENT
  {
    forall d | d in g
      ensures Has(t.segs, d) && d != NO_IDENT
    {
      var i :| 0 <= i < |g| && g[i] == d;
      assert SlotOk(t.segs, t.starts, g, i);
    }
  }

  lemma TableCount(t: Table, g: seq<Ident>)
    requires TableOk(t, g)
    ensures t.count == |g| + 1
  {}

  lemma OneSays(hs: seq<Ident>, g: seq<Ident>, max: nat, has: bool, r: nat, v: Verdict)
    requires r < |hs| && (hs[r] != NO_IDENT ==> has)
    requires v == NotOnAllRanks <==> Reduced(hs) == NO_IDENT || !has
    requires v == LimitExceeded <==> Reduced(hs) != NO_IDENT && has && hs[r] !in g && |g| + 1 > max
    ensures VerdictIs(One(hs), g, max, v)
  {
    if Reduced(hs) != NO_IDENT { assert AllNamed(hs, hs[0]); }
    assert forall d :: AllNamed(hs, d) ==> hs[0] == d == hs[r] && Reduced(hs) == d;
  }

  lemma AllSays(lists: seq<seq<Ident>>, g: seq<Ident>, max: nat, g': seq<Ident>, v: Verdict)
    requires Grants(All(lists), g, g') && v == if |g| + 1 + |g'| > max then LimitExceeded else Verified
    ensures VerdictIs(All(lists), g, max, v)
  {}

  /** Rank r joins a call: what it answers, and the numbers it hands out. */
  lemma JoinGrants(t: Table, g: seq<Ident>, c: Call, r: nat, max: nat) returns (g': seq<Ident>)
    requires TableOk(t, g) && Honest(t, c, r) && (c.All? ==> Covering(c, g, r))
    ensures VerdictIs(c, g, max, Joined(t, c, r, max).1) && Grants(c, g, g')
    ensures Joined(t, c, r, max).1 != LimitExceeded && Covering(c, g, r) ==>
              TableOk(Joined(t, c, r, max).0, g + g') && SameRanges(t.segs, Joined(t, c, r, max).0.segs)
  {
    hide TableOk, JudgeSegment, JudgeAll, VerdictIs;
    NumberedHas(t, g);
    match c
    case One(hs) =>
      JudgeSegmentOk(t, g, hs[r], Reduced(hs), max);
      OneSays(hs, g, max, Has(t.segs, hs[r]), r, JudgeSegment(t, hs[r], Reduced(hs), max).1);
      g' := if Reduced(hs) != NO_IDENT && Reduced(hs) !in g then [Reduced(hs)] else [];
      assert g + [] == g;
    case All(lists) =>
      var hashes, checks := lists[0], Checks(lists);
      forall d
        ensures Approved(hashes, checks, d) <==> Loaded(lists, d)
      {
        if Loaded(lists, d) { assert d in lists[0]; }
      }
      forall i | 0 <= i < |hashes| && checks[i]
        ensures Has(t.segs, hashes[i])
      {
        assert hashes[i] in lists[r];
      }
      g' := JudgeAllOk(t, g, hashes, checks, max);
      TableCount(t, g);
      AllSays(lists, g, max, g', JudgeAll(t, hashes, checks, max).1);
  }

  // ----- all ranks -----

  /** The calls of the program: verify_segment, for which each rank names a segment by its hash, and verify_all. */
  datatype Request = VerifySegment(ds: seq<Ident>) | VerifyAll

  ghost function NameOf(q: Request, r: nat): Ident
    requires q.VerifySegment?
  {
    if r < |q.ds| then q.ds[r] else NO_IDENT
  }

  datatype Offer = Named(h: Ident) | Listing(ids: seq<Ident>)

  /** A rank: its tables, the calls it has completed, and what it brought to the calls it has entered. */
  datatype Rank = Rank(t: Table, done: nat, offers: seq<Offer>)

  type System = seq<Rank>

  datatype Event = Load(r: nat, news: seq<Seg>) | Enter(r: nat) | Join(r: nat)

  function MapIdents(segs: seq<Seg>): (ids: seq<Ident>)
    ensures |ids| == |segs| && forall i :: 0 <= i < |segs| ==> ids[i] == segs[i].ident
  {
    seq(|segs|, i requires 0 <= i < |segs| => segs[i].ident)
  }

  /** The first half of either call: the hash of the segment named, if it is loaded, or all hashes loaded. */
  ghost function OfferOf(t: Table, q: Request, r: nat): Offer {
    match q
    case VerifySegment(_) => Named(if Has(t.segs, NameOf(q, r)) then NameOf(q, r) else NO_IDENT)
    case VerifyAll => Listing(MapIdents(t.segs))
  }

  ghost predicate AllOffered(s: System, n: nat) { forall r :: 0 <= r < |s| ==> n < |s[r].offers| }

  ghost function HashAt(s: System, n: nat, r: nat): Ident
    requires r < |s| && n < |s[r].offers|
  {
    if s[r].offers[n].Named? then s[r].offers[n].h else NO_IDENT
  }

  ghost function ListAt(s: System, n: nat, r: nat): seq<Ident>
    requires r < |s| && n < |s[r].offers|
  {
    if s[r].offers[n].Listing? then s[r].offers[n].ids else []
  }

  ghost function CallAt(s: System, qs: seq<Request>, n: nat): Call
    requires n < |qs| && AllOffered(s, n)
  {
    match qs[n]
    case VerifySegment(_) => One(seq(|s|, r requires 0 <= r < |s| => HashAt(s, n, r)))
    case VerifyAll => All(seq(|s|, r requires 0 <= r < |s| => ListAt(s, n, r)))
  }

  ghost predicate EventOk(s: System, qs: seq<Request>, max: nat, e: Event) {
    e.r < |s| && var k := s[e.r];
    match e
    case Load(r, news) => Pristine(news) && AllGood(news) && Grows(k.t.segs, news)
    case Enter(r) => k.done == |k.offers| < |qs|
    case Join(r) =>
      && k.done < |k.offers| && k.done < |qs| && AllOffered(s, k.done)
      && Joined(k.t, CallAt(s, qs, k.done), r, max).1 != LimitExceeded
      && !Misnamed(k.t, CallAt(s, qs, k.done), r)
  }

  ghost function After(s: System, qs: seq<Request>, max: nat, e: Event): System
    requires EventOk(s, qs, max, e)
  {
    var k := s[e.r];
    match e
    case Load(r, news) => s[r := k.(t := k.t.(segs := Rebuilt(k.t.segs, news)))]
    case Enter(r) => s[r := k.(offers := k.offers + [OfferOf(k.t, qs[k.done], r)])]
    case Join(r) => s[r := k.(t := Joined(k.t, CallAt(s, qs, k.done), r, max).0, done := k.done + 1)]
  }

  ghost predicate Possible(s: System, qs: seq<Request>, max: nat, es: seq<Event>)
    decreases |es|
  {
    es == [] || (EventOk(s, qs, max, es[0]) && Possible(After(s, qs, max, es[0]), qs, max, es[1..]))
  }

  ghost function Reached(s: System, qs: seq<Request>, max: nat, es: seq<Event>): System
    requires Possible(s, qs, max, es)
    decreases |es|
  {
    if es == [] then s else Reached(After(s, qs, max, es[0]), qs, max, es[1..])
  }

  // ----- the invariant -----

  ghost predicate Progress(s: System, qs: seq<Request>) {
    forall r :: 0 <= r < |s| ==>
      && s[r].done <= |s[r].offers| <= s[r].done + 1 && |s[r].offers| <= |qs|
      && forall n :: 0 <= n < s[r].done ==> AllOffered(s, n)
  }

  /** What a rank brought to call n, after the numbers g. */
  ghost predicate OfferOk(t: Table, o: Offer, q: Request, g: seq<Ident>, r: nat) {
    match q
    case VerifySegment(_) =>
      && o.Named? && (o.h == NameOf(q, r) || o.h == NO_IDENT) && (o.h != NO_IDENT ==> Has(t.segs, o.h))
      && (NameOf(q, r) in g ==> o.h == NameOf(q, r))
    case VerifyAll => o.Listing? && (forall d :: d in o.ids ==> Has(t.segs, d)) && forall d :: d in g ==> d in o.ids
  }

  ghost predicate RankOk(s: System, qs: seq<Request>, r: nat, gs: seq<seq<Ident>>)
    requires r < |s|
  {
    s[r].done < |gs| && |s[r].offers| <= |gs| && |s[r].offers| <= |qs| && TableOk(s[r].t, gs[s[r].done])
    && forall n :: 0 <= n < |s[r].offers| ==> OfferOk(s[r].t, s[r].offers[n], qs[n], gs[n], r)
  }

  /** gs[n] are the numbers handed out by the first n calls, for as many calls as all ranks have entered. */
  ghost predicate History(s: System, qs: seq<Request>, gs: seq<seq<Ident>>) {
    && gs != [] && gs[0] == [] && |gs| <= |qs| + 1
    && forall n :: 0 <= n < |gs| - 1 ==>
         AllOffered(s, n) && gs[n] <= gs[n + 1] && Grants(CallAt(s, qs, n), gs[n], gs[n + 1][|gs[n]|..])
  }

  ghost predicate SysOk(s: System, qs: seq<Request>, gs: seq<seq<Ident>>) {
    Progress(s, qs) && History(s, qs, gs) && forall r :: 0 <= r < |s| ==> RankOk(s, qs, r, gs)
  }

  // ----- every event keeps it -----

  lemma OfferKept(t: Table, t': Table, o: Offer, q: Request, g: seq<Ident>, r: nat)
    requires OfferOk(t, o, q, g, r) && forall d :: Has(t.segs, d) ==> Has(t'.segs, d)
    ensures OfferOk(t', o, q, g, r)
  {}

  /** Calls that all ranks had entered stay as they were. */
  lemma SameCall(s: System, s': System, qs: seq<Request>, n: nat)
    requires |s'| == |s| && n < |qs| && AllOffered(s, n) && AllOffered(s', n)
    requires forall r :: 0 <= r < |s| ==> s'[r].offers[n] == s[r].offers[n]
    ensures CallAt(s', qs, n) == CallAt(s, qs, n)
  {
    match qs[n]
    case VerifySegment(_) => assert CallAt(s', qs, n).hs == CallAt(s, qs, n).hs;
    case VerifyAll => assert CallAt(s', qs, n).lists == CallAt(s, qs, n).lists;
  }

  lemma SameHistory(s: System, s': System, qs: seq<Request>, gs: seq<seq<Ident>>)
    requires History(s, qs, gs) && |s'| == |s|
    requires forall r :: 0 <= r < |s| ==> s[r].offers <= s'[r].offers
    ensures History(s', qs, gs)
  {
    hide CallAt, Grants;
    forall n | 0 <= n < |gs| - 1
      ensures AllOffered(s', n) && gs[n] <= gs[n + 1] && Grants(CallAt(s', qs, n), gs[n], gs[n + 1][|gs[n]|..])
    {
      assert AllOffered(s, n);
      forall r | 0 <= r < |s|
        ensures n < |s'[r].offers| && s'[r].offers[n] == s[r].offers[n]
      {
        assert s[r].offers <= s'[r].offers;
      }
      SameCall(s, s', qs, n);
    }
  }

  lemma LoadKeeps(s: System, qs: seq<Request>, max: nat, gs: seq<seq<Ident>>, r: nat, news: seq<Seg>)
    requires SysOk(s, qs, gs) && EventOk(s, qs, max, Load(r, news))
    ensures SysOk(After(s, qs, max, Load(r, news)), qs, gs)
  {
    hide TableOk, OfferOk, Rebuilt, History, CallAt;
    var s' := After(s, qs, max, Load(r, news));
    var k := s[r];
    assert RankOk(s, qs, r, gs);
    TableMap(k.t, gs[k.done]);
    RebuildKeeps(k.t, gs[k.done], news);
    RebuiltHas(k.t.segs, news);
    SameHistory(s, s', qs, gs);
    assert Progress(s', qs) by { SameProgress(s, s', qs); }
    forall i | 0 <= i < |s'|
      ensures RankOk(s', qs, i, gs)
    {
      assert RankOk(s, qs, i, gs);
      if i == r {
        forall n | 0 <= n < |k.offers|
          ensures OfferOk(s'[r].t, k.offers[n], qs[n], gs[n], r)
        {
          OfferKept(k.t, s'[r].t, k.offers[n], qs[n], gs[n], r);
        }
      }
    }
  }

  lemma TableMap(t: Table, g: seq<Ident>)
    requires TableOk(t, g)
    ensures MapOk(t.segs)
  {}

  lemma SameProgress(s: System, s': System, qs: seq<Request>)
    requires Progress(s, qs) && |s'| == |s|
    requires forall r :: 0 <= r < |s| ==> s'[r].offers == s[r].offers && s'[r].done == s[r].done
    ensures Progress(s', qs)
  {
    forall r, n | 0 <= r < |s'| && 0 <= n < s'[r].done ensures AllOffered(s', n) { assert AllOffered(s, n); }
  }

  lemma EnterKeeps(s: System, qs: seq<Request>, max: nat, gs: seq<seq<Ident>>, r: nat)
    requires SysOk(s, qs, gs) && EventOk(s, qs, max, Enter(r))
    ensures SysOk(After(s, qs, max, Enter(r)), qs, gs)
  {
    hide TableOk, OfferOk, OfferOf, History, CallAt;
    var s' := After(s, qs, max, Enter(r));
    var k := s[r];
    assert RankOk(s, qs, r, gs);
    OfferIsOk(k.t, qs[k.done], r, gs[k.done]);
    SameHistory(s, s', qs, gs);
    forall i | 0 <= i < |s'|
      ensures RankOk(s', qs, i, gs)
    {
      assert RankOk(s, qs, i, gs);
    }
    forall i, n | 0 <= i < |s'| && 0 <= n < s'[i].done
      ensures AllOffered(s', n)
    {
      assert AllOffered(s, n);
    }
  }

  lemma OfferIsOk(t: Table, q: Request, r: nat, g: seq<Ident>)
    requires TableOk(t, g)
    ensures OfferOk(t, OfferOf(t, q, r), q, g, r)
  {
    hide Numbered;
    NumberedHas(t, g);
    TableMap(t, g);
    if q.VerifyAll? {
      var ids := MapIdents(t.segs);
      forall d | d in ids
        ensures Has(t.segs, d)
      {
        var i :| 0 <= i < |ids| && ids[i] == d;
        assert t.segs[i].ident == d;
      }
      forall d | d in g
        ensures d in ids
      {
        var i :| 0 <= i < |t.segs| && t.segs[i].ident == d;
        assert ids[i] == d;
      }
    }
  }

  /** All ranks brought what they had: the call covers everything numbered before it. */
  lemma CallCovers(s: System, qs: seq<Request>, gs: seq<seq<Ident>>, r: nat)
    requires SysOk(s, qs, gs) && r < |s| && s[r].done < |qs| && AllOffered(s, s[r].done)
    ensures s[r].done < |gs| && Honest(s[r].t, CallAt(s, qs, s[r].done), r)
    ensures !Misnamed(s[r].t, CallAt(s, qs, s[r].done), r) ==> Covering(CallAt(s, qs, s[r].done), gs[s[r].done], r)
  {
    hide TableOk, History;
    var n := s[r].done;
    assert RankOk(s, qs, r, gs);
    forall i | 0 <= i < |s|
      ensures OfferOk(s[i].t, s[i].offers[n], qs[n], gs[n], i)
    {
      assert RankOk(s, qs, i, gs);
    }
    var c := CallAt(s, qs, n);
    NumberedHas(s[r].t, gs[n]);
    if c.One? {
      assert forall i :: 0 <= i < |s| ==> c.hs[i] == s[i].offers[n].h;
      if c.hs[r] in gs[n] { var k := NumberedAt(s[r].t, gs[n], c.hs[r]); }
    } else {
      assert forall i :: 0 <= i < |s| ==> c.lists[i] == s[i].offers[n].ids;
    }
  }

  lemma NumberedAt(t: Table, g: seq<Ident>, d: Ident) returns (k: nat)
    requires TableOk(t, g) && d in g
    ensures k < |t.segs| && t.segs[k].ident == d && t.segs[k].idx > 0
  {
    NumberedHas(t, g);
    k :| 0 <= k < |t.segs| && t.segs[k].ident == d;
    VerifiedIffNumbered(t, g, k);
  }

  /** A call for which all ranks name the same segment is never misnamed, whether they have it loaded or not. */
  lemma OneNameIsEnough(s: System, qs: seq<Request>, gs: seq<seq<Ident>>, r: nat, d: Ident)
    requires SysOk(s, qs, gs) && r < |s| && s[r].done < |qs| && AllOffered(s, s[r].done)
    requires qs[s[r].done].VerifySegment? && AllEqual(qs[s[r].done].ds, d) && |qs[s[r].done].ds| == |s|
    ensures !Misnamed(s[r].t, CallAt(s, qs, s[r].done), r)
  {
    hide TableOk, History;
    var n := s[r].done;
    var c := CallAt(s, qs, n);
    if Misnamed(s[r].t, c, r) {
      assert RankOk(s, qs, r, gs);
      NumberedHas(s[r].t, gs[n]);
      var k :| 0 <= k < |s[r].t.segs| && s[r].t.segs[k].ident == c.hs[r] && s[r].t.segs[k].idx > 0;
      IndexedIsNumbered(s[r].t, gs[n], k);
      forall i | 0 <= i < |s|
        ensures c.hs[i] == d && d != NO_IDENT
      {
        assert RankOk(s, qs, i, gs);
        assert OfferOk(s[i].t, s[i].offers[n], qs[n], gs[n], i) && OfferOk(s[r].t, s[r].offers[n], qs[n], gs[n], r);
      }
      assert false;
    }
  }

  lemma IndexedIsNumbered(t: Table, g: seq<Ident>, k: nat)
    requires TableOk(t, g) && k < |t.segs| && t.segs[k].idx > 0
    ensures t.segs[k].ident in g
  {
    assert SegNumbered(t.segs[k], g);
  }

  lemma JoinKeeps(s: System, qs: seq<Request>, max: nat, gs: seq<seq<Ident>>, r: nat) returns (gs': seq<seq<Ident>>)
    requires SysOk(s, qs, gs) && EventOk(s, qs, max, Join(r))
    ensures gs <= gs' && SysOk(After(s, qs, max, Join(r)), qs, gs')
  {
    hide TableOk, OfferOk, CallAt, Joined, Grants, Covering, Honest;
    var k, n := s[r], s[r].done;
    var c := CallAt(s, qs, n);
    assert RankOk(s, qs, r, gs);
    CallCovers(s, qs, gs, r);
    var g' := JoinGrants(k.t, gs[n], c, r, max);
    gs' := NextHistory(s, qs, gs, n, g');
    var s' := After(s, qs, max, Join(r));
    SameHistory(s, s', qs, gs');
    SameHas(k.t.segs, s'[r].t.segs);
    forall i | 0 <= i < |s'|
      ensures RankOk(s', qs, i, gs')
    {
      assert RankOk(s, qs, i, gs);
      if i == r {
        forall m | 0 <= m < |k.offers|
          ensures OfferOk(s'[r].t, k.offers[m], qs[m], gs'[m], r)
        {
          OfferKept(k.t, s'[r].t, k.offers[m], qs[m], gs[m], r);
        }
      }
    }
    forall i, m | 0 <= i < |s'| && 0 <= m < s'[i].done
      ensures AllOffered(s', m)
    {
      assert AllOffered(s, m);
    }
  }

  lemma NextHistory(s: System, qs: seq<Request>, gs: seq<seq<Ident>>, n: nat, g': seq<Ident>)
      returns (gs': seq<seq<Ident>>)
    requires History(s, qs, gs) && n < |gs| && n < |qs| && AllOffered(s, n) && Grants(CallAt(s, qs, n), gs[n], g')
    ensures gs <= gs' && History(s, qs, gs') && n + 1 < |gs'| && gs'[n + 1] == gs[n] + g'
  {
    if n + 1 < |gs| {
      gs' := gs;
      GrantsUnique(CallAt(s, qs, n), gs[n], g', gs[n + 1][|gs[n]|..]);
    } else {
      gs' := gs + [gs[n] + g'];
      assert (gs[n] + g')[|gs[n]|..] == g';
    }
  }

  lemma {:induction false} RunKeeps(s: System, qs: seq<Request>, max: nat, es: seq<Event>, gs: seq<seq<Ident>>)
      returns (gs': seq<seq<Ident>>)
    requires SysOk(s, qs, gs) && Possible(s, qs, max, es)
    ensures gs <= gs' && SysOk(Reached(s, qs, max, es), qs, gs')
    decreases |es|
  {
    hide SysOk;
    gs' := gs;
    if es != [] {
      match es[0] {
        case Load(r, news) => LoadKeeps(s, qs, max, gs, r, news);
        case Enter(r) => EnterKeeps(s, qs, max, gs, r);
        case Join(r) => gs' := JoinKeeps(s, qs, max, gs, r);
      }
      gs' := RunKeeps(After(s, qs, max, es[0]), qs, max, es[1..], gs');
    }
  }

  // ----- the theorem -----

  /** Processes that have just started: nothing numbered, nothing verified. */
  ghost predicate Fresh(k: Rank) {
    && k.done == 0 && k.offers == [] && MapOk(k.t.segs) && k.t.count == 1 && k.t.starts == map[]
    && AllGood(k.t.segs) && forall i :: 0 <= i < |k.t.segs| ==> k.t.segs[i].idx == 0 && !k.t.segs[i].verified
  }

  lemma FreshOk(s: System, qs: seq<Request>)
    requires forall r :: 0 <= r < |s| ==> Fresh(s[r])
    ensures SysOk(s, qs, [[]])
  {
    forall r | 0 <= r < |s|
      ensures RankOk(s, qs, r, [[]])
    {
      assert TableOk(s[r].t, []);
    }
  }

  /** The hash with index i on some rank is the hash with index i on every rank. */
  ghost predicate Agree(t1: Table, t2: Table) {
    forall i, j :: 0 <= i < |t1.segs| && 0 <= j < |t2.segs| && t1.segs[i].idx == t2.segs[j].idx > 0 ==>
      t1.segs[i].ident == t2.segs[j].ident
  }

  lemma AgreeUpTo(t1: Table, g: seq<Ident>, t2: Table, h: seq<Ident>)
    requires TableOk(t1, g) && TableOk(t2, h) && g <= h
    ensures Agree(t1, t2) && Agree(t2, t1)
  {}

  lemma {:induction false} HistoryGrows(s: System, qs: seq<Request>, gs: seq<seq<Ident>>, m: nat, n: nat)
    requires History(s, qs, gs) && m <= n < |gs|
    ensures gs[m] <= gs[n]
    decreases n
  {
    if m < n { HistoryGrows(s, qs, gs, m, n - 1); }
  }

  /**
   Over any run of verify_segment and verify_all calls, while maps are rebuilt and ranks run ahead of
   each other, an index names the same segment on every rank that has it.
   */
  lemma IndicesAgree(s: System, qs: seq<Request>, max: nat, es: seq<Event>, r1: nat, r2: nat)
    requires (forall r :: 0 <= r < |s| ==> Fresh(s[r])) && Possible(s, qs, max, es) && r1 < |s| && r2 < |s|
    ensures |Reached(s, qs, max, es)| == |s|
    ensures Agree(Reached(s, qs, max, es)[r1].t, Reached(s, qs, max, es)[r2].t)
  {
    hide TableOk, Agree;
    FreshOk(s, qs);
    var gs := RunKeeps(s, qs, max, es, [[]]);
    SameSize(s, qs, max, es);
    var s' := Reached(s, qs, max, es);
    assert RankOk(s', qs, r1, gs) && RankOk(s', qs, r2, gs);
    var m, n := s'[r1].done, s'[r2].done;
    if m <= n {
      HistoryGrows(s', qs, gs, m, n);
      AgreeUpTo(s'[r1].t, gs[m], s'[r2].t, gs[n]);
    } else {
      HistoryGrows(s', qs, gs, n, m);
      AgreeUpTo(s'[r2].t, gs[n], s'[r1].t, gs[m]);
    }
  }

  lemma {:induction false} SameSize(s: System, qs: seq<Request>, max: nat, es: seq<Event>)
    requires Possible(s, qs, max, es)
    ensures |Reached(s, qs, max, es)| == |s|
    decreases |es|
  {
    if es != [] { SameSize(After(s, qs, max, es[0]), qs, max, es[1..]); }
  }

  /** What a rank brought to a call stays. */
  lemma {:induction false} OffersStay(s: System, qs: seq<Request>, max: nat, es: seq<Event>)
    requires Possible(s, qs, max, es)
    ensures |Reached(s, qs, max, es)| == |s|
    ensures forall r :: 0 <= r < |s| ==> s[r].offers <= Reached(s, qs, max, es)[r].offers
    decreases |es|
  {
    if es != [] {
      var s1 := After(s, qs, max, es[0]);
      OffersStay(s1, qs, max, es[1..]);
      forall r | 0 <= r < |s|
        ensures s[r].offers <= Reached(s, qs, max, es)[r].offers
      {
        assert s[r].offers <= s1[r].offers <= Reached(s1, qs, max, es[1..])[r].offers;
      }
    }
  }

  /** The answer rank r is about to get. */
  ghost function Answer(s: System, qs: seq<Request>, max: nat, r: nat): Verdict
    requires r < |s| && s[r].done < |qs| && AllOffered(s, s[r].done)
  {
    Joined(s[r].t, CallAt(s, qs, s[r].done), r, max).1
  }

  lemma AnswerIs(s: System, qs: seq<Request>, max: nat, gs: seq<seq<Ident>>, r: nat)
    requires SysOk(s, qs, gs) && r < |s| && s[r].done < |qs| && AllOffered(s, s[r].done)
    ensures s[r].done < |gs| && VerdictIs(CallAt(s, qs, s[r].done), gs[s[r].done], max, Answer(s, qs, max, r))
  {
    hide TableOk, OfferOk, CallAt, Joined, Grants, Covering, Honest, History, VerdictIs, Misnamed;
    assert RankOk(s, qs, r, gs);
    CallCovers(s, qs, gs, r);
    AllNotMisnamed(s[r].t, CallAt(s, qs, s[r].done), r);
    var g' := JoinGrants(s[r].t, gs[s[r].done], CallAt(s, qs, s[r].done), r, max);
  }

  lemma AllNotMisnamed(t: Table, c: Call, r: nat)
    ensures c.All? ==> !Misnamed(t, c, r)
  {}

  /** All ranks brought the same hash to call n. */
  ghost predicate AllBrought(s: System, n: nat, d: Ident)
    requires AllOffered(s, n)
  {
    d != NO_IDENT && forall r :: 0 <= r < |s| ==> HashAt(s, n, r) == d
  }

  /**
   A collective call answers the same on every rank, however far apart in time the ranks come to it: all succeed, all
   fail, or all give up at the limit. verify_segment fails exactly when the ranks did not all bring the same hash.
   */
  lemma AllSucceedOrAllFail(s: System, qs: seq<Request>, max: nat, es1: seq<Event>, es2: seq<Event>, r1: nat, r2: nat)
    requires (forall r :: 0 <= r < |s| ==> Fresh(s[r])) && Possible(s, qs, max, es1)
    requires Possible(Reached(s, qs, max, es1), qs, max, es2)
    requires var s1, s2 := Reached(s, qs, max, es1), Reached(Reached(s, qs, max, es1), qs, max, es2);
             && r1 < |s1| && r2 < |s2| && s1[r1].done == s2[r2].done < |qs|
             && AllOffered(s1, s1[r1].done) && AllOffered(s2, s2[r2].done)
    ensures var s1, s2 := Reached(s, qs, max, es1), Reached(Reached(s, qs, max, es1), qs, max, es2);
            && Answer(s1, qs, max, r1) == Answer(s2, qs, max, r2)
            && (Answer(s1, qs, max, r1) == NotOnAllRanks <==>
                qs[s1[r1].done].VerifySegment? && forall d :: !AllBrought(s1, s1[r1].done, d))
  {
    hide SysOk, Fresh, Possible, Reached, VerdictIs, Answer, CallAt, AllOffered;
    FreshOk(s, qs);
    var s1, s2 := Reached(s, qs, max, es1), Reached(Reached(s, qs, max, es1), qs, max, es2);
    var gs1 := RunKeeps(s, qs, max, es1, [[]]);
    var gs2 := RunKeeps(s1, qs, max, es2, gs1);
    OffersStay(s1, qs, max, es2);
    AnswerIs(s1, qs, max, gs1, r1);
    AnswerIs(s2, qs, max, gs2, r2);
    var n := s1[r1].done;
    assert gs2[n] == gs1[n];
    OfferedSame(s1, s2, n);
    SameCall(s1, s2, qs, n);
    OneVerdict(CallAt(s1, qs, n), gs1[n], max, Answer(s1, qs, max, r1), Answer(s2, qs, max, r2));
    FailsWhen(s1, qs, n, gs1[n], max, Answer(s1, qs, max, r1));
  }

  lemma OfferedSame(s: System, s': System, n: nat)
    requires |s'| == |s| && AllOffered(s, n) && forall r :: 0 <= r < |s| ==> s[r].offers <= s'[r].offers
    ensures forall r :: 0 <= r < |s| ==> n < |s'[r].offers| && s'[r].offers[n] == s[r].offers[n]
  {
    forall r | 0 <= r < |s|
      ensures n < |s'[r].offers| && s'[r].offers[n] == s[r].offers[n]
    {
      assert s[r].offers <= s'[r].offers;
    }
  }

  lemma FailsWhen(s: System, qs: seq<Request>, n: nat, g: seq<Ident>, max: nat, v: Verdict)
    requires |s| > 0 && n < |qs| && AllOffered(s, n) && VerdictIs(CallAt(s, qs, n), g, max, v)
    ensures v == NotOnAllRanks <==> qs[n].VerifySegment? && forall d :: !AllBrought(s, n, d)
  {
    hide Grants;
    var c := CallAt(s, qs, n);
    if qs[n].VerifySegment? {
      assert forall r :: 0 <= r < |s| ==> c.hs[r] == HashAt(s, n, r);
      forall d: Ident
        ensures AllNamed(c.hs, d) <==> AllBrought(s, n, d)
      {
        assert forall r :: 0 <= r < |s| ==> c.hs[r] == HashAt(s, n, r);
      }
    }
  }

  /** Ranks that completed the same calls have numbered the same segments, each in its own map. */
  lemma SameCallsSameNumbers(s: System, qs: seq<Request>, max: nat, es: seq<Event>, r1: nat, r2: nat)
      returns (g: seq<Ident>)
    requires (forall r :: 0 <= r < |s| ==> Fresh(s[r])) && Possible(s, qs, max, es) && r1 < |s| && r2 < |s|
    requires |Reached(s, qs, max, es)| == |s| && Reached(s, qs, max, es)[r1].done == Reached(s, qs, max, es)[r2].done
    ensures TableOk(Reached(s, qs, max, es)[r1].t, g) && TableOk(Reached(s, qs, max, es)[r2].t, g)
  {
    hide TableOk;
    FreshOk(s, qs);
    var gs := RunKeeps(s, qs, max, es, [[]]);
    var s' := Reached(s, qs, max, es);
    assert RankOk(s', qs, r1, gs) && RankOk(s', qs, r2, gs);
    g := gs[s'[r1].done];
  }

  /** In particular calls that name one segment for all ranks are always possible as far as naming goes. */
  lemma NeverMisnamed(s: System, qs: seq<Request>, max: nat, es: seq<Event>, r: nat, d: Ident)
    requires (forall i :: 0 <= i < |s| ==> Fresh(s[i])) && Possible(s, qs, max, es) && r < |Reached(s, qs, max, es)|
    requires var s' := Reached(s, qs, max, es);
             && s'[r].done < |qs| && AllOffered(s', s'[r].done) && qs[s'[r].done].VerifySegment?
             && |qs[s'[r].done].ds| == |s| && AllEqual(qs[s'[r].done].ds, d)
    ensures var s' := Reached(s, qs, max, es); !Misnamed(s'[r].t, CallAt(s', qs, s'[r].done), r)
  {
    hide SysOk, Misnamed, CallAt, AllOffered;
    FreshOk(s, qs);
    var gs := RunKeeps(s, qs, max, es, [[]]);
    SameSize(s, qs, max, es);
    OneNameIsEnough(Reached(s, qs, max, es), qs, gs, r, d);
  }
}
