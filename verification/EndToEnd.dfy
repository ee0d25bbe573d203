/**
 A function pointer from one rank to another: tokenized, sent, received, detokenized
 (src/ccs.hpp:238-278, 295-372, 398-402, src/global_fnptr.hpp:122-163).
 */
module EndToEnd {
  import opened Segments
  import opened SegmentTable
  import opened Verification
  import opened Tokens
  import opened Process
  import opened TokenWire
  import opened Agreement
  import TH = Threads

  /**
   Rank A tokenizes p inside its copy of a segment; rank B, which has numbered at least what A has and
   has the segment loaded at startB, detokenizes to the same place in its own copy.
   */
  lemma Relocates(primA: Seg, a: Table, ga: seq<Ident>, newsA: seq<Seg>, v: TH.View, k: nat, p: nat, enforce: bool,
                  token: Token, primB: Seg, b: Table, gb: seq<Ident>, newsB: seq<Seg>, startB: nat)
    requires TableOk(a, ga) && TableOk(b, gb) && ga <= gb
    requires Covers(a.segs, p, k) && !(primA.start <= p < primA.end)
    requires TH.Scanned(primA, a, newsA, v, p, enforce, Got(token)) && Encodable(token)
    requires HasStart(b.segs, a.segs[k].ident, startB)
    ensures Decode(Encode(token)) == Decoded(token, [])
    ensures forall r :: Detokenized(primB, b, newsB, token, r) <==> r == At(startB + (p - a.segs[k].start))
  {
    hide Encode, Decode, Rebuilt, BadNames, CacheFirst, Interior;
    RoundTrip(token, []);
    assert Encode(token) + [] == Encode(token);
    var s := a.segs[k];
    assert Known(a.segs, p) && !s.badSegment;
    if s.idx > 0 {
      var i := s.idx - 1;
      assert SegNumbered(s, ga) && ga[i] == s.ident && gb[i] == s.ident;
      assert SlotOk(b.segs, b.starts, gb, i);
      UniqueStart(b.segs, s.ident, startB, b.starts[i + 1]);
    } else {
      forall r | Detokenized(primB, b, newsB, token, r)
        ensures r == At(startB + (p - s.start))
      {
        UniqueStart(b.segs, s.ident, startB, r.addr - token.offset);
      }
    }
  }

  lemma UniqueStart(segs: seq<Seg>, d: Ident, s1: nat, s2: nat)
    requires MapOk(segs) && AllGood(segs) && HasStart(segs, d, s1) && HasStart(segs, d, s2)
    ensures s1 == s2
  {
    var i :| 0 <= i < |segs| && segs[i].ident == d && segs[i].start == s1;
    var k :| 0 <= k < |segs| && segs[k].ident == d && segs[k].start == s2;
    OwnHash(segs, i);
  }

  /** A pointer of the primary segment arrives at its offset in the primary segment of the other rank. */
  lemma RelocatesPrimary(primA: Seg, a: Table, newsA: seq<Seg>, v: TH.View, p: nat, enforce: bool, token: Token,
                         primB: Seg, b: Table, newsB: seq<Seg>, r: Address)
    requires primA.start <= p < primA.end && p - primA.start < MSB
    requires TH.Scanned(primA, a, newsA, v, p, enforce, Got(token))
    ensures Decode(Encode(token)) == Decoded(token, [])
    ensures Detokenized(primB, b, newsB, token, r) <==> r == At(primB.start + (p - primA.start))
  {
    hide Encode, Decode, Rebuilt, Answers;
    RoundTrip(token, []);
    assert Encode(token) + [] == Encode(token);
  }

  /**
   Over any run of collective calls and loads: what rank a tokenizes, rank b finds at the same place of its own copy of
   the segment, if b has completed at least the calls that a has and has the segment loaded.
   */
  lemma RelocatesInRun(s: System, qs: seq<Request>, max: nat, es: seq<Event>, a: nat, primA: Seg, newsA: seq<Seg>,
                       v: TH.View, k: nat, p: nat, enforce: bool, token: Token, b: nat, primB: Seg, newsB: seq<Seg>,
                       startB: nat)
    requires (forall r :: 0 <= r < |s| ==> Fresh(s[r])) && Possible(s, qs, max, es)
    requires var s' := Reached(s, qs, max, es);
             && a < |s'| && b < |s'| && s'[a].done <= s'[b].done
             && Covers(s'[a].t.segs, p, k) && !(primA.start <= p < primA.end)
             && TH.Scanned(primA, s'[a].t, newsA, v, p, enforce, Got(token)) && Encodable(token)
             && HasStart(s'[b].t.segs, s'[a].t.segs[k].ident, startB)
    ensures Decode(Encode(token)) == Decoded(token, [])
    ensures var s' := Reached(s, qs, max, es);
            forall r :: Detokenized(primB, s'[b].t, newsB, token, r) <==> r == At(startB + (p - s'[a].t.segs[k].start))
  {
    hide TableOk, Encode, Decode, Detokenized, Encodable, TH.Scanned;
    FreshOk(s, qs);
    var gs := RunKeeps(s, qs, max, es, [[]]);
    SameSize(s, qs, max, es);
    var s' := Reached(s, qs, max, es);
    assert RankOk(s', qs, a, gs) && RankOk(s', qs, b, gs);
    HistoryGrows(s', qs, gs, s'[a].done, s'[b].done);
    Relocates(primA, s'[a].t, gs[s'[a].done], newsA, v, k, p, enforce, token, primB, s'[b].t, gs[s'[b].done], newsB,
              startB);
  }
}
