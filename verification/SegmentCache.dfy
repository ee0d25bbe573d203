/**
 The per-thread cache of segments: three fixed arrays kept sorted, with eviction
 (src/ccs_fwd.hpp:246-276, src/ccs.hpp:140-167, 300-308, src/ccs.cpp:918-968).
 */
module SegmentCache {
  import opened Segments
  import opened Sorting

  const CAPACITY := 20

  datatype PtrEntry = PtrEntry(start: nat, end: nat, ident: Ident)
  datatype TknEntry = TknEntry(ident: Ident, start: nat)
  datatype IdxEntry = IdxEntry(start: nat, end: nat, idx: int)

  function PtrStart(e: PtrEntry): int { e.start }
  function TknIdent(e: TknEntry): int { e.ident }
  function IdxStart(e: IdxEntry): int { e.start }

  /** What the twin arrays share. */
  function PtrKey(e: PtrEntry): TknEntry { TknEntry(e.ident, e.start) }

  ghost predicate PtrListed(segs: seq<Seg>, s: seq<PtrEntry>) {
    forall i :: 0 <= i < |s| ==> Listed(segs, s[i].start, s[i].end, s[i].ident)
  }

  ghost predicate IdxListed(segs: seq<Seg>, s: seq<IdxEntry>) {
    forall i :: 0 <= i < |s| ==> Indexed(segs, s[i].start, s[i].end, s[i].idx)
  }

  /** The pointer cache and the token cache hold the same segments, one by address and one by hash. */
  ghost predicate Twins(ptr: seq<PtrEntry>, tkn: seq<TknEntry>) {
    && SortedBy(PtrStart, ptr) && SortedBy(TknIdent, tkn)
    && multiset(MapSeq(PtrKey, ptr)) == multiset(tkn)
  }

  // ----- searching -----

  /** std::upper_bound and std::lower_bound: the entries below the bound come first. */
  method PartitionPoint<T>(a: array<T>, n: nat, below: T -> bool) returns (k: nat)
    requires n <= a.Length && forall i, j :: 0 <= i < j < n ==> below(a[j]) ==> below(a[i])
    ensures k <= n && (forall i :: 0 <= i < k ==> below(a[i])) && (forall i :: k <= i < n ==> !below(a[i]))
  {
    k := 0;
    var count: nat := n;
    while count > 0
      invariant k + count <= n
      invariant forall i :: 0 <= i < k ==> below(a[i])
      invariant forall i :: k + count <= i < n ==> !below(a[i])
    {
      var step := count / 2;
      if below(a[k + step]) {
        k, count := k + step + 1, count - step - 1;
      } else {
        count := step;
      }
    }
  }

  lemma EndsSorted(segs: seq<Seg>, s: seq<PtrEntry>)
    requires MapOk(segs) && PtrListed(segs, s) && SortedBy(PtrStart, s)
    ensures forall i, j :: 0 <= i < j < |s| ==> s[i].end <= s[j].end
  {
    forall i, j | 0 <= i < j < |s|
      ensures s[i].end <= s[j].end
    {
      assert PtrStart(s[i]) <= PtrStart(s[j]);
      ListedApart(segs, s[i].start, s[i].end, s[i].ident, s[j].start, s[j].end, s[j].ident);
    }
  }

  lemma IdxEndsSorted(segs: seq<Seg>, s: seq<IdxEntry>)
    requires MapOk(segs) && IdxListed(segs, s) && SortedBy(IdxStart, s)
    ensures forall i, j :: 0 <= i < j < |s| ==> s[i].end <= s[j].end
  {
    forall i, j | 0 <= i < j < |s|
      ensures s[i].end <= s[j].end
    {
      assert IdxStart(s[i]) <= IdxStart(s[j]);
      IndexedApart(segs, s[i].start, s[i].end, s[i].idx, s[j].start, s[j].end, s[j].idx);
    }
  }

  class SegCache {
    const ptr: array<PtrEntry>
    const tkn: array<TknEntry>
    const idx: array<IdxEntry>
    var occupancy: nat
    var evict: nat
    var idxOccupancy: nat
    var idxEvict: nat
    var epoch: nat

    ghost predicate Shape()
      reads this
    {
      && ptr.Length == CAPACITY && tkn.Length == CAPACITY && idx.Length == CAPACITY
      && occupancy <= CAPACITY && idxOccupancy <= CAPACITY && evict < CAPACITY && idxEvict < CAPACITY
    }

    ghost predicate TwinPart(segs: seq<Seg>)
      requires Shape()
      reads this, ptr, tkn
    {
      Twins(ptr[..occupancy], tkn[..occupancy]) && PtrListed(segs, ptr[..occupancy])
    }

    ghost predicate IdxPart(segs: seq<Seg>)
      requires Shape()
      reads this, idx
    {
      SortedBy(IdxStart, idx[..idxOccupancy]) && IdxListed(segs, idx[..idxOccupancy])
    }

    /** The arrays are sorted, the twins agree, and every entry is a segment of the map. */
    ghost predicate Valid(segs: seq<Seg>)
      reads this, ptr, tkn, idx
    {
      Shape() && TwinPart(segs) && IdxPart(segs)
    }

    constructor ()
      ensures Valid([]) && occupancy == 0 && idxOccupancy == 0 && epoch == 0
      ensures fresh(ptr) && fresh(tkn) && fresh(idx)
    {
      ptr := new PtrEntry[CAPACITY](_ => PtrEntry(0, 0, NO_IDENT));
      tkn := new TknEntry[CAPACITY](_ => TknEntry(NO_IDENT, 0));
      idx := new IdxEntry[CAPACITY](_ => IdxEntry(0, 0, 0));
      occupancy, evict, idxOccupancy, idxEvict, epoch := 0, 0, 0, 0, 0;
      new;
      assert ptr[..0] == [] && tkn[..0] == [] && idx[..0] == [];
    }

    /** search over the pointer cache. */
    method FindPtr(p: nat, ghost segs: seq<Seg>) returns (found: bool, k: nat)
      requires Valid(segs) && MapOk(segs)
      ensures k <= occupancy && (forall i :: 0 <= i < k ==> ptr[i].end < p) && (k < occupancy ==> p <= ptr[k].end)
      ensures found ==> k < occupancy && ptr[k].start <= p <= ptr[k].end
      ensures !found ==> forall i :: 0 <= i < occupancy ==> !(ptr[i].start <= p <= ptr[i].end)
    {
      ghost var s := ptr[..occupancy];
      EndsSorted(segs, s);
      assert forall i :: 0 <= i < occupancy ==> ptr[i] == s[i];
      k := PartitionPoint(ptr, occupancy, (e: PtrEntry) => e.end < p);
      found := k != occupancy && p >= ptr[k].start;
      if !found { NotBefore(s, p, k); }
    }

    /** search_cache by pointer: a stale cache is emptied instead of searched. */
    method SearchPtr(p: nat, current: nat, ghost segs: seq<Seg>) returns (found: bool, k: nat)
      requires Valid(segs) && MapOk(segs)
      modifies this`occupancy, this`epoch, ptr, tkn
      ensures Valid(segs) && epoch == current
      ensures old(epoch) == current ==>
                occupancy == old(occupancy) && ptr[..] == old(ptr[..]) && tkn[..] == old(tkn[..])
      ensures old(epoch) != current ==> occupancy == 0 && !found
      ensures found ==> k < occupancy && ptr[k].start <= p <= ptr[k].end
      ensures !found ==> forall i :: 0 <= i < occupancy ==> !(ptr[i].start <= p <= ptr[i].end)
    {
      hide MapOk, PtrListed, IdxListed, Twins, SortedBy;
      if current == epoch {
        found, k := FindPtr(p, segs);
      } else {
        Forget(segs);
        epoch := current;
        found, k := false, CAPACITY;
      }
    }

    method Forget(ghost segs: seq<Seg>)
      requires Valid(segs)
      modifies this`occupancy, ptr, tkn
      ensures Valid(segs) && occupancy == 0
    {
      ghost var keep := idx[..idxOccupancy];
      forall i | 0 <= i < CAPACITY { ptr[i] := PtrEntry(0, 0, NO_IDENT); }
      forall i | 0 <= i < CAPACITY { tkn[i] := TknEntry(NO_IDENT, 0); }
      occupancy := 0;
      assert ptr[..0] == [] && tkn[..0] == [] && idx[..idxOccupancy] == keep;
    }

    /** search_idx_cache. */
    method SearchIdx(p: nat, ghost segs: seq<Seg>) returns (found: bool, k: nat)
      requires Valid(segs) && MapOk(segs)
      ensures found ==> k < idxOccupancy && idx[k].start <= p <= idx[k].end
      ensures !found ==> forall i :: 0 <= i < idxOccupancy ==> !(idx[i].start <= p <= idx[i].end)
    {
      hide MapOk, IdxListed, Indexed, SortedBy, TwinPart;
      ghost var s := idx[..idxOccupancy];
      IdxEndsSorted(segs, s);
      assert forall i :: 0 <= i < idxOccupancy ==> idx[i] == s[i];
      k := PartitionPoint(idx, idxOccupancy, (e: IdxEntry) => e.end < p);
      found := k != idxOccupancy && p >= idx[k].start;
      if !found { IdxNotBefore(s, p, k); }
    }

    /** search_cache by hash. */
    method SearchTkn(d: Ident, ghost segs: seq<Seg>) returns (found: bool, k: nat)
      requires Valid(segs)
      ensures found ==> k < occupancy && tkn[k].ident == d
      ensures !found ==> forall i :: 0 <= i < occupancy ==> tkn[i].ident != d
    {
      ghost var s := tkn[..occupancy];
      assert forall i :: 0 <= i < occupancy ==> tkn[i] == s[i];
      assert forall i, j :: 0 <= i < j < occupancy ==> TknIdent(s[i]) <= TknIdent(s[j]);
      k := PartitionPoint(tkn, occupancy, (e: TknEntry) => e.ident < d);
      found := k != occupancy && tkn[k].ident == d;
    }

    // ----- activate -----

    /** The entry goes behind the others, or in place of the one at the eviction index when the cache is full. */
    method PlaceIdx(seg: Seg, ghost segs: seq<Seg>)
      requires Shape() && IdxListed(segs, idx[..idxOccupancy]) && seg in segs && seg.idx > 0
      modifies this`idxOccupancy, this`idxEvict, idx
      ensures Shape() && IdxListed(segs, idx[..idxOccupancy])
      ensures multiset(idx[..idxOccupancy]) == Replaced(multiset(old(idx[..idxOccupancy])),
                                                        old(idxOccupancy) < CAPACITY,
                                                        old(idx[idxEvict]), IdxEntry(seg.start, seg.end, seg.idx))
      ensures if old(idxOccupancy) < CAPACITY then idxOccupancy == old(idxOccupancy) + 1 && idxEvict == old(idxEvict)
              else idxOccupancy == old(idxOccupancy) && idxEvict == (old(idxEvict) + 1) % CAPACITY
    {
      hide IdxListed, Replaced;
      ghost var was := idx[..idxOccupancy];
      var e := IdxEntry(seg.start, seg.end, seg.idx);
      if idxOccupancy < CAPACITY {
        idx[idxOccupancy] := e;
        idxOccupancy := idxOccupancy + 1;
        assert idx[..idxOccupancy] == was + [e];
        IdxAdded(segs, was, seg);
      } else {
        IdxSwapped(segs, was, idxEvict, seg);
        idx[idxEvict] := e;
        assert idx[..idxOccupancy] == was[idxEvict := e];
        idxEvict := (idxEvict + 1) % CAPACITY;
      }
    }

    /** An indexed segment enters the index cache. */
    method ActivateIdx(seg: Seg, ghost segs: seq<Seg>)
      requires Valid(segs) && seg in segs && seg.idx > 0
      modifies this`idxOccupancy, this`idxEvict, idx
      ensures Shape() && IdxPart(segs)
      ensures multiset(idx[..idxOccupancy]) == Replaced(multiset(old(idx[..idxOccupancy])),
                                                        old(idxOccupancy) < CAPACITY,
                                                        old(idx[idxEvict]), IdxEntry(seg.start, seg.end, seg.idx))
      ensures if old(idxOccupancy) < CAPACITY then idxOccupancy == old(idxOccupancy) + 1 && idxEvict == old(idxEvict)
              else idxOccupancy == old(idxOccupancy) && idxEvict == (old(idxEvict) + 1) % CAPACITY
    {
      hide TwinPart, IdxListed, SortedBy, Perm, Replaced;
      PlaceIdx(seg, segs);
      ghost var raw := idx[..idxOccupancy];
      SortPrefix(idx, idxOccupancy, IdxStart);
      IdxSorted(segs, raw, idx[..idxOccupancy]);
    }

    /** Room left: the segment is added to both twins. */
    method ActivateNew(seg: Seg, ghost segs: seq<Seg>)
      requires Valid(segs) && seg in segs && occupancy < CAPACITY
      modifies this`occupancy, ptr, tkn
      ensures Shape() && TwinPart(segs) && occupancy == old(occupancy) + 1
      ensures multiset(tkn[..occupancy]) == multiset(old(tkn[..occupancy])) + multiset{TknEntry(seg.ident, seg.start)}
      ensures OnlyFrom(old(ptr[..occupancy]), ptr[..occupancy], PtrEntry(seg.start, seg.end, seg.ident))
    {
      hide Twins, PtrListed, IdxPart, OnlyFrom;
      ghost var ptr0, tkn0 := ptr[..occupancy], tkn[..occupancy];
      var e := PtrEntry(seg.start, seg.end, seg.ident);
      AddTwin(e);
      AddedTwins(segs, ptr0, tkn0, seg);
      ghost var ptr1, tkn1 := ptr[..occupancy], tkn[..occupancy];
      SortTwins(segs, ptr1, tkn1);
      FromAdded(ptr0, ptr1, ptr[..occupancy], e);
    }

    method AddTwin(e: PtrEntry)
      requires Shape() && occupancy < CAPACITY
      modifies this`occupancy, ptr, tkn
      ensures Shape() && occupancy == old(occupancy) + 1
      ensures ptr[..occupancy] == old(ptr[..occupancy]) + [e] && tkn[..occupancy] == old(tkn[..occupancy]) + [PtrKey(e)]
    {
      ptr[occupancy] := e;
      tkn[occupancy] := PtrKey(e);
      occupancy := occupancy + 1;
    }

    /** The twins are sorted again, each by its own key. */
    method SortTwins(ghost segs: seq<Seg>, ghost ptr1: seq<PtrEntry>, ghost tkn1: seq<TknEntry>)
      requires ptr.Length == CAPACITY && tkn.Length == CAPACITY && occupancy <= CAPACITY && ptr1 == ptr[..occupancy]
      requires tkn1 == tkn[..occupancy]
      requires PtrListed(segs, ptr1) && multiset(MapSeq(PtrKey, ptr1)) == multiset(tkn1)
      modifies ptr, tkn
      ensures Twins(ptr[..occupancy], tkn[..occupancy]) && PtrListed(segs, ptr[..occupancy])
      ensures multiset(tkn[..occupancy]) == multiset(tkn1) && multiset(ptr[..occupancy]) == multiset(ptr1)
    {
      hide SortedBy;
      SortPrefix(ptr, occupancy, PtrStart);
      SortPrefix(tkn, occupancy, TknIdent);
      PermMap(PtrKey, ptr[..occupancy], ptr1);
      forall i | 0 <= i < occupancy
        ensures Listed(segs, ptr[i].start, ptr[i].end, ptr[i].ident)
      {
        assert ptr[i] in ptr[..occupancy];
        PermMember(ptr[..occupancy], ptr1, ptr[i]);
      }
    }

    method SwapTwins(it: nat, e: PtrEntry)
      requires Shape() && it < occupancy && evict < occupancy
      modifies ptr, tkn
      ensures ptr[..occupancy] == old(ptr[..occupancy])[it := e]
      ensures tkn[..occupancy] == old(tkn[..occupancy])[evict := PtrKey(e)]
    {
      ptr[it] := e;
      tkn[evict] := PtrKey(e);
    }

    /** No room: the segment at the eviction index of the token cache is replaced in both twins. */
    method ActivateEvict(seg: Seg, ghost segs: seq<Seg>)
      requires Valid(segs) && MapOk(segs) && seg in segs && occupancy == CAPACITY
      modifies this`evict, ptr, tkn
      ensures Shape() && TwinPart(segs) && evict == (old(evict) + 1) % CAPACITY
      ensures multiset(tkn[..occupancy]) == multiset(old(tkn[..occupancy])) - multiset{old(tkn[evict])}
              + multiset{TknEntry(seg.ident, seg.start)}
      ensures OnlyFrom(old(ptr[..occupancy]), ptr[..occupancy], PtrEntry(seg.start, seg.end, seg.ident))
    {
      hide Twins, PtrListed, IdxPart, MapOk, OnlyFrom;
      ghost var ptr0, tkn0, evict0 := ptr[..occupancy], tkn[..occupancy], evict;
      var e := PtrEntry(seg.start, seg.end, seg.ident);
      ghost var it := SwapOut(e, segs);
      SwappedTwins(segs, ptr0, tkn0, it, evict0, seg);
      ghost var ptr1, tkn1 := ptr[..occupancy], tkn[..occupancy];
      SortTwins(segs, ptr1, tkn1);
      FromSwapped(ptr0, it, ptr1, ptr[..occupancy], e);
    }

    /** The victim is looked up by its start in the pointer cache, and e takes its place in both twins. */
    method SwapOut(e: PtrEntry, ghost segs: seq<Seg>) returns (ghost it: nat)
      requires Valid(segs) && MapOk(segs) && occupancy == CAPACITY
      modifies this`evict, ptr, tkn
      ensures Shape() && evict == (old(evict) + 1) % CAPACITY && it < occupancy
      ensures PtrKey(old(ptr[it])) == old(tkn[evict])
      ensures ptr[..occupancy] == old(ptr[..occupancy])[it := e]
      ensures tkn[..occupancy] == old(tkn[..occupancy])[old(evict) := PtrKey(e)]
    {
      hide Twins, PtrListed, IdxPart, MapOk;
      ghost var ptr0, tkn0 := ptr[..occupancy], tkn[..occupancy];
      var oldStart := tkn[evict].start;
      var found, k := FindPtr(oldStart, segs);
      VictimFound(segs, ptr0, tkn0, evict, k);
      SwapTwins(k, e);
      evict := (evict + 1) % CAPACITY;
      it := k;
    }

    /**
     activate: an indexed segment goes to the index cache, any other to the twins. A full cache gives up the entry at
     its eviction index, which then moves on to the next slot.
     */
    method Activate(seg: Seg, ghost segs: seq<Seg>)
      requires Valid(segs) && MapOk(segs) && seg in segs
      modifies this`occupancy, this`evict, this`idxOccupancy, this`idxEvict, ptr, tkn, idx
      ensures Valid(segs)
      ensures seg.idx > 0 ==> ptr[..] == old(ptr[..]) && tkn[..] == old(tkn[..])
      ensures seg.idx > 0 ==> occupancy == old(occupancy) && evict == old(evict)
      ensures seg.idx > 0 ==>
                if old(idxOccupancy) < CAPACITY then idxOccupancy == old(idxOccupancy) + 1 && idxEvict == old(idxEvict)
                else idxOccupancy == old(idxOccupancy) && idxEvict == (old(idxEvict) + 1) % CAPACITY
      ensures seg.idx > 0 ==>
                multiset(idx[..idxOccupancy]) == Replaced(multiset(old(idx[..idxOccupancy])),
                                                          old(idxOccupancy) < CAPACITY, old(idx[idxEvict]),
                                                          IdxEntry(seg.start, seg.end, seg.idx))
      ensures seg.idx > 0 ==> IdxEntry(seg.start, seg.end, seg.idx) in idx[..idxOccupancy]
      ensures seg.idx <= 0 ==> idx[..] == old(idx[..])
      ensures seg.idx <= 0 ==> idxOccupancy == old(idxOccupancy) && idxEvict == old(idxEvict)
      ensures seg.idx <= 0 ==>
                if old(occupancy) < CAPACITY then occupancy == old(occupancy) + 1 && evict == old(evict)
                else occupancy == old(occupancy) && evict == (old(evict) + 1) % CAPACITY
      ensures seg.idx <= 0 ==>
                multiset(tkn[..occupancy]) == Replaced(multiset(old(tkn[..occupancy])), old(occupancy) < CAPACITY,
                                                       old(tkn[evict]), TknEntry(seg.ident, seg.start))
      ensures seg.idx <= 0 ==> PtrEntry(seg.start, seg.end, seg.ident) in ptr[..occupancy]
      ensures OnlyFrom(old(ptr[..occupancy]), ptr[..occupancy], PtrEntry(seg.start, seg.end, seg.ident))
      ensures OnlyFrom(old(idx[..idxOccupancy]), idx[..idxOccupancy], IdxEntry(seg.start, seg.end, seg.idx))
    {
      hide Twins, PtrListed, SortedBy, IdxListed, MapOk;
      ghost var ptr0, tkn0, idx0 := ptr[..occupancy], tkn[..occupancy], idx[..idxOccupancy];
      if seg.idx > 0 {
        ghost var room, victim := idxOccupancy < CAPACITY, idx[idxEvict];
        ActivateIdx(seg, segs);
        FromReplaced(idx0, idx[..idxOccupancy], room, victim, IdxEntry(seg.start, seg.end, seg.idx));
        assert IdxEntry(seg.start, seg.end, seg.idx) in multiset(idx[..idxOccupancy]);
        assert ptr[..occupancy] == ptr0 && tkn[..occupancy] == tkn0;
      } else {
        if occupancy < CAPACITY {
          ActivateNew(seg, segs);
        } else {
          ActivateEvict(seg, segs);
        }
        assert idx[..idxOccupancy] == idx0;
        EntryOf(segs, ptr[..occupancy], tkn[..occupancy], seg);
      }
    }
  }

  /** One entry more, or one in place of another. */
  ghost function Replaced<T>(was: multiset<T>, room: bool, victim: T, e: T): multiset<T> {
    if room then was + multiset{e} else was - multiset{victim} + multiset{e}
  }

  /** No entry comes from nowhere. */
  ghost predicate OnlyFrom<T>(was: seq<T>, now: seq<T>, e: T) { forall x :: x in now ==> x in was || x == e }

  lemma FromReplaced<T>(was: seq<T>, now: seq<T>, room: bool, victim: T, e: T)
    requires multiset(now) == Replaced(multiset(was), room, victim, e)
    ensures OnlyFrom(was, now, e)
  {
    forall x | x in now
      ensures x in was || x == e
    {
      assert x in multiset(now);
      if x != e { assert x in multiset(was); }
    }
  }

  lemma FromAdded<T>(was: seq<T>, more: seq<T>, now: seq<T>, e: T)
    requires more == was + [e] && multiset(now) == multiset(more)
    ensures OnlyFrom(was, now, e)
  {
    FromReplaced(was, now, true, e, e);
  }

  lemma FromSwapped<T>(was: seq<T>, it: nat, more: seq<T>, now: seq<T>, e: T)
    requires it < |was| && more == was[it := e] && multiset(now) == multiset(more)
    ensures OnlyFrom(was, now, e)
  {
    forall x | x in now
      ensures x in was || x == e
    {
      assert x in multiset(now) && x in multiset(more);
    }
  }

  lemma IdxAdded(segs: seq<Seg>, s: seq<IdxEntry>, seg: Seg)
    requires IdxListed(segs, s) && seg in segs && seg.idx > 0
    ensures var e := IdxEntry(seg.start, seg.end, seg.idx);
            IdxListed(segs, s + [e]) && forall victim :: multiset(s + [e]) == Replaced(multiset(s), true, victim, e)
  {
    assert Indexed(segs, seg.start, seg.end, seg.idx);
  }

  lemma IdxSwapped(segs: seq<Seg>, s: seq<IdxEntry>, i: nat, seg: Seg)
    requires IdxListed(segs, s) && i < |s| && seg in segs && seg.idx > 0
    ensures var e := IdxEntry(seg.start, seg.end, seg.idx);
            IdxListed(segs, s[i := e]) && multiset(s[i := e]) == Replaced(multiset(s), false, s[i], e)
  {
    assert Indexed(segs, seg.start, seg.end, seg.idx);
  }

  lemma IdxSorted(segs: seq<Seg>, raw: seq<IdxEntry>, s: seq<IdxEntry>)
    requires IdxListed(segs, raw) && Perm(s, raw)
    ensures IdxListed(segs, s) && multiset(s) == multiset(raw)
  {
    forall i | 0 <= i < |s|
      ensures Indexed(segs, s[i].start, s[i].end, s[i].idx)
    {
      PermMember(s, raw, s[i]);
    }
  }

  lemma AddedTwins(segs: seq<Seg>, ptr: seq<PtrEntry>, tkn: seq<TknEntry>, seg: Seg)
    requires Twins(ptr, tkn) && PtrListed(segs, ptr) && seg in segs
    ensures var e := PtrEntry(seg.start, seg.end, seg.ident);
            && PtrListed(segs, ptr + [e]) && multiset(MapSeq(PtrKey, ptr + [e])) == multiset(tkn + [PtrKey(e)])
  {
    var e := PtrEntry(seg.start, seg.end, seg.ident);
    assert MapSeq(PtrKey, ptr + [e]) == MapSeq(PtrKey, ptr) + [PtrKey(e)];
    assert Listed(segs, e.start, e.end, e.ident);
  }

  /** Every token entry has its pointer entry. */
  lemma TwinOf(ptr: seq<PtrEntry>, tkn: seq<TknEntry>, k: nat) returns (i: nat)
    requires multiset(MapSeq(PtrKey, ptr)) == multiset(tkn) && k < |tkn|
    ensures i < |ptr| && PtrKey(ptr[i]) == tkn[k]
  {
    var keys := MapSeq(PtrKey, ptr);
    assert tkn[k] in multiset(tkn) && tkn[k] in multiset(keys);
    assert tkn[k] in keys;
    i :| 0 <= i < |keys| && keys[i] == tkn[k];
  }

  /** The entry the search finds for the victim's address is the victim. */
  lemma VictimFound(segs: seq<Seg>, ptr: seq<PtrEntry>, tkn: seq<TknEntry>, evict: nat, it: nat)
    requires MapOk(segs) && PtrListed(segs, ptr) && Twins(ptr, tkn) && evict < |tkn| && it <= |ptr|
    requires forall i :: 0 <= i < it ==> ptr[i].end < tkn[evict].start
    requires it < |ptr| ==> tkn[evict].start <= ptr[it].end
    ensures it < |ptr| && PtrKey(ptr[it]) == tkn[evict]
  {
    var v := TwinOf(ptr, tkn, evict);
    ListedApart(segs, ptr[v].start, ptr[v].end, ptr[v].ident, ptr[v].start, ptr[v].end, ptr[v].ident);
    assert it <= v;
    if it < v { assert PtrStart(ptr[it]) <= PtrStart(ptr[v]); }
    ListedApart(segs, ptr[it].start, ptr[it].end, ptr[it].ident, ptr[v].start, ptr[v].end, ptr[v].ident);
  }

  lemma SwappedTwins(segs: seq<Seg>, ptr: seq<PtrEntry>, tkn: seq<TknEntry>, it: nat, evict: nat, seg: Seg)
    requires PtrListed(segs, ptr) && Twins(ptr, tkn) && it < |ptr| && evict < |tkn| && PtrKey(ptr[it]) == tkn[evict]
    requires seg in segs
    ensures var e := PtrEntry(seg.start, seg.end, seg.ident);
            && PtrListed(segs, ptr[it := e]) && multiset(MapSeq(PtrKey, ptr[it := e])) ==
              multiset(tkn[evict := PtrKey(e)])
            && multiset(tkn[evict := PtrKey(e)]) == multiset(tkn) - multiset{tkn[evict]} + multiset{PtrKey(e)}
  {
    var e := PtrEntry(seg.start, seg.end, seg.ident);
    assert Listed(segs, e.start, e.end, e.ident);
    assert MapSeq(PtrKey, ptr[it := e]) == MapSeq(PtrKey, ptr)[it := PtrKey(e)];
  }

  lemma NotBefore(s: seq<PtrEntry>, p: nat, k: nat)
    requires SortedBy(PtrStart, s) && k <= |s|
    requires (forall i :: 0 <= i < k ==> s[i].end < p) && (k < |s| ==> p < s[k].start)
    ensures forall i :: 0 <= i < |s| ==> !(s[i].start <= p <= s[i].end)
  {
    forall i | k <= i < |s|
      ensures p < s[i].start
    {
      if k < i { assert PtrStart(s[k]) <= PtrStart(s[i]); }
    }
  }

  lemma IdxNotBefore(s: seq<IdxEntry>, p: nat, k: nat)
    requires SortedBy(IdxStart, s) && k <= |s|
    requires (forall i :: 0 <= i < k ==> s[i].end < p) && (k < |s| ==> p < s[k].start)
    ensures forall i :: 0 <= i < |s| ==> !(s[i].start <= p <= s[i].end)
  {
    forall i | k <= i < |s|
      ensures p < s[i].start
    {
      if k < i { assert IdxStart(s[k]) <= IdxStart(s[i]); }
    }
  }

  /** A segment in the token cache is in the pointer cache with its whole range. */
  lemma EntryOf(segs: seq<Seg>, ptr: seq<PtrEntry>, tkn: seq<TknEntry>, seg: Seg)
    requires MapOk(segs) && PtrListed(segs, ptr) && Twins(ptr, tkn) && seg in segs
    requires TknEntry(seg.ident, seg.start) in multiset(tkn)
    ensures PtrEntry(seg.start, seg.end, seg.ident) in ptr
  {
    assert TknEntry(seg.ident, seg.start) in tkn;
    var n :| 0 <= n < |tkn| && tkn[n] == TknEntry(seg.ident, seg.start);
    var i := TwinOf(ptr, tkn, n);
    assert Listed(segs, seg.start, seg.end, seg.ident);
    ListedApart(segs, ptr[i].start, ptr[i].end, ptr[i].ident, seg.start, seg.end, seg.ident);
    assert ptr[i] in ptr;
  }
}
