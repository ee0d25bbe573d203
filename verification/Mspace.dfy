/**
 A malloc space over one external segment: mspace_malloc, mspace_free and mspace_memalign
 (src/dl_malloc.c:4364-4544, 4894-4966, 5403-5424, 5504-5717). Memory beyond the segment is
 never obtained: sys_alloc fails without a change, as it does when the footprint limit is
 reached (src/dl_malloc.c:4059-4063).
 */
module Mspace {
  import opened Words
  import opened BinMaps
  import opened HeapCore
  import BI = BinIndex
  import SB = SmallBins
  import TB = TreeBins
  import TL = TreeLinks
  import AL = Alignment

  const CHUNK_OVERHEAD := 8
  const MIN_REQUEST := 23
  const MAX_SMALL_REQUEST := 232
  const MAX_REQUEST := MAX_SIZE - 128

  /** pad_request. */
  function PadRequest(req: nat): nat { (req + CHUNK_OVERHEAD + 15) / 16 * 16 }

  /** request2size: the least multiple of 16 with room for the request and 8 bytes more, and at least 32. */
  function Request2Size(req: nat): (nb: nat)
    ensures nb % 16 == 0 && nb >= 32 && nb >= req + 8 && (nb == 32 || nb - 16 < req + 8)
  {
    if req < MIN_REQUEST then MIN_CHUNK else PadRequest(req)
  }

  /**
   The chunk p was handed out with room for nb bytes and less than a minimal chunk to spare; all other live
   blocks are as before.
   */
  ghost predicate Served(c: Core, c': Core, p: Addr, nb: nat) {
    HandedOut(c, c', p) && nb <= c'.head[p].size < nb + MIN_CHUNK
  }

  ghost predicate HandedOut(c: Core, c': Core, p: Addr) {
    p !in Live(c) && Live(c') == Live(c) + {p} && p in c'.head && LiveKept(c, c')
  }

  ghost predicate LiveKept(c: Core, c': Core) {
    forall q :: q in Live(c) && q in Live(c') ==> q in c.head && q in c'.head && c'.head[q].size == c.head[q].size
  }

  ghost predicate NoneBinned(c: Core, nb: nat) {
    forall q: Addr :: Binnable(c, q) ==> c.head[q].size < nb
  }

  ghost predicate Fitting(c: Core, q: Addr, nb: nat) { Binnable(c, q) && nb <= c.head[q].size }

  /** No chunk in a bin fits nb better than p does. */
  ghost predicate LeastBinned(c: Core, p: Addr, nb: nat) {
    Fitting(c, p, nb) && forall q: Addr :: Fitting(c, q, nb) ==> c.head[p].size <= c.head[q].size
  }

  /**
   The bins serve the request: some chunk in them fits, and if the victim fits too, then a small request
   is met exactly, and a large one strictly better than by the victim.
   */
  ghost predicate FromBins(c: Core, nb: nat) {
    exists q: Addr ::
      && Fitting(c, q, nb)
      && (nb <= c.dvsize ==> if nb < 256 then c.head[q].size == nb else c.head[q].size < c.dvsize)
  }

  /** Which chunk a request is served from: a best fit in the bins, or else the victim, or else top. */
  ghost predicate Chosen(c: Core, p: Addr, nb: nat) {
    if FromBins(c, nb) then LeastBinned(c, p, nb) else if nb <= c.dvsize then p == c.dv else p == c.top
  }

  /** No free chunk can hold nb bytes. */
  ghost predicate NothingFits(c: Core, nb: nat) {
    (forall q: Addr :: IsFree(c, q) ==> c.head[q].size < nb) && c.topsize <= nb
  }

  /** No free chunk has room for a request and its overhead, and top would not outlast it. */
  ghost predicate CannotServe(c: Core, bytes: nat) {
    && (forall q: Addr :: IsFree(c, q) ==> c.head[q].size < bytes + 8 || c.head[q].size < 32)
    && c.topsize <= Request2Size(bytes)
  }

  /**
   What is left of the chunk that was taken: for a small request from the bins it becomes the victim, for a large one
   it goes back to the bins; the victim itself is shortened or used up; top loses its low end.
   */
  ghost predicate Leaves(c: Core, c': Core, p: Addr, nb: nat) {
    p in c.head &&
    if FromBins(c, nb) then
      && c'.top == c.top && c'.topsize == c.topsize
      && if nb < 256 && c.head[p].size - nb >= 32 then c'.dv == p + nb && c'.dvsize == c.head[p].size - nb
         else c'.dv == c.dv && c'.dvsize == c.dvsize
    else if nb <= c.dvsize then
      && c'.top == c.top && c'.topsize == c.topsize
      && if c.dvsize - nb >= 32 then c'.dv == c.dv + nb && c'.dvsize == c.dvsize - nb else c'.dv == 0 && c'.dvsize == 0
    else
      c'.dv == c.dv && c'.dvsize == c.dvsize && c'.top == c.top + nb && c'.topsize == c.topsize - nb
  }

  class Mspace {
    var head: map<Addr, Head>
    var foot: map<Addr, nat>
    var top: Addr
    var topsize: nat
    var dv: Addr
    var dvsize: nat
    const smalls: SB.SmallBins
    const trees: TB.TreeBins
    ghost const base: Addr
    ghost const limit: Addr
    ghost var starts: set<Addr>
    ghost var prev: map<Addr, Addr>

    ghost function C(): Core
      reads this
    {
      Core(base, limit, head, foot, top, topsize, dv, dvsize, starts, prev)
    }

    /** The whole invariant, with the chunks in limbo neither used nor binned. */
    ghost predicate ValidBut(limbo: set<Addr>)
      reads this, smalls, trees
    {
      CoreOk(C()) && smalls.Valid() && trees.Valid() && Binned(C(), smalls.size, trees.size, limbo)
    }

    /** What do_check_malloc_state checks (src/dl_malloc.c:3459-3485). */
    ghost predicate Valid()
      reads this, smalls, trees
    {
      ValidBut({})
    }

    /** init_user_mstate: the space behind the malloc state becomes one top chunk. */
    constructor (first: Addr, size: nat)
      requires first > 0 && first % ALIGN == 0 && size > 0 && first + size < MAX_SIZE
      ensures Valid() && fresh(smalls) && fresh(trees) && base == first && limit == first + size
      ensures Live(C()) == {} && topsize == size && dv == 0
    {
      smalls := new SB.SmallBins();
      trees := new TB.TreeBins();
      base, limit := first, first + size;
      top, topsize := first, size;
      dv, dvsize := 0, 0;
      head := map[first := Head(size, true, false)];
      foot := map[];
      starts := {first};
      prev := map[];
      new;
      hide *;
      StartOk(C(), first, size);
    }

    // ----- bins -----

    /** insert_chunk: a free chunk in limbo goes to the bin of its size. */
    method InsertChunk(p: Addr, s: nat)
      requires ValidBut({p}) && Binnable(C(), p) && s == head[p].size
      modifies smalls, trees
      ensures Valid()
    {
      hide BI.TreeIndex, TL.TreeOk, TB.MapOk, SB.Listed, SB.Linked, ChunkOk, Apart, HasPrev, Binned;
      BinnedInsert(C(), smalls.size, trees.size, p);
      FreeSize(C(), p);
      if s / 8 < 32 {
        smalls.Insert(p, s);
      } else {
        trees.Insert(p, s);
      }
    }

    /** unlink_chunk: a binned chunk goes to limbo. */
    method UnlinkChunk(p: Addr, s: nat, ghost limbo: set<Addr>)
      requires ValidBut(limbo) && Binnable(C(), p) && p !in limbo && s == head[p].size
      modifies smalls, trees
      ensures ValidBut(limbo + {p})
    {
      hide BI.TreeIndex, TL.TreeOk, TB.MapOk, SB.Listed, SB.Linked, ChunkOk, Apart, HasPrev, Binned;
      InItsBin(C(), smalls.size, trees.size, limbo, p);
      BinnedUnlink(C(), smalls.size, trees.size, limbo, p);
      if s / 8 < 32 {
        ghost var k := smalls.Unlink(p, s);
      } else {
        trees.Unlink(p);
      }
    }

    // ----- the tag words of each change -----

    method WriteWhole(p: Addr, dv': Addr, dvsize': nat)
      requires p in head && p + head[p].size in head
      modifies this`head, this`dv, this`dvsize
      ensures C() == UseWhole(old(C()), p, dv', dvsize')
      ensures dv == dv' && dvsize == dvsize'
    {
      var n := p + head[p].size;
      head := head[p := Head(head[p].size, true, true)];
      head := head[n := head[n].(pinuse := true)];
      dv, dvsize := dv', dvsize';
    }

    method WriteSplit(p: Addr, nb: nat, dv': Addr, dvsize': nat)
      requires p in head && nb <= head[p].size
      modifies this`head, this`foot, this`dv, this`dvsize, this`starts, this`prev
      ensures C() == UseSplit(old(C()), p, nb, dv', dvsize')
      ensures dv == dv' && dvsize == dvsize'
    {
      var rsize := head[p].size - nb;
      var r := p + nb;
      head := head[p := Head(nb, true, true)];
      head := head[r := Head(rsize, true, false)];
      foot := foot[r + rsize := rsize];
      dv, dvsize := dv', dvsize';
      starts := starts + {r};
      prev := prev[r := p][r + rsize := r];
    }

    // ----- handing out a chunk -----

    /** A free chunk in limbo, or the victim, is handed out whole. */
    method TakeWhole(p: Addr, dv': Addr, dvsize': nat)
      requires ValidBut({p}) && IsFree(C(), p)
      requires (dv' == dv && dvsize' == dvsize && p != dv) || (p == dv && dv' == 0 && dvsize' == 0)
      modifies this`head, this`dv, this`dvsize
      ensures Valid() && Live(C()) == old(Live(C())) + {p} && p in head && head[p].size == old(head[p].size)
      ensures LiveKept(old(C()), C()) && p !in old(Live(C()))
      ensures dv == dv' && dvsize == dvsize'
    {
      hide BI.TreeIndex, TL.TreeOk, TB.MapOk, SB.Listed, SB.Linked, ChunkOk, Apart, HasPrev, Binned, CoreOk, Live;
      hide UseWhole, LiveKept;
      ghost var c := C();
      WholeSummary(c, smalls.size, trees.size, p, dv', dvsize');
      WriteWhole(p, dv', dvsize');
    }

    /** A free chunk in limbo, or the victim, is split; the rest becomes the victim, or is left in limbo. */
    method TakeSplit(p: Addr, nb: nat, victim: bool)
      requires ValidBut({p}) && IsFree(C(), p) && (p == dv ==> victim)
      requires nb % ALIGN == 0 && MIN_CHUNK <= nb && nb + MIN_CHUNK <= head[p].size
      modifies this`head, this`foot, this`dv, this`dvsize, this`starts, this`prev
      ensures ValidBut(if !victim then {p + nb} else if old(dv) == 0 || p == old(dv) then {} else {old(dv)})
      ensures Live(C()) == old(Live(C())) + {p} && p in head && head[p].size == nb
      ensures p !in old(Live(C())) && LiveKept(old(C()), C())
      ensures !victim ==> Binnable(C(), p + nb) && p + nb in head && head[p + nb].size == old(head[p].size) - nb
      ensures victim && old(dv) != 0 && p != old(dv) ==> Binnable(C(), old(dv))
      ensures if victim then dv == p + nb && dvsize == old(head)[p].size - nb
              else dv == old(dv) && dvsize == old(dvsize)
    {
      hide BI.TreeIndex, TL.TreeOk, TB.MapOk, SB.Listed, SB.Linked, ChunkOk, Apart, HasPrev, Binned, CoreOk, Live;
      hide UseSplit, LiveKept, Binnable;
      ghost var c := C();
      var rsize := head[p].size - nb;
      var dv', dvsize' := if victim then p + nb else dv, if victim then rsize else dvsize;
      SplitSummary(c, smalls.size, trees.size, p, nb, dv', dvsize');
      WriteSplit(p, nb, dv', dvsize');
    }

    /** replace_dv: the old victim goes to a small bin. */
    method BinOldVictim(victim: Addr)
      requires ValidBut(if victim == 0 then {} else {victim}) && (victim != 0 ==> Binnable(C(), victim))
      modifies smalls, trees
      ensures Valid()
    {
      if victim != 0 { InsertChunk(victim, head[victim].size); }
    }

    // ----- mspace_malloc -----

    /**
     mspace_malloc. A block is returned with at least the requested bytes, apart from every live
     block, from the chunk that fits best; null is returned exactly when no free chunk can hold the request.
     */
    method Malloc(bytes: nat) returns (mem: Addr)
      requires Valid() && bytes < MAX_SIZE
      modifies this, smalls, trees
      ensures Valid()
      ensures mem == 0 <==> bytes >= 0xFFFF_FFFF_FFFF_FF80 || CannotServe(old(C()), bytes)
      ensures mem == 0 ==> C() == old(C())
      ensures mem != 0 ==> mem >= 16 && Served(old(C()), C(), mem - 16, Request2Size(bytes))
      ensures mem != 0 ==> Chosen(old(C()), mem - 16, Request2Size(bytes))
      ensures mem != 0 ==> Leaves(old(C()), C(), mem - 16, Request2Size(bytes))
    {
      hide BI.TreeIndex, TL.TreeOk, TB.MapOk, SB.Listed, SB.Linked, ChunkOk, Apart, HasPrev, Binned, CoreOk, Live;
      hide Served, NothingFits, FromBins, LeastBinned, CannotServe, Leaves;
      ghost var c := C();
      ServesOrNot(c, bytes);
      VictimAndTop(c);
      mem := 0;
      var nb;
      if bytes <= MAX_SMALL_REQUEST {
        nb := if bytes < MIN_REQUEST then MIN_CHUNK else PadRequest(bytes);
        mem := MallocSmall(nb);
      } else if bytes >= MAX_REQUEST {
        nb := MAX_SIZE - 1;
      } else {
        nb := PadRequest(bytes);
        mem := MallocLarge(nb);
      }
      if mem == 0 {
        SizesBelow(C());
        if nb <= dvsize {
          mem := UseVictim(nb);
          VictimLeaves(c, C(), nb);
        } else if nb < topsize {
          mem := SplitTop(nb);
          TopLeaves(c, C(), nb);
        } else if bytes < MAX_REQUEST {
          FitsNowhere(C(), nb);
        }
      }
    }

    /** Lines 5513-5565: a small request, without the victim and top. */
    method MallocSmall(nb: nat) returns (mem: Addr)
      requires Valid() && nb % ALIGN == 0 && MIN_CHUNK <= nb <= 240
      modifies this, smalls, trees
      ensures Valid()
      ensures if FromBins(old(C()), nb) then mem >= 16 else mem == 0
      ensures mem == 0 ==> C() == old(C())
      ensures mem != 0 ==> Served(old(C()), C(), mem - 16, nb) && LeastBinned(old(C()), mem - 16, nb)
      ensures mem != 0 ==> Leaves(old(C()), C(), mem - 16, nb)
      ensures mem != 0 ==> !NothingFits(old(C()), nb)
    {
      hide BI.TreeIndex, TL.TreeOk, TB.MapOk, SB.Listed, SB.Linked, ChunkOk, Apart, HasPrev, Binned, CoreOk, Live;
      hide Served, NothingFits, FromBins, LeastBinned, Marked, Hi;
      ghost var c := C();
      var idx := nb / 8;
      SmallWord();
      EvenBins();
      var smallbits, fits, i := LowBits(smalls.smallmap, idx);
      SmallMarks();
      if fits {
        mem := TakeSmall(i, nb);
        ExactFits(c, mem - 16, nb);
      } else if nb > dvsize {
        mem := MallocAbove(nb, smallbits);
      } else {
        mem := 0;
        NoExact(c, smalls.size, trees.size, nb);
      }
    }

    /** Lines 5535-5565: no small bin meets the request exactly, and the victim does not fit. */
    method MallocAbove(nb: nat, smallbits: nat) returns (mem: Addr)
      requires Valid() && nb % ALIGN == 0 && MIN_CHUNK <= nb <= 240 && nb > dvsize
      requires smallbits == Hi(smalls.smallmap, nb / 8) && nb / 8 !in Marked(smalls.smallmap)
      requires smallbits == 0 <==> forall j :: j in Marked(smalls.smallmap) ==> j < nb / 8
      modifies this, smalls, trees
      ensures Valid()
      ensures if FromBins(old(C()), nb) then mem >= 16 else mem == 0
      ensures mem == 0 ==> C() == old(C())
      ensures mem != 0 ==> Served(old(C()), C(), mem - 16, nb) && LeastBinned(old(C()), mem - 16, nb)
      ensures mem != 0 ==> Leaves(old(C()), C(), mem - 16, nb)
      ensures mem != 0 ==> !NothingFits(old(C()), nb)
    {
      hide BI.TreeIndex, TL.TreeOk, TB.MapOk, SB.Listed, SB.Linked, ChunkOk, Apart, HasPrev, Binned, CoreOk, Live;
      hide Served, NothingFits, FromBins, LeastBinned, Marked, Hi;
      ghost var c := C();
      SmallWord();
      if smallbits != 0 {
        var leftbits := LeftSmallBits(smalls.smallmap, smallbits, nb / 8);
        ghost var j: nat :| j in Marked(smalls.smallmap) && j >= nb / 8;
        assert j in Marked(leftbits);
        var i := FirstMarked(leftbits);
        SmallestAbove(leftbits, i, nb);
        LeastSmall(c, smalls.size, trees.size, 8 * i, nb);
        mem := TakeSmall(i, nb);
        LeastFits(c, mem - 16, nb);
      } else if trees.treemap != 0 {
        NoSmallBin(nb);
        ghost var small, large := smalls.size, trees.size;
        mem := TmallocSmall(nb);
        LeastLarge(c, small, large, mem - 16, nb);
        LeastFits(c, mem - 16, nb);
      } else {
        mem := 0;
        NoSmallBin(nb);
        NoTree();
        NoneInBins(c, smalls.size, trees.size, nb);
        NoneFits(c, nb);
      }
    }

    /** The first chunk of small bin i, whole or split with the rest as the new victim (lines 5523-5558). */
    method TakeSmall(i: nat, nb: nat) returns (mem: Addr)
      requires Valid() && i in Marked(smalls.smallmap) && nb % ALIGN == 0 && MIN_CHUNK <= nb <= 8 * i
      modifies this, smalls, trees
      ensures Valid() && mem >= 16 && Served(old(C()), C(), mem - 16, nb)
      ensures Binnable(old(C()), mem - 16) && old(head)[mem - 16].size == 8 * i
      ensures top == old(top) && topsize == old(topsize)
      ensures if old(head)[mem - 16].size - nb >= 32 then dv == mem - 16 + nb && dvsize == old(head)[mem - 16].size - nb
              else dv == old(dv) && dvsize == old(dvsize)
      ensures !NothingFits(old(C()), nb)
    {
      hide NothingFits;
      hide BI.TreeIndex, TL.TreeOk, TB.MapOk, SB.Listed, SB.Linked, ChunkOk, Apart, HasPrev, Binned, CoreOk, Live;
      hide Marked, LiveKept;
      ghost var small, large := smalls.size, trees.size;
      var p := smalls.UnlinkFirst(i);
      InSmallBin(C(), small, large, p);
      mem := TakeFit(p, nb, true);
    }

    /** tmalloc_small: the smallest chunk of all tree bins (lines 4509-4544). */
    method TmallocSmall(nb: nat) returns (mem: Addr)
      requires Valid() && trees.treemap != 0 && nb % ALIGN == 0 && MIN_CHUNK <= nb <= 240
      modifies this, smalls, trees
      ensures Valid() && mem >= 16 && Served(old(C()), C(), mem - 16, nb)
      ensures mem - 16 in old(trees.size) && mem - 16 in old(head)
      ensures top == old(top) && topsize == old(topsize)
      ensures if old(head)[mem - 16].size - nb >= 32 then dv == mem - 16 + nb && dvsize == old(head)[mem - 16].size - nb
              else dv == old(dv) && dvsize == old(dvsize)
      ensures forall a :: a in old(trees.size) ==> old(trees.size)[mem - 16] <= old(trees.size)[a]
      ensures !NothingFits(old(C()), nb)
    {
      hide NothingFits;
      hide BI.TreeIndex, TL.TreeOk, TB.MapOk, SB.Listed, SB.Linked, ChunkOk, Apart, HasPrev, Binned, CoreOk, Live;
      hide LiveKept;
      var v, rsize := trees.LeastChunk(nb);
      InTree(C(), smalls.size, trees.size, v);
      trees.Unlink(v);
      mem := TakeFit(v, nb, true);
    }

    method MallocLarge(nb: nat) returns (mem: Addr)
      requires Valid() && nb % ALIGN == 0 && 256 <= nb < MAX_SIZE
      modifies this, smalls, trees
      ensures Valid()
      ensures if FromBins(old(C()), nb) then mem >= 16 else mem == 0
      ensures mem == 0 ==> C() == old(C())
      ensures mem != 0 ==> Served(old(C()), C(), mem - 16, nb) && LeastBinned(old(C()), mem - 16, nb)
      ensures mem != 0 ==> Leaves(old(C()), C(), mem - 16, nb)
      ensures mem != 0 ==> !NothingFits(old(C()), nb)
    {
      hide BI.TreeIndex, TL.TreeOk, TB.MapOk, SB.Listed, SB.Linked, ChunkOk, Apart, HasPrev, Binned, CoreOk, Live;
      hide Served, NothingFits, FromBins, LeastBinned;
      if trees.treemap != 0 {
        mem := TmallocLarge(nb);
      } else {
        mem := 0;
        NoTree();
        NoneInBins(C(), smalls.size, trees.size, nb);
        NoneFits(C(), nb);
      }
    }

    /** tmalloc_large: the best fitting tree chunk, unless the victim fits at least as well (lines 4438-4506). */
    method TmallocLarge(nb: nat) returns (mem: Addr)
      requires Valid() && nb % ALIGN == 0 && 256 <= nb < MAX_SIZE
      modifies this, smalls, trees
      ensures Valid()
      ensures if FromBins(old(C()), nb) then mem >= 16 else mem == 0
      ensures mem == 0 ==> C() == old(C())
      ensures mem != 0 ==> Served(old(C()), C(), mem - 16, nb) && LeastBinned(old(C()), mem - 16, nb)
      ensures mem != 0 ==> Leaves(old(C()), C(), mem - 16, nb)
      ensures mem != 0 ==> !NothingFits(old(C()), nb)
    {
      hide NothingFits, FromBins, LeastBinned;
      hide BI.TreeIndex, TL.TreeOk, TB.MapOk, SB.Listed, SB.Linked, ChunkOk, Apart, HasPrev, Binned, CoreOk, Live;
      hide LiveKept;
      mem := 0;
      SizesBelow(C());
      var v, rsize := trees.BestFit(nb);
      if v != 0 { InTree(C(), smalls.size, trees.size, v); }
      if v != 0 && rsize < TB.Sub64(dvsize, nb) {
        BestInBins(C(), smalls.size, trees.size, v, nb);
        trees.Unlink(v);
        mem := TakeFit(v, nb, false);
      } else {
        VictimFitsBest(C(), smalls.size, trees.size, v, nb);
      }
    }

    /** A fitting chunk in limbo is handed out, split if a minimal chunk is left over. */
    method TakeFit(p: Addr, nb: nat, victim: bool) returns (mem: Addr)
      requires ValidBut({p}) && IsFree(C(), p) && p != dv && nb % ALIGN == 0 && MIN_CHUNK <= nb <= head[p].size
      modifies this, smalls, trees
      ensures Valid() && mem == p + 16 && Served(old(C()), C(), p, nb)
      ensures top == old(top) && topsize == old(topsize)
      ensures if victim && old(head)[p].size - nb >= 32 then dv == p + nb && dvsize == old(head)[p].size - nb
              else dv == old(dv) && dvsize == old(dvsize)
      ensures !NothingFits(old(C()), nb)
    {
      hide BI.TreeIndex, TL.TreeOk, TB.MapOk, SB.Listed, SB.Linked, ChunkOk, Apart, HasPrev, Binned, CoreOk, Live;
      hide LiveKept;
      ghost var c := C();
      var rsize := head[p].size - nb;
      if rsize < MIN_CHUNK {
        TakeWhole(p, dv, dvsize);
      } else {
        var dv0 := dv;
        TakeSplit(p, nb, victim);
        if victim {
          BinOldVictim(dv0);
        } else {
          InsertChunk(p + nb, rsize);
        }
      }
      mem := p + 16;
    }

    /** Lines 5576-5594: the victim, split or used up. */
    method UseVictim(nb: nat) returns (mem: Addr)
      requires Valid() && nb % ALIGN == 0 && MIN_CHUNK <= nb <= dvsize
      modifies this
      ensures Valid() && mem == old(dv) + 16 && Served(old(C()), C(), mem - 16, nb)
      ensures top == old(top) && topsize == old(topsize)
      ensures if old(dvsize) - nb >= 32 then dv == old(dv) + nb && dvsize == old(dvsize) - nb
              else dv == 0 && dvsize == 0
      ensures !NothingFits(old(C()), nb)
    {
      hide BI.TreeIndex, TL.TreeOk, TB.MapOk, SB.Listed, SB.Linked, ChunkOk, Apart, HasPrev, Binned, CoreOk, Live;
      hide LiveKept;
      VictimStart(C());
      VictimApart(C(), smalls.size, trees.size);
      var p := dv;
      if dvsize - nb >= MIN_CHUNK {
        TakeSplit(p, nb, true);
      } else {
        TakeWhole(p, 0, 0);
      }
      mem := p + 16;
    }

    /** Lines 5596-5606: the low end of top. */
    method SplitTop(nb: nat) returns (mem: Addr)
      requires Valid() && nb % ALIGN == 0 && MIN_CHUNK <= nb < topsize
      modifies this
      ensures Valid() && mem == old(top) + 16 && top == old(top) + nb && topsize == old(topsize) - nb
      ensures dv == old(dv) && dvsize == old(dvsize)
      ensures Served(old(C()), C(), mem - 16, nb)
      ensures !NothingFits(old(C()), nb)
    {
      hide BI.TreeIndex, TL.TreeOk, TB.MapOk, SB.Listed, SB.Linked, ChunkOk, Apart, HasPrev, Binned, CoreOk, Live;
      hide UseTop, LiveKept;
      TopSummary(C(), smalls.size, trees.size, nb);
      mem := top + 16;
      WriteTop(nb);
    }

    method WriteTop(nb: nat)
      requires nb <= topsize
      modifies this`head, this`top, this`topsize, this`starts, this`prev
      ensures C() == UseTop(old(C()), nb) && top == old(top) + nb && topsize == old(topsize) - nb
    {
      var r := top + nb;
      head := head[top := Head(nb, true, true)][r := Head(topsize - nb, true, false)];
      starts := starts + {r};
      prev := prev[r := top];
      top, topsize := r, topsize - nb;
    }

    // ----- mspace_free -----

    method WriteMerge(q: Addr, size: nat, clear: bool, dv': Addr, dvsize': nat)
      requires size > 0 && q + size in head && (!clear ==> !head[q + size].pinuse)
      modifies this`head, this`foot, this`dv, this`dvsize, this`starts, this`prev
      ensures C() == Merge(old(C()), q, q + size, dv', dvsize') && dv == dv' && dvsize == dvsize'
    {
      var e := q + size;
      if clear {
        head := head[e := head[e].(pinuse := false)];
      }
      head := head[q := Head(size, true, false)];
      foot := foot[e := size];
      dv, dvsize := dv', dvsize';
      starts := set p | p in starts && !(q < p < e);
      prev := prev[e := q];
    }

    method WriteMergeTop(q: Addr, size: nat, dv': Addr, dvsize': nat)
      requires q + size == top
      modifies this`head, this`top, this`topsize, this`dv, this`dvsize, this`starts
      ensures C() == MergeTop(old(C()), q, dv', dvsize')
      ensures top == q && topsize == old(topsize) + size && dv == dv' && dvsize == dvsize'
    {
      topsize := topsize + size;
      top := q;
      head := head[q := Head(topsize, true, false)];
      dv, dvsize := dv', dvsize';
      starts := set p | p in starts && p <= q;
    }

    /** The free region from q up to its end becomes one free chunk, in its bin unless it is the victim. */
    method MergeFree(ghost p: Addr, q: Addr, size: nat, clear: bool, ghost limbo: set<Addr>)
      requires CoreOk(C()) && Region(C(), p, q, q + size) && limbo == RegionLimbo(C(), p, q, q + size)
      requires ValidBut(limbo) && q + size == BackOf(C(), p) && End(C(), p) != top
      requires IsChunk(C(), q + size) && head[q + size].cinuse && (!clear ==> !head[q + size].pinuse)
      modifies this, smalls, trees
      ensures Valid() && Returned(old(C()), C(), p) && Coalesced(old(C()), C(), p)
    {
      hide BI.TreeIndex, TL.TreeOk, TB.MapOk, SB.Listed, SB.Linked, ChunkOk, Apart, HasPrev, Binned, CoreOk, Live;
      hide Merge, Returned, RegionLimbo, Region;
      RegionOrder(C(), p, q, q + size);
      VictimInside(C(), p, q, q + size);
      FrontIs(C(), p, q, q + size);
      var inside := q <= dv < q + size;
      var dv', dvsize' := if inside then q else dv, if inside then size else dvsize;
      MergeSummary(C(), smalls.size, trees.size, limbo, p, q, q + size, dv', dvsize');
      WriteMerge(q, size, clear, dv', dvsize');
      if q != dv {
        InsertChunk(q, size);
      }
    }

    /** dispose_chunk, and mspace_free on a block: the chunk is merged with its free neighbours. */
    method Dispose(p: Addr, psize: nat)
      requires Valid() && p in Live(C()) && p in head && psize == head[p].size
      modifies this, smalls, trees
      ensures Valid() && Returned(old(C()), C(), p) && Coalesced(old(C()), C(), p)
    {
      hide BI.TreeIndex, TL.TreeOk, TB.MapOk, SB.Listed, SB.Linked, ChunkOk, Apart, HasPrev, Binned, CoreOk, Live;
      hide Returned, RegionLimbo, Region, MergeTop, Coalesced;
      Neighbours(C(), p);
      ghost var c := C();
      ghost var limbo: set<Addr> := {};
      var next := p + psize;
      var q, size := p, psize;
      if !head[p].pinuse {
        var prevsize := foot[p];
        q, size := p - prevsize, psize + prevsize;
        if q != dv {
          UnlinkChunk(q, prevsize, {});
          limbo := {q};
          assert {} + {q} == {q};
        } else if head[next].cinuse && head[next].pinuse {
          RegionUp(c, p, q);
          MergeFree(p, q, size, true, {});
          return;
        }
      }
      RegionUp(c, p, q);
      if !head[next].cinuse {
        if next == top {
          var dv', dvsize' := if q == dv then 0 else dv, if q == dv then 0 else dvsize;
          MergeTopSummary(c, smalls.size, trees.size, limbo, p, q, dv', dvsize');
          WriteMergeTop(q, size, dv', dvsize');
        } else {
          var nsize := head[next].size;
          if next != dv {
            UnlinkChunk(next, nsize, limbo);
            limbo := limbo + {next};
          }
          MergeFree(p, q, size + nsize, false, limbo);
        }
      } else {
        MergeFree(p, q, size, true, limbo);
      }
    }

    /** mspace_free: null is ignored; a block handed out is given back. */
    method Free(mem: Addr)
      requires Valid() && (mem != 0 ==> mem >= 16 && mem - 16 in Live(C()))
      modifies this, smalls, trees
      ensures Valid()
      ensures if mem == 0 then C() == old(C()) else Returned(old(C()), C(), mem - 16)
      ensures mem != 0 ==> Coalesced(old(C()), C(), mem - 16)
    {
      if mem != 0 {
        var p := mem - 16;
        Dispose(p, head[p].size);
      }
    }

    // ----- mspace_memalign -----

    method WriteCut(p: Addr, lead: nat)
      requires p in head && lead <= head[p].size && p + head[p].size in head && head[p + head[p].size].pinuse
      requires 0 < lead < head[p].size
      modifies this`head, this`starts, this`prev
      ensures C() == CutUsed(old(C()), p, lead)
    {
      var r, rsize := p + lead, head[p].size - lead;
      ghost var h := head;
      head := head[r := Head(rsize, true, true)];
      head := head[p := Head(lead, head[p].pinuse, true)];
      assert head == h[p := Head(lead, h[p].pinuse, true)][r := Head(rsize, true, true)];
      starts := starts + {r};
      prev := prev[r := p][r + rsize := r];
    }

    /** Lines 4939-4944: the low lead bytes of a live chunk are given back. */
    method GiveLeader(p: Addr, lead: nat)
      requires Valid() && p in Live(C()) && p in head && lead % ALIGN == 0 && MIN_CHUNK <= lead
      requires lead + MIN_CHUNK <= head[p].size
      modifies this, smalls, trees
      ensures Valid() && Live(C()) == old(Live(C())) - {p} + {p + lead} && p + lead !in old(Live(C()))
      ensures KeptBut(old(C()), C(), p) && p + lead in head && head[p + lead].size == old(head[p].size) - lead
    {
      hide BI.TreeIndex, TL.TreeOk, TB.MapOk, SB.Listed, SB.Linked, ChunkOk;
      hide Apart, HasPrev, Binned, CoreOk, Live, CutUsed;
      ghost var c, size := C(), head[p].size;
      CutSummary(c, smalls.size, trees.size, p, lead);
      WriteCut(p, lead);
      ghost var c1 := C();
      Dispose(p, lead);
      assert Live(C()) == Live(c) - {p} + {p + lead};
      InLive(c1, p + lead);
      InLive(C(), p + lead);
    }

    /** Lines 4951-4957: what a live chunk has beyond nb bytes is given back. */
    method GiveTail(p: Addr, nb: nat)
      requires Valid() && p in Live(C()) && p in head && nb % ALIGN == 0 && MIN_CHUNK <= nb
      requires nb + MIN_CHUNK <= head[p].size
      modifies this, smalls, trees
      ensures Valid() && Live(C()) == old(Live(C())) && KeptBut(old(C()), C(), p) && p in head && head[p].size == nb
    {
      hide BI.TreeIndex, TL.TreeOk, TB.MapOk, SB.Listed, SB.Linked, ChunkOk;
      hide Apart, HasPrev, Binned, CoreOk, Live, CutUsed;
      ghost var c := C();
      var rsize := head[p].size - nb;
      CutSummary(c, smalls.size, trees.size, p, nb);
      WriteCut(p, nb);
      ghost var c1 := C();
      InLive(c1, p);
      Dispose(p + nb, rsize);
      assert Live(C()) == Live(c);
      InLive(C(), p);
    }

    /**
     internal_memalign. The block starts at a multiple of a, the alignment rounded up to a power of
     two, and has room for the request; leader and tail are back in the heap.
     */
    method InternalMemalign(alignment: nat, bytes: nat) returns (mem: Addr, ghost a: nat)
      requires Valid() && alignment <= AL.HALF64 && bytes < MAX_SIZE
      modifies this, smalls, trees
      ensures Valid() && AL.RoundedUp(alignment, a) && a <= AL.HALF64
      ensures mem == 0 ==> C() == old(C())
      ensures mem == 0 <==> Unalignable(old(C()), bytes, a)
      ensures mem != 0 ==> mem >= 16 && mem % a == 0 && HandedOut(old(C()), C(), mem - 16)
      ensures mem != 0 ==> mem - 16 in head && Carved(old(C()), bytes, a, mem - 16, head[mem - 16].size)
      ensures mem != 0 ==> Request2Size(bytes) <= head[mem - 16].size <= Request2Size(bytes) + MIN_CHUNK
    {
      hide BI.TreeIndex, TL.TreeOk, TB.MapOk, SB.Listed, SB.Linked, ChunkOk, Apart, HasPrev, Binned, CoreOk, Live;
      hide And, Pow2, NothingFits, LiveKept, CannotServe, Leaves, Chosen, AlignedAt;
      ghost var c := C();
      mem := 0;
      var al := AL.RoundUp(alignment);
      a := al;
      if bytes < MAX_REQUEST - al {
        var nb := Request2Size(bytes);
        var req := nb + al + MIN_CHUNK - CHUNK_OVERHEAD;
        mem := Malloc(req);
        if mem != 0 {
          ghost var p0, s0 := mem - 16, head[mem - 16].size;
          mem := FitAligned(c, mem, al, nb);
          assert AlignedAt(p0, s0, a, nb, mem - 16, head[mem - 16].size);
          RoomLeft(p0, s0, a, nb, mem - 16, head[mem - 16].size);
        }
      }
    }

    /** Lines 4911-4962: the block is moved up to an aligned spot if need be, and trimmed. */
    method FitAligned(ghost c: Core, mem0: Addr, al: nat, nb: nat) returns (mem: Addr)
      requires Valid() && mem0 >= 16 && HandedOut(c, C(), mem0 - 16) && nb + al + MIN_CHUNK <= head[mem0 - 16].size
      requires AL.IsPower(al) && 32 <= al <= AL.HALF64 && nb % ALIGN == 0 && MIN_CHUNK <= nb
      modifies this, smalls, trees
      ensures Valid() && mem >= 16 && mem % al == 0 && HandedOut(c, C(), mem - 16)
      ensures AlignedAt(mem0 - 16, old(head[mem0 - 16].size), al, nb, mem - 16, head[mem - 16].size)
    {
      hide BI.TreeIndex, TL.TreeOk, TB.MapOk, SB.Listed, SB.Linked, ChunkOk, Apart, HasPrev, Binned, CoreOk, Live;
      hide And, AL.IsPower, KeptBut, LiveKept;
      var p := mem0 - 16;
      InLive(C(), p);
      AL.AndMaskOf(mem0, al);
      if And(mem0, al - 1) != 0 {
        var newp := AlignedSpot(p, al);
        ghost var c1, p1 := C(), p;
        GiveLeader(p, newp - p);
        Composed(c, c1, C(), p1, newp);
        p := newp;
      }
      var size := head[p].size;
      if size > nb + MIN_CHUNK {
        ghost var c2 := C();
        GiveTail(p, nb);
        assert Live(C()) == Live(c2) - {p} + {p};
        Composed(c, c2, C(), p, p);
      }
      mem := p + 16;
    }

    /** mspace_memalign. */
    method Memalign(alignment: nat, bytes: nat) returns (mem: Addr, ghost a: nat)
      requires Valid() && alignment <= AL.HALF64 && bytes < MAX_SIZE
      modifies this, smalls, trees
      ensures Valid() && (if alignment <= 16 then a == 16 else AL.RoundedUp(alignment, a))
      ensures mem != 0 ==> mem >= 16 && mem % a == 0 && HandedOut(old(C()), C(), mem - 16)
      ensures MemalignSays(old(C()), C(), alignment, bytes, a, mem)
    {
      hide BI.TreeIndex, TL.TreeOk, TB.MapOk, SB.Listed, SB.Linked, ChunkOk, Apart, HasPrev, Binned, CoreOk, Live;
      hide AL.RoundedUp, NothingFits, CannotServe, Unalignable, Leaves, Chosen, Carved;
      if alignment <= 16 {
        a := 16;
        mem := Malloc(bytes);
        if mem != 0 { InLive(C(), mem - 16); }
      } else {
        mem, a := InternalMemalign(alignment, bytes);
        RoundedPositive(alignment, a);
      }
    }

    // ----- what the bins say about the free chunks -----

    lemma SmallWord()
      requires Valid()
      ensures smalls.smallmap < WORD
    {}

    /** Chunk sizes are multiples of 16, so every other small bin is always empty. */
    lemma EvenBins()
      requires Valid()
      ensures forall i :: i in Marked(smalls.smallmap) ==> i % 2 == 0
    {
      hide BI.TreeIndex, TL.TreeOk, TB.MapOk, SB.Linked, ChunkOk, Apart, HasPrev, Binned, CoreOk, TB.TreeBins.Valid;
      forall i | i in Marked(smalls.smallmap)
        ensures i % 2 == 0
      {
        var a := smalls.lists[i][0];
        assert a in smalls.lists[i];
        InSmallBin(C(), smalls.size, trees.size, a);
      }
    }

    lemma NoSmallBin(nb: nat)
      requires Valid() && forall i :: i in Marked(smalls.smallmap) ==> i < nb / 8
      ensures forall a :: a in smalls.size ==> smalls.size[a] < nb
    {
      forall a | a in smalls.size
        ensures smalls.size[a] < nb
      {
        var i := smalls.size[a] / 8;
        assert i in Marked(smalls.smallmap);
      }
    }

    /** Every chunk in a small bin has its bin marked, and a size that is a multiple of 16. */
    lemma SmallMarks()
      requires Valid()
      ensures forall a :: a in smalls.size ==> smalls.size[a] / 8 in Marked(smalls.smallmap) && smalls.size[a] % 16 == 0
    {
      hide BI.TreeIndex, TL.TreeOk, TB.MapOk, SB.Linked, ChunkOk, Apart, HasPrev, Binned, CoreOk, TB.TreeBins.Valid;
      forall a | a in smalls.size
        ensures smalls.size[a] / 8 in Marked(smalls.smallmap) && smalls.size[a] % 16 == 0
      {
        InSmallBin(C(), smalls.size, trees.size, a);
      }
    }

    /** The first marked bin above a request that no bin meets exactly holds the smallest chunks that fit. */
    lemma SmallestAbove(leftbits: nat, i: nat, nb: nat)
      requires Valid() && nb % 16 == 0 && nb / 8 !in Marked(smalls.smallmap)
      requires Marked(leftbits) == set j | j in Marked(smalls.smallmap) && j > nb / 8
      requires i in Marked(leftbits) && forall j :: j in Marked(leftbits) ==> i <= j
      ensures 8 * i <= 256 && forall a :: a in smalls.size && nb <= smalls.size[a] ==> 8 * i <= smalls.size[a]
    {
      hide BI.TreeIndex, TL.TreeOk, TB.MapOk, SB.Linked, ChunkOk, Apart, HasPrev, Binned, CoreOk, TB.TreeBins.Valid;
      SmallMarks();
      var first := smalls.lists[i][0];
      assert first in smalls.lists[i];
      SmallSize(C(), smalls.size, trees.size, first);
      forall a | a in smalls.size && nb <= smalls.size[a]
        ensures 8 * i <= smalls.size[a]
      {
        var j: nat := smalls.size[a] / 8;
        assert j in Marked(leftbits);
      }
    }

    lemma NoTree()
      requires Valid() && trees.treemap == 0
      ensures trees.size == map[]
    {
      trees.EmptyTreeMap();
    }
  }

  /** One top chunk and empty bins meet the invariant. */
  lemma StartOk(c: Core, first: Addr, size: nat)
    requires first > 0 && first % ALIGN == 0 && size > 0 && first + size < MAX_SIZE
    requires c == Core(first, first + size, map[first := Head(size, true, false)], map[], first, size, 0, 0, {first},
                       map[])
    ensures CoreOk(c) && Binned(c, map[], map[], {}) && Live(c) == {}
  {}

  lemma FreeNotLive(c: Core, p: Addr)
    requires CoreOk(c) && IsFree(c, p)
    ensures p !in Live(c) && p in c.head && End(c, p) in c.head && p in c.starts
  {
    assert ChunkOk(c, p);
  }

  lemma WholeSummary(c: Core, small: map<Addr, nat>, large: map<Addr, nat>, p: Addr, dv: Addr, dvsize: nat)
    requires CoreOk(c) && Binned(c, small, large, {p}) && IsFree(c, p)
    requires (dv == c.dv && dvsize == c.dvsize && p != c.dv) || (p == c.dv && dv == 0 && dvsize == 0)
    ensures p in c.head && End(c, p) in c.head
    ensures var c' := UseWhole(c, p, dv, dvsize);
            && CoreOk(c') && Binned(c', small, large, {})
            && Live(c') == Live(c) + {p} && p !in Live(c) && LiveKept(c, c') && p in c'.head
              && c'.head[p].size == c.head[p].size
  {
    hide ChunkOk, Apart, HasPrev, Binned;
    FreeNotLive(c, p);
    EndNotFree(c, p);
    UseWholeOk(c, p, dv, dvsize);
    BinnedUseWhole(c, small, large, p, dv, dvsize);
  }

  lemma SplitSummary(c: Core, small: map<Addr, nat>, large: map<Addr, nat>, p: Addr, nb: nat, dv: Addr, dvsize: nat)
    requires CoreOk(c) && Binned(c, small, large, {p}) && IsFree(c, p)
    requires nb % ALIGN == 0 && MIN_CHUNK <= nb && nb + MIN_CHUNK <= c.head[p].size
    requires (dv == c.dv && dvsize == c.dvsize && p != c.dv) || (dv == p + nb && dvsize == c.head[p].size - nb)
    ensures var c' := UseSplit(c, p, nb, dv, dvsize);
            && CoreOk(c') && Binned(c', small, large, SplitLimbo(c, p, nb, dv))
            && Live(c') == Live(c) + {p} && p !in Live(c) && LiveKept(c, c') && p in c'.head && c'.head[p].size == nb
            && (dv != p + nb ==>
                  Binnable(c', p + nb) && p + nb in c'.head && c'.head[p + nb].size == c.head[p].size - nb)
            && (dv == p + nb && c.dv != 0 && p != c.dv ==> Binnable(c', c.dv))
    ensures c.dv != p + nb
  {
    hide ChunkOk, Apart, HasPrev, Binned;
    UseSplitOk(c, p, nb, dv, dvsize);
    BinnedUseSplit(c, small, large, p, nb, dv, dvsize);
    FreeNotLive(c, p);
    KeptBySplit(c, p, nb, dv, dvsize);
  }

  lemma KeptBySplit(c: Core, p: Addr, nb: nat, dv: Addr, dvsize: nat)
    requires p in c.head && nb <= c.head[p].size && p !in Live(c) && p + nb !in c.starts
    ensures LiveKept(c, UseSplit(c, p, nb, dv, dvsize))
  {}

  lemma FreeSize(c: Core, p: Addr)
    requires CoreOk(c) && IsFree(c, p)
    ensures c.head[p].size % 16 == 0 && MIN_CHUNK <= c.head[p].size < MAX_SIZE && p > 0
  {
    assert ChunkOk(c, p) && Apart(c, p, c.top);
  }

  lemma SizesBelow(c: Core)
    requires CoreOk(c)
    ensures c.dvsize < MAX_SIZE - 1 && c.topsize < MAX_SIZE - 1 && (c.dv == 0 <==> c.dvsize == 0)
  {
    if c.dv != 0 { assert Apart(c, c.dv, c.top); }
  }

  /** In a space, where chunks are multiples of 16, what fits the padded request is what has room for the request. */
  lemma ServesOrNot(c: Core, bytes: nat)
    requires CoreOk(c)
    ensures NothingFits(c, Request2Size(bytes)) <==> CannotServe(c, bytes)
  {
    hide ChunkOk, Apart, HasPrev;
    forall q: Addr | IsFree(c, q) ensures c.head[q].size % 16 == 0 && c.head[q].size >= 32 { FreeSize(c, q); }
  }

  lemma VictimAndTop(c: Core)
    requires CoreOk(c)
    ensures c.top in c.head && (c.dv != 0 ==> c.dv in c.head)
  {}

  lemma VictimLeaves(c: Core, c': Core, nb: nat)
    requires c.dv in c.head && !FromBins(c, nb) && nb <= c.dvsize && c'.top == c.top && c'.topsize == c.topsize
    requires if c.dvsize - nb >= 32 then c'.dv == c.dv + nb && c'.dvsize == c.dvsize - nb
             else c'.dv == 0 && c'.dvsize == 0
    ensures Leaves(c, c', c.dv, nb)
  {}

  lemma TopLeaves(c: Core, c': Core, nb: nat)
    requires c.top in c.head && !FromBins(c, nb) && c.dvsize < nb <= c.topsize && c'.dv == c.dv && c'.dvsize == c.dvsize
    requires c'.top == c.top + nb && c'.topsize == c.topsize - nb
    ensures Leaves(c, c', c.top, nb)
  {}

  lemma BinLeaves(c: Core, c': Core, p: Addr, nb: nat)
    requires p in c.head && FromBins(c, nb) && c'.top == c.top && c'.topsize == c.topsize
    requires if nb < 256 && c.head[p].size - nb >= 32 then c'.dv == p + nb && c'.dvsize == c.head[p].size - nb
             else c'.dv == c.dv && c'.dvsize == c.dvsize
    ensures Leaves(c, c', p, nb)
  {}

  lemma FitsNowhere(c: Core, nb: nat)
    requires CoreOk(c) && !FromBins(c, nb) && c.dvsize < nb && c.topsize <= nb
    ensures NothingFits(c, nb)
  {
    hide ChunkOk, Apart, HasPrev;
    forall q: Addr | IsFree(c, q)
      ensures c.head[q].size < nb
    {
      if q != c.dv { assert !Fitting(c, q, nb); }
    }
  }

  lemma NoneInBins(c: Core, small: map<Addr, nat>, large: map<Addr, nat>, nb: nat)
    requires Binned(c, small, large, {})
    requires nb >= 256 || forall a :: a in small ==> small[a] < nb
    requires forall a :: a in large ==> large[a] < nb
    ensures NoneBinned(c, nb)
  {
    forall q: Addr | Binnable(c, q)
      ensures c.head[q].size < nb
    {
      assert InBin(c, {}, q);
    }
  }

  lemma BestInBins(c: Core, small: map<Addr, nat>, large: map<Addr, nat>, v: Addr, nb: nat)
    requires Binned(c, small, large, {}) && v in large && 256 <= nb <= large[v] && large[v] < MAX_SIZE
    requires c.dvsize < MAX_SIZE && nb < MAX_SIZE
    requires forall a :: a in large && nb <= large[a] ==> large[v] <= large[a]
    requires large[v] - nb < TB.Sub64(c.dvsize, nb)
    ensures FromBins(c, nb) && LeastBinned(c, v, nb)
  {
    assert InBin(c, {}, v) && Fitting(c, v, nb);
    forall q: Addr | Fitting(c, q, nb)
      ensures c.head[v].size <= c.head[q].size
    {
      assert InBin(c, {}, q);
    }
  }

  /** The victim fits at least as well as the best chunk of the trees, or nothing in the trees fits. */
  lemma VictimFitsBest(c: Core, small: map<Addr, nat>, large: map<Addr, nat>, v: Addr, nb: nat)
    requires Binned(c, small, large, {}) && 256 <= nb < MAX_SIZE && c.dvsize < MAX_SIZE - 1
    requires if v == 0 then forall a :: a in large ==> large[a] < nb
             else v in large && nb <= large[v] < MAX_SIZE && large[v] - nb >= TB.Sub64(c.dvsize, nb)
    requires v != 0 ==> forall a :: a in large && nb <= large[a] ==> large[v] <= large[a]
    ensures !FromBins(c, nb)
  {
    forall q: Addr | Fitting(c, q, nb)
      ensures nb <= c.dvsize <= c.head[q].size
    {
      assert InBin(c, {}, q);
    }
  }

  lemma ExactFits(c: Core, p: Addr, nb: nat)
    requires Binnable(c, p) && c.head[p].size == nb < 256
    ensures FromBins(c, nb) && LeastBinned(c, p, nb)
  {
    assert Fitting(c, p, nb);
  }

  lemma LeastFits(c: Core, p: Addr, nb: nat)
    requires Fitting(c, p, nb) && nb > c.dvsize
    requires forall q: Addr :: Fitting(c, q, nb) ==> c.head[p].size <= c.head[q].size
    ensures FromBins(c, nb) && LeastBinned(c, p, nb)
  {}

  lemma NoneFits(c: Core, nb: nat)
    requires NoneBinned(c, nb)
    ensures !FromBins(c, nb)
  {}

  /** No marked bin below 8 n bytes: every fitting chunk has at least n bytes. */
  lemma LeastSmall(c: Core, small: map<Addr, nat>, large: map<Addr, nat>, n: nat, nb: nat)
    requires Binned(c, small, large, {}) && n <= 256 && forall a :: a in small && nb <= small[a] ==> n <= small[a]
    ensures forall q: Addr :: Fitting(c, q, nb) ==> n <= c.head[q].size
  {
    forall q: Addr | Fitting(c, q, nb)
      ensures n <= c.head[q].size
    {
      assert InBin(c, {}, q);
    }
  }

  lemma LeastLarge(c: Core, small: map<Addr, nat>, large: map<Addr, nat>, p: Addr, nb: nat)
    requires Binned(c, small, large, {}) && nb < 256 && (forall a :: a in small ==> small[a] < nb)
    requires p in large && forall a :: a in large ==> large[p] <= large[a]
    ensures Fitting(c, p, nb) && forall q: Addr :: Fitting(c, q, nb) ==> c.head[p].size <= c.head[q].size
  {
    assert InBin(c, {}, p);
    forall q: Addr | Fitting(c, q, nb)
      ensures c.head[p].size <= c.head[q].size
    {
      assert InBin(c, {}, q);
    }
  }

  lemma NoExact(c: Core, small: map<Addr, nat>, large: map<Addr, nat>, nb: nat)
    requires Binned(c, small, large, {}) && nb <= c.dvsize && nb < 256 && forall a :: a in small ==> small[a] != nb
    ensures !FromBins(c, nb)
  {
    forall q: Addr | Fitting(c, q, nb)
      ensures c.head[q].size != nb
    {
      assert InBin(c, {}, q);
    }
  }

  lemma VictimApart(c: Core, small: map<Addr, nat>, large: map<Addr, nat>)
    requires Binned(c, small, large, {})
    ensures Binned(c, small, large, {c.dv})
  {
    forall p: Addr
      ensures SameInBin(c, {}, c, {c.dv}, p)
    {
    }
    BinsKept(c, {}, c, {c.dv}, small, large);
  }

  lemma TopSummary(c: Core, small: map<Addr, nat>, large: map<Addr, nat>, nb: nat)
    requires CoreOk(c) && Binned(c, small, large, {}) && nb % ALIGN == 0 && MIN_CHUNK <= nb < c.topsize
    ensures var c' := UseTop(c, nb);
            && CoreOk(c') && Binned(c', small, large, {}) && Served(c, c', c.top, nb)
  {
    hide ChunkOk, Apart, HasPrev, Binned;
    UseTopOk(c, nb);
    BinnedUseTop(c, small, large, nb);
  }

  lemma InItsBin(c: Core, small: map<Addr, nat>, large: map<Addr, nat>, limbo: set<Addr>, p: Addr)
    requires Binned(c, small, large, limbo) && Binnable(c, p) && p !in limbo
    ensures if c.head[p].size < 256 then p in small && small[p] == c.head[p].size
            else p in large && large[p] == c.head[p].size
  {
    assert InBin(c, limbo, p);
  }

  lemma InSmallBin(c: Core, small: map<Addr, nat>, large: map<Addr, nat>, p: Addr)
    requires CoreOk(c) && Binned(c, small, large, {}) && p in small
    ensures Binnable(c, p) && c.head[p].size == small[p] && small[p] % 16 == 0 && p > 0
    ensures Binned(c, small - {p}, large, {p})
  {
    hide ChunkOk, Apart, HasPrev;
    BinnedUnlink(c, small, large, {}, p);
    FreeSize(c, p);
    assert {} + {p} == {p};
  }

  lemma SmallSize(c: Core, small: map<Addr, nat>, large: map<Addr, nat>, p: Addr)
    requires Binned(c, small, large, {}) && p in small
    ensures small[p] < 256
  {}

  lemma InTree(c: Core, small: map<Addr, nat>, large: map<Addr, nat>, p: Addr)
    requires CoreOk(c) && Binned(c, small, large, {}) && p in large
    ensures Binnable(c, p) && c.head[p].size == large[p] && 256 <= large[p] < MAX_SIZE && p > 0
    ensures Binned(c, small, large - {p}, {p})
  {
    hide ChunkOk, Apart, HasPrev;
    BinnedUnlink(c, small, large, {}, p);
    FreeSize(c, p);
    assert {} + {p} == {p};
  }

  // ----- giving back -----

  /** The chunk p is no longer live; every other live block is as before. */
  ghost predicate Returned(c: Core, c': Core, p: Addr) {
    Live(c') == Live(c) - {p} && LiveKept(c, c') && c'.base == c.base && c'.limit == c.limit
  }

  /** Where the free memory around p begins, and the end of the chunk behind p if that is free, too. */
  ghost function FrontOf(c: Core, p: Addr): int
    requires p in c.head
  {
    if c.head[p].pinuse || p !in c.foot then p else p - c.foot[p]
  }

  ghost function BackOf(c: Core, p: Addr): int
    requires p in c.head
  {
    var n := End(c, p);
    if n in c.head && n != c.top && !c.head[n].cinuse then End(c, n) else n
  }

  /**
   What becomes of p: with the free chunks that touch it, it joins top if it reaches top,
     takes the place of the victim if
   the victim is one of them, and is a chunk in its bin otherwise.
   */
  ghost predicate Coalesced(c: Core, c': Core, p: Addr) {
    && p in c.head
    && var q, e := FrontOf(c, p), BackOf(c, p);
       if End(c, p) == c.top then
         && c'.top == q && c'.topsize == c.topsize + (c.top - q)
         && if c.dv == q then c'.dv == 0 && c'.dvsize == 0 else c'.dv == c.dv && c'.dvsize == c.dvsize
       else
         && c'.top == c.top && c'.topsize == c.topsize
         && q >= 0 && q in c'.head && c'.head[q].size == e - q && IsFree(c', q)
         && if c.dv == q || c.dv == End(c, p) then c'.dv == q && c'.dvsize == e - q
            else c'.dv == c.dv && c'.dvsize == c.dvsize
  }

  /** From q to e there is p and the free chunks that touch it on the left and, perhaps, on the right. */
  ghost predicate Region(c: Core, p: Addr, q: Addr, e: Addr) {
    && p in Live(c) && p in c.head
    && (if q == p then c.head[p].pinuse else IsFree(c, q) && End(c, q) == p)
    && (e == End(c, p) || (IsFree(c, End(c, p)) && e == End(c, End(c, p))))
  }

  ghost function RegionLimbo(c: Core, p: Addr, q: Addr, e: Addr): set<Addr>
    requires p in c.head
  {
    (if q != p && q != c.dv then {q} else {}) + (if End(c, p) < e && End(c, p) != c.dv then {End(c, p)} else {})
  }

  lemma RegionOrder(c: Core, p: Addr, q: Addr, e: Addr)
    requires CoreOk(c) && Region(c, p, q, e)
    ensures q <= p < End(c, p) <= e && IsChunk(c, q) && c.head[q].pinuse && 0 < q
    ensures e in c.starts
  {
    assert ChunkOk(c, p) && ChunkOk(c, q) && ChunkOk(c, End(c, p));
  }

  lemma RegionChunks(c: Core, p: Addr, q: Addr, e: Addr, x: Addr)
    requires CoreOk(c) && Region(c, p, q, e) && x in c.starts && q <= x < e
    ensures x == q || x == p || (x == End(c, p) && x < e && IsFree(c, x))
  {
    RegionOrder(c, p, q, e);
    assert Apart(c, q, x) && Apart(c, p, x) && Apart(c, End(c, p), x);
    assert ChunkOk(c, p);
  }

  lemma Neighbours(c: Core, p: Addr)
    requires CoreOk(c) && p in Live(c)
    ensures IsChunk(c, p) && c.head[p].size > 0 && End(c, p) in c.head && End(c, p) in c.starts
    ensures c.head[End(c, p)].pinuse
    ensures !c.head[p].pinuse ==>
              && p in c.foot && c.foot[p] <= p && IsFree(c, p - c.foot[p])
              && c.head[p - c.foot[p]].size == c.foot[p] > 0
    ensures !c.head[End(c, p)].cinuse && End(c, p) != c.top ==>
              && IsFree(c, End(c, p))
              && IsChunk(c, End(c, End(c, p))) && c.head[End(c, End(c, p))].cinuse && !c.head[End(c, End(c, p))].pinuse
    ensures c.head[End(c, p)].cinuse ==> IsChunk(c, End(c, p))
  {
    assert ChunkOk(c, p) && HasPrev(c, p) && ChunkOk(c, End(c, p));
    if !c.head[p].pinuse { assert ChunkOk(c, c.prev[p]); }
  }

  lemma FrontIs(c: Core, p: Addr, q: Addr, e: Addr)
    requires CoreOk(c) && Region(c, p, q, e)
    ensures p in c.head && q == FrontOf(c, p)
  {
    hide Apart, HasPrev;
    Neighbours(c, p);
    assert ChunkOk(c, q);
  }

  /** The victim is in the region exactly when it is one of the two chunks that touch p. */
  lemma VictimInside(c: Core, p: Addr, q: Addr, e: Addr)
    requires CoreOk(c) && Region(c, p, q, e) && e == BackOf(c, p) && End(c, p) != c.top
    ensures q <= c.dv < e <==> c.dv == q || c.dv == End(c, p)
  {
    hide Apart, HasPrev;
    RegionOrder(c, p, q, e);
    VictimStart(c);
    Neighbours(c, p);
    assert ChunkOk(c, q) && ChunkOk(c, End(c, p)) && ChunkOk(c, p);
    if q <= c.dv < e { RegionChunks(c, p, q, e, c.dv); }
  }

  /** What is known of the region once the left side is settled. */
  lemma RegionUp(c: Core, p: Addr, q: Addr)
    requires CoreOk(c) && p in Live(c) && p in c.head && End(c, p) in c.head
    requires if c.head[p].pinuse then q == p else IsFree(c, q) && End(c, q) == p
    ensures Region(c, p, q, End(c, p)) && RegionLimbo(c, p, q, End(c, p)) == if q != p && q != c.dv then {q} else {}
    ensures IsFree(c, End(c, p)) ==>
              && Region(c, p, q, End(c, End(c, p)))
              && RegionLimbo(c, p, q, End(c, End(c, p))) ==
                 RegionLimbo(c, p, q, End(c, p)) + if End(c, p) == c.dv then {} else {End(c, p)}
    ensures q != p ==> End(c, p) != q
  {
    hide Apart, HasPrev;
    if IsFree(c, End(c, p)) { assert ChunkOk(c, End(c, p)); }
    assert ChunkOk(c, p) && ChunkOk(c, q);
  }

  lemma MergeSummary(c: Core, small: map<Addr, nat>, large: map<Addr, nat>, limbo: set<Addr>, p: Addr, q: Addr, e: Addr,
                     dv: Addr, dvsize: nat)
    requires CoreOk(c) && Region(c, p, q, e) && limbo == RegionLimbo(c, p, q, e) && Binned(c, small, large, limbo)
    requires q < e && IsChunk(c, e) && c.head[e].cinuse && VictimMoves(c, q, e, dv, dvsize)
    ensures var c' := Merge(c, q, e, dv, dvsize);
            && CoreOk(c') && Binned(c', small, large, if dv == q then {} else {q}) && Returned(c, c', p)
            && (dv != q ==> Binnable(c', q)) && IsFree(c', q) && q in c'.head && c'.head[q].size == e - q
  {
    hide ChunkOk, Apart, HasPrev, Binned, CoreOk, Merge;
    RegionOrder(c, p, q, e);
    MergeOk(c, q, e, dv, dvsize);
    forall x: Addr | x in c.starts && q <= x < e
      ensures x == q || x == p || (x == End(c, p) && x < e && IsFree(c, x))
    {
      RegionChunks(c, p, q, e, x);
    }
    BinnedMerge(c, small, large, limbo, q, e, dv, dvsize);
    MergeKeeps(c, p, q, e, dv, dvsize);
  }

  lemma MergeKeeps(c: Core, p: Addr, q: Addr, e: Addr, dv: Addr, dvsize: nat)
    requires CoreOk(c) && IsChunk(c, q) && q < e && IsChunk(c, e) && q <= p < e && p in Live(c)
    requires forall x: Addr :: x in c.starts && q <= x < e ==> x == p || IsFree(c, x)
    ensures var c' := Merge(c, q, e, dv, dvsize);
            && (set x | x in Live(c) && !(q <= x < e)) == Live(c) - {p}
            && LiveKept(c, c') && c'.base == c.base && c'.limit == c.limit && (dv != q ==> Binnable(c', q))
            && q in c'.head && c'.head[q].size == e - q && IsFree(c', q)
  {
    hide ChunkOk, Apart, HasPrev;
    assert c.top in c.starts && e <= c.top;
  }

  lemma MergeTopSummary(c: Core, small: map<Addr, nat>, large: map<Addr, nat>, limbo: set<Addr>, p: Addr, q: Addr,
                        dv: Addr, dvsize: nat)
    requires CoreOk(c) && Region(c, p, q, c.top) && End(c, p) == c.top && limbo == RegionLimbo(c, p, q, c.top)
    requires Binned(c, small, large, limbo)
    requires if q == c.dv then dv == 0 && dvsize == 0 else dv == c.dv && dvsize == c.dvsize
    ensures q <= c.top
    ensures var c' := MergeTop(c, q, dv, dvsize);
            && CoreOk(c') && Binned(c', small, large, {}) && Returned(c, c', p) && Coalesced(c, c', p)
  {
    hide ChunkOk, Apart, HasPrev, Binned, CoreOk;
    RegionOrder(c, p, q, c.top);
    PositiveStarts(c);
    VictimStart(c);
    forall x: Addr | x in c.starts && q <= x < c.top
      ensures x == q || x == p
    {
      RegionChunks(c, p, q, c.top, x);
    }
    assert q <= c.dv ==> c.dv == q;
    FrontIs(c, p, q, c.top);
    MergeTopOk(c, q, dv, dvsize);
    BinnedMergeTop(c, small, large, limbo, q, dv, dvsize);
  }

  // ----- aligned blocks -----

  /** The request cannot be met with room to move past a leader of 32 bytes to a multiple of a. */
  ghost predicate Unalignable(c: Core, bytes: nat, a: nat) {
    var req := Request2Size(bytes) + a + 24;
    bytes + a >= 0xFFFF_FFFF_FFFF_FF80 || req >= 0xFFFF_FFFF_FFFF_FF80 || CannotServe(c, req)
  }

  /**
   Out of a chunk of s0 bytes at p0, the chunk of s bytes at p for a request of nb: it starts at p0 if that is aligned,
   or else at the first aligned spot that leaves a leader of 32 bytes, and is cut to nb if more than 32 bytes are over.
   */
  ghost predicate AlignedAt(p0: Addr, s0: nat, a: nat, nb: nat, p: Addr, s: nat) {
    && a > 0 && (p + 16) % a == 0
    && (if (p0 + 16) % a == 0 then p == p0 else p0 + 32 <= p < p0 + 32 + a)
    && s == if p0 + s0 - p > nb + 32 then nb else p0 + s0 - p
  }

  lemma RoomLeft(p0: Addr, s0: nat, a: nat, nb: nat, p: Addr, s: nat)
    requires AlignedAt(p0, s0, a, nb, p, s) && s0 >= nb + a + 32
    ensures nb <= s <= nb + 32
  {}

  /** An aligned chunk is carved out of the chunk that malloc would choose for the larger request. */
  ghost predicate Carved(c: Core, bytes: nat, a: nat, p: Addr, s: nat) {
    var nb := Request2Size(bytes);
    var room := Request2Size(nb + a + 24);
    exists p0, s0 :: Chosen(c, p0, room) && room <= s0 < room + 32 && AlignedAt(p0, s0, a, nb, p, s)
  }

  ghost predicate KeptBut(c: Core, c': Core, p: Addr) {
    forall q :: q in Live(c) && q in Live(c') && q != p ==>
      q in c.head && q in c'.head && c'.head[q].size == c.head[q].size
  }

  lemma InLive(c: Core, p: Addr)
    requires CoreOk(c) && p in Live(c)
    ensures IsChunk(c, p) && p in c.head && p % ALIGN == 0 && p > 0 && End(c, p) < MAX_SIZE
    ensures End(c, p) in c.head && c.head[End(c, p)].pinuse
  {
    assert ChunkOk(c, p) && Apart(c, p, c.top);
  }

  lemma CutSummary(c: Core, small: map<Addr, nat>, large: map<Addr, nat>, p: Addr, lead: nat)
    requires CoreOk(c) && Binned(c, small, large, {}) && p in Live(c)
    requires lead % ALIGN == 0 && MIN_CHUNK <= lead && lead + MIN_CHUNK <= c.head[p].size
    ensures End(c, p) in c.head && c.head[End(c, p)].pinuse
    ensures var c' := CutUsed(c, p, lead);
            && CoreOk(c') && Binned(c', small, large, {}) && Live(c') == Live(c) + {p + lead} && p + lead !in Live(c)
            && KeptBut(c, c', p) && p in c'.head && c'.head[p].size == lead
            && p + lead in c'.head && c'.head[p + lead].size == c.head[p].size - lead
  {
    hide ChunkOk, Apart, HasPrev, Binned;
    InLive(c, p);
    CutUsedOk(c, p, lead);
    BinnedCutUsed(c, small, large, p, lead);
  }

  /**
   Lines 4916-4929: the aligned spot leaves a leader of at least a minimal chunk, and the chunk is long
   enough for it.
   */
  method AlignedSpot(p: Addr, a: nat) returns (pos: Addr)
    requires p % 16 == 0 && AL.IsPower(a) && 32 <= a <= AL.HALF64 && p + 16 + a < MAX_SIZE && !AL.IsMultiple(p + 16, a)
    ensures AL.IsMultiple(pos + 16, a) && p + MIN_CHUNK <= pos <= p + a + 16 && (pos - p) % 16 == 0
  {
    hide And, AL.IsPower, AL.IsMultiple;
    var x := p + 16 + a - 1;
    ghost var y := AL.Masked(x, a);
    var br := And(x, MAX_SIZE - a) - 16;
    assert br + 16 == y && br != p;
    Sixteens(y, p, a);
    pos := if br - p >= MIN_CHUNK then br else br + a;
    assert pos + 16 == if br - p >= MIN_CHUNK then y else y + a;
  }

  lemma Sixteens(y: nat, p: nat, a: nat)
    requires y % 16 == 0 && p % 16 == 0 && a % 16 == 0
    ensures (y - 16 - p) % 16 == 0 && (y - 16 + a - p) % 16 == 0 && (y > p + 16 ==> y >= p + 32)
  {}

  /** Steps that only move or shrink the chunk that was handed out add up to handing out the last one. */
  lemma Composed(c: Core, c1: Core, c2: Core, p1: Addr, p2: Addr)
    requires HandedOut(c, c1, p1) && (p2 == p1 || p2 !in Live(c1)) && p2 in c2.head
    requires Live(c2) == Live(c1) - {p1} + {p2} && KeptBut(c1, c2, p1)
    ensures HandedOut(c, c2, p2)
  {
    hide Live;
    assert Live(c2) == Live(c) + {p2};
  }

  // ----- whole runs -----

  datatype Op = Allocate(bytes: nat) | AllocateAligned(alignment: nat, bytes: nat) | GiveBack(index: nat)

  /** The chunks a program holds are the live ones, each once. */
  ghost predicate Holds(c: Core, held: seq<Addr>) {
    && (forall p: Addr :: p in Live(c) <==> p in held)
    && (forall i, j :: 0 <= i < j < |held| ==> held[i] != held[j])
  }

  lemma HoldMore(c: Core, c': Core, held: seq<Addr>, p: Addr)
    requires Holds(c, held) && HandedOut(c, c', p)
    ensures Holds(c', held + [p])
  {
    hide Live, LiveKept;
  }

  lemma HoldLess(c: Core, c': Core, held: seq<Addr>, i: nat)
    requires Holds(c, held) && i < |held| && Returned(c, c', held[i])
    ensures Holds(c', held[..i] + held[i + 1..])
  {
    hide Live, LiveKept;
    var held' := held[..i] + held[i + 1..];
    forall k | 0 <= k < |held| && k != i
      ensures held[k] in held' && held[k] != held[i]
    {
      assert held'[if k < i then k else k - 1] == held[k];
    }
  }

  /** What mspace_malloc says of the space before and after. */
  ghost predicate MallocSays(c: Core, c': Core, bytes: nat, mem: Addr) {
    var nb := Request2Size(bytes);
    if mem == 0 then c' == c && (bytes >= 0xFFFF_FFFF_FFFF_FF80 || CannotServe(c, bytes))
    else
      && mem >= 16 && bytes < 0xFFFF_FFFF_FFFF_FF80 && !CannotServe(c, bytes)
      && Served(c, c', mem - 16, nb) && Chosen(c, mem - 16, nb) && Leaves(c, c', mem - 16, nb)
  }

  /** The same for mspace_memalign, with a the alignment rounded up. */
  ghost predicate MemalignSays(c: Core, c': Core, alignment: nat, bytes: nat, a: nat, mem: Addr) {
    && (if alignment <= 16 then a == 16 else AL.RoundedUp(alignment, a))
    && if alignment <= 16 then MallocSays(c, c', bytes, mem)
       else if mem == 0 then c' == c && Unalignable(c, bytes, a)
       else
         && mem >= 16 && a > 0 && mem % a == 0 && !Unalignable(c, bytes, a) && HandedOut(c, c', mem - 16)
         && Carved(c, bytes, a, mem - 16, c'.head[mem - 16].size)
         && Request2Size(bytes) <= c'.head[mem - 16].size <= Request2Size(bytes) + MIN_CHUNK
  }

  /** A space and the chunks the program holds of it, each once. */
  datatype Moment = Moment(c: Core, held: seq<Addr>)

  function WithBlock(held: seq<Addr>, mem: Addr): seq<Addr> {
    if mem < 16 then held else held + [mem - 16]
  }

  /** What an operation replies and does. */
  ghost predicate StepSays(m: Moment, op: Op, mem: Addr, m': Moment) {
    match op
    case Allocate(bytes) => MallocSays(m.c, m'.c, bytes, mem) && m'.held == WithBlock(m.held, mem)
    case AllocateAligned(alignment, bytes) =>
      (exists a :: MemalignSays(m.c, m'.c, alignment, bytes, a, mem)) && m'.held == WithBlock(m.held, mem)
    case GiveBack(i) =>
      && mem == 0
      && if i < |m.held| then
           && Returned(m.c, m'.c, m.held[i]) && Coalesced(m.c, m'.c, m.held[i])
           && m'.held == m.held[..i] + m.held[i + 1..]
         else m' == m
  }

  method Perform(m: Mspace, op: Op, held: seq<Addr>) returns (mem: Addr, held': seq<Addr>)
    requires m.Valid() && Holds(m.C(), held) && (!op.GiveBack? ==> op.bytes < MAX_SIZE)
    requires op.AllocateAligned? ==> op.alignment <= AL.HALF64
    modifies m, m.smalls, m.trees
    ensures m.Valid() && Holds(m.C(), held') && StepSays(old(Moment(m.C(), held)), op, mem, Moment(m.C(), held'))
  {
    hide BI.TreeIndex, TL.TreeOk, TB.MapOk, SB.Listed, SB.Linked, ChunkOk, Apart, HasPrev, Binned, Live, LiveKept;
    hide AL.RoundedUp, NothingFits, Holds, Chosen, CoreOk, CannotServe, Unalignable, Leaves, Coalesced, Carved;
    ghost var c := m.C();
    match op
    case Allocate(bytes) =>
      mem := m.Malloc(bytes);
      if mem != 0 { HoldMore(c, m.C(), held, mem - 16); }
      held' := WithBlock(held, mem);
    case AllocateAligned(alignment, bytes) =>
      ghost var a;
      mem, a := m.Memalign(alignment, bytes);
      if mem != 0 { HoldMore(c, m.C(), held, mem - 16); }
      held' := WithBlock(held, mem);
      if alignment > 16 { RoundedPositive(alignment, a); }
      assert MemalignSays(c, m.C(), alignment, bytes, a, mem);
    case GiveBack(i) =>
      mem, held' := 0, held;
      if i < |held| {
        HoldsAt(c, held, i);
        m.Free(held[i] + 16);
        HoldLess(c, m.C(), held, i);
        held' := held[..i] + held[i + 1..];
      }
  }

  /**
   Every run of allocations and frees: each operation does what its contract says to the space the one before it left;
   at every point the program holds exactly the live chunks, and the sizes of all chunks add up to the segment; and
   whenever everything has been given back the segment is one top chunk again.
   */
  method Run(first: Addr, size: nat, ops: seq<Op>) returns (replies: seq<Addr>, ghost moments: seq<Moment>)
    requires first > 0 && first % ALIGN == 0 && size > 0 && first + size < MAX_SIZE
    requires forall i :: 0 <= i < |ops| && !ops[i].GiveBack? ==> ops[i].bytes < MAX_SIZE
    requires forall i :: 0 <= i < |ops| && ops[i].AllocateAligned? ==> ops[i].alignment <= AL.HALF64
    ensures |replies| == |ops| && |moments| == |ops| + 1
    ensures moments[0].held == [] && moments[0].c.base == first && moments[0].c.limit == first + size
    ensures moments[0].c.topsize == size && moments[0].c.dv == 0 && Live(moments[0].c) == {}
    ensures forall k :: 0 <= k < |ops| ==> StepSays(moments[k], ops[k], replies[k], moments[k + 1])
    ensures forall k :: 0 <= k <= |ops| ==> RunOk(moments[k])
  {
    hide BI.TreeIndex, TL.TreeOk, TB.MapOk, SB.Listed, SB.Linked, ChunkOk, Apart, HasPrev, Binned, Live, LiveKept;
    hide NothingFits, Holds, StepSays, CoreOk, RunOk;
    var m := new Mspace(first, size);
    var held: seq<Addr> := [];
    NoneHeld(m.C());
    RunOkNow(m.C(), held);
    replies, moments := [], [Moment(m.C(), held)];
    for k := 0 to |ops|
      invariant m.Valid() && Holds(m.C(), held) && fresh(m) && fresh(m.smalls) && fresh(m.trees)
      invariant |replies| == k && |moments| == k + 1 && moments[k] == Moment(m.C(), held)
      invariant moments[0].held == [] && moments[0].c.base == first && moments[0].c.limit == first + size
      invariant moments[0].c.topsize == size && moments[0].c.dv == 0 && Live(moments[0].c) == {}
      invariant forall i :: 0 <= i < k ==> StepSays(moments[i], ops[i], replies[i], moments[i + 1])
      invariant forall i :: 0 <= i <= k ==> RunOk(moments[i])
    {
      var mem;
      mem, held := Perform(m, ops[k], held);
      RunOkNow(m.C(), held);
      replies, moments := replies + [mem], moments + [Moment(m.C(), held)];
    }
  }

  lemma RoundedPositive(alignment: nat, a: nat)
    requires AL.RoundedUp(alignment, a)
    ensures a > 0
  {}

  /** What holds between any two operations. */
  ghost predicate RunOk(m: Moment) {
    && CoreOk(m.c) && Holds(m.c, m.held) && TotalFrom(m.c, m.c.base) == m.c.limit - m.c.base
    && (m.held == [] ==>
          m.c.top == m.c.base && m.c.starts == {m.c.base} && m.c.topsize == m.c.limit - m.c.base && m.c.dv == 0)
  }

  lemma RunOkNow(c: Core, held: seq<Addr>)
    requires CoreOk(c) && Holds(c, held)
    ensures RunOk(Moment(c, held))
  {
    hide ChunkOk, Apart, HasPrev, Binned, Live, Holds;
    TotalIsConstant(c, c.base);
    if held == [] {
      NoneLive(c);
      AllFreeCoalesces(c);
    }
  }

  lemma NoneHeld(c: Core)
    requires Live(c) == {}
    ensures Holds(c, [])
  {}

  lemma NoneLive(c: Core)
    requires Holds(c, [])
    ensures Live(c) == {}
  {
    hide Live;
  }

  lemma HoldsAt(c: Core, held: seq<Addr>, i: nat)
    requires Holds(c, held) && i < |held|
    ensures held[i] in Live(c)
  {}
}
