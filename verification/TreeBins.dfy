/**
 The tree bins of a malloc state: insert_large_chunk, unlink_large_chunk and the best-fit
 searches of tmalloc_large and tmalloc_small (src/dl_malloc.c:3649-3789, 4438-4524).
 */
module TreeBins {
  import opened Words
  import opened BinMaps
  import opened BinIndex
  import opened TrieShape
  import opened TreeLinks
  import opened TreeUnlink
  import opened TreeCases
  import opened TrieSearch

  /** The tree map marks exactly the bins that hold a tree. */
  ghost predicate MapOk(treemap: nat, bins: seq<Addr>) {
    && treemap < WORD && |bins| == NTREEBINS
    && forall i :: 0 <= i < NTREEBINS ==> (i in Marked(treemap) <==> bins[i] != 0)
  }

  class TreeBins {
    var size: map<Addr, nat>
    var index: map<Addr, nat>
    var left: map<Addr, Addr>
    var right: map<Addr, Addr>
    var parent: map<Addr, Link>
    var fd: map<Addr, Addr>
    var bk: map<Addr, Addr>
    var bins: seq<Addr>
    var treemap: nat
    ghost var lev: Shape
    ghost var node: Nodes
    ghost var ring: RingMap

    ghost function Mem(): TreeMem
      reads this
    {
      TreeMem(size, index, left, right, parent, fd, bk, bins)
    }

    ghost predicate Valid()
      reads this
    {
      && TreeOk(Mem(), lev, node, ring)
      && MapOk(treemap, bins)
    }

    constructor ()
      ensures Valid() && size == map[]
    {
      size, index, left, right, parent, fd, bk := map[], map[], map[], map[], map[], map[], map[];
      bins := seq(NTREEBINS, _ => 0);
      treemap := 0;
      lev, node, ring := map[], map[], map[];
      new;
      ZeroMap(0);
    }

    lemma Basics()
      requires Valid()
      ensures Domains(Mem()) && node.Keys == lev.Keys == ring.Keys && |bins| == NTREEBINS
      ensures ShapeOk(lev) && NodesOk(Mem(), lev, node) && RingsOk(Mem(), node, ring)
      ensures forall a :: a in size ==> a > 0 && size[a] in lev && LargeSize(size[a])
      ensures forall s :: s in node ==> node[s] in size && size[node[s]] == s
    {
      hide TreeIndex, UpOk, DownOk, BinOk, RingsOk, Places, Parents;
      NodeKeys(Mem(), lev, node, ring);
    }

    /** No bit of the tree map is set only when no chunk is in a tree. */
    lemma EmptyTreeMap()
      requires Valid() && treemap == 0
      ensures size == map[]
    {
      hide TreeIndex, TreeOk, MapOk, Marked, NodesOk, ShapeOk, RingsOk;
      Basics();
      MapWord(treemap, bins);
      ZeroMap(treemap);
      assert forall a :: a !in size by {
        forall a | a in size
          ensures false
        {
          RootFound(Mem(), lev, node, size[a]);
        }
      }
    }

    // ----- insert_large_chunk -----

    /** insert_large_chunk: the chunk joins the tree of its bin, or the ring of its size. */
    method Insert(x: Addr, s: nat)
      requires Valid() && x > 0 && x !in size && LargeSize(s)
      modifies this
      ensures Valid() && size == old(size)[x := s]
    {
      hide TreeIndex, BinLevel, TreeOk, Marked;
      Basics();
      var i := TreeIndex(s);
      var marked := IsMarked(treemap, i);
      if !marked {
        PlantRoot(x, s, i);
      } else {
        var t, side := FindSlot(s, i);
        if size[t] != s {
          HangBelow(x, s, t, side);
        } else {
          JoinRing(x, s, t);
        }
      }
    }

    method PlantRoot(x: Addr, s: nat, i: nat)
      requires Valid() && x > 0 && x !in size && LargeSize(s) && i == TreeIndex(s) && i !in Marked(treemap)
      modifies this
      ensures Valid() && size == old(size)[x := s]
    {
      hide TreeIndex, BinLevel, TreeOk, Marked, Pow2, MapOk, Hi;
      ghost var m := Mem();
      MapBin(treemap, bins, i);
      var treemap' := Mark(treemap, i);
      MapMark(treemap, treemap', bins, i, x);
      WriteFresh(x, s, Bin(i), x, x);
      treemap := treemap';
      bins := bins[i := x];
      RootAdded(m, lev, node, ring, x, s);
      lev, node, ring := lev[s := RootLevel(s)], node[s := x], ring[s := [x]];
    }

    /** The walk of insert_large_chunk: it ends at the node of size s, or where s has to hang. */
    method FindSlot(s: nat, i: nat) returns (t: Addr, side: bool)
      requires Valid() && LargeSize(s) && i == TreeIndex(s) && i in Marked(treemap)
      ensures IsNode(Mem(), node, t) && size[t] in lev && t in left && t in right && t in fd
      ensures size[t] == s || s !in lev
      ensures size[t] != s ==>
        && lev[size[t]] > 0 && Agree(size[t], s, lev[size[t]])
        && side == BitAt(s, lev[size[t]] - 1) && Child(Mem(), t, side) == 0
    {
      hide TreeIndex, BinLevel, TreeOk, Marked, Hi, ShlBy, LeftShift, Pow2, NodesOk, ShapeOk, RingsOk, WalkInv;
      ghost var m := Mem();
      Basics();
      WalkInit(m, lev, node, s, i);
      t := bins[i];
      SizeLimit();
      var k := ShlBy(s, LeftShift(i), 64);
      WalkLevel(m, lev, node, t, k, s);
      side := false;
      while size[t] != s
        invariant IsNode(m, node, t) && WalkInv(m, lev, node, t, k, s)
        decreases lev[size[t]]
      {
        WalkLevel(m, lev, node, t, k, s);
        WalkNext(m, lev, node, t, k, s);
        side := SignBit(k, 64);
        k := Shl(k, 64);
        var c := if side then right[t] else left[t];
        if c == 0 { return; }
        t := c;
      }
    }

    method HangBelow(x: Addr, s: nat, t: Addr, side: bool)
      requires Valid() && x > 0 && x !in size && LargeSize(s) && s !in lev
      requires IsNode(Mem(), node, t) && size[t] in lev && t in left && t in right
      requires lev[size[t]] > 0 && Agree(size[t], s, lev[size[t]])
      requires side == BitAt(s, lev[size[t]] - 1) && Child(Mem(), t, side) == 0
      modifies this
      ensures Valid() && size == old(size)[x := s]
    {
      hide TreeIndex, BinLevel, TreeOk, Marked, Hi;
      ghost var m, w := Mem(), lev[size[t]];
      ghost var ts := size[t];
      WriteFresh(x, s, Chunk(t), x, x);
      if side { right := right[t := x]; } else { left := left[t := x]; }
      ChildAdded(m, lev, node, ring, x, s, ts);
      lev, node, ring := lev[s := w - 1], node[s := x], ring[s := [x]];
    }

    method JoinRing(x: Addr, s: nat, t: Addr)
      requires Valid() && x > 0 && x !in size && s in lev && s in node && t == node[s] && t in fd && s in ring
      requires |ring[s]| > 0
      modifies this
      ensures Valid() && size == old(size)[x := s]
    {
      hide TreeIndex, BinLevel, TreeOk, Marked, Hi;
      RingJoined(Mem(), lev, node, ring, x, s);
      var f := fd[t];
      WriteFresh(x, s, Null, f, t);
      fd := fd[t := x];
      bk := bk[f := x];
      ring := ring[s := [t, x] + ring[s][1..]];
    }

    /** The words that every insertion writes into the new chunk. */
    method WriteFresh(x: Addr, s: nat, up: Link, f: Addr, b: Addr)
      modifies this`size, this`index, this`left, this`right, this`parent, this`fd, this`bk
      ensures Mem() == Fresh(old(Mem()), x, s, up, f, b)
    {
      size, index := size[x := s], index[x := TreeIndex(s)];
      left, right, parent := left[x := 0], right[x := 0], parent[x := up];
      fd, bk := fd[x := f], bk[x := b];
    }

    // ----- unlink_large_chunk -----

    /** unlink_large_chunk: exactly the chunk x leaves the tree bins. */
    method Unlink(x: Addr)
      requires Valid() && x in size
      modifies this
      ensures Valid() && size == old(size) - {x}
    {
      hide TreeIndex, TreeOk, MapOk;
      TreeDomains(Mem(), lev, node, ring, x);
      if bk[x] != x {
        if parent[x] == Null { UnlinkMember(x); } else { UnlinkHead(x); }
      } else {
        UnlinkLast(x);
      }
    }

    /** Lines 3723-3733: x is cut out of its ring. */
    method CutFromRing(x: Addr) returns (r: Addr)
      requires x in fd && x in bk
      modifies this`fd, this`bk
      ensures r == old(bk[x])
      ensures fd == old(fd[bk[x] := fd[x]]) && bk == old(bk[fd[x] := bk[x]])
    {
      var f := fd[x];
      r := bk[x];
      bk := bk[f := r];
      fd := fd[r := f];
    }

    method UnlinkMember(x: Addr)
      requires Valid() && x in size && x in fd && x in bk && bk[x] != x && x in parent && parent[x] == Null
      modifies this
      ensures Valid() && size == old(size) - {x}
    {
      hide TreeIndex, TreeOk, MapOk;
      ghost var m := Mem();
      var r := CutFromRing(x);
      size := size - {x};
      ring := MemberCase(m, lev, node, ring, x, Mem());
    }

    method UnlinkHead(x: Addr)
      requires Valid() && x in size && x in fd && x in bk && bk[x] != x && x in parent && parent[x] != Null
      modifies this
      ensures Valid() && size == old(size) - {x}
    {
      hide TreeIndex, TreeOk, MapOk, PlaceWords, PlaceReady;
      ghost var m := Mem();
      HeadReady(m, lev, node, ring, x);
      var r := CutFromRing(x);
      PutInPlace(x, r);
      size := size - {x};
      node, ring := HeadCase(m, lev, node, ring, x, Mem());
    }

    /** Lines 3750-3788: the place of the tree node x goes to r, or is left empty when r is null. */
    method PutInPlace(x: Addr, r: Addr)
      requires PlaceReady(Mem(), x, r) && MapOk(treemap, bins)
      modifies this`left, this`right, this`parent, this`bins, this`treemap
      ensures PlaceReady(old(Mem()), x, r) && Mem() == PlaceWords(old(Mem()), x, r) && MapOk(treemap, bins)
    {
      hide TreeIndex, MapOk;
      ghost var m := Mem();
      var xp := parent[x];
      SetWayIn(x, xp, r);
      assert Mem() == Repoint(m, x, r);
      if r != 0 { GiveFamily(x, xp, r); }
    }

    method SetWayIn(x: Addr, xp: Link, r: Addr)
      requires PlaceReady(Mem(), x, r) && MapOk(treemap, bins) && xp == parent[x]
      modifies this`left, this`right, this`bins, this`treemap
      ensures PlaceReady(old(Mem()), x, r) && Mem() == Repoint(old(Mem()), x, r) && MapOk(treemap, bins)
    {
      hide TreeIndex, Marked, Pow2, MapOk;
      var i := index[x];
      MapBin(treemap, bins, i);
      if bins[i] == x {
        var treemap' := treemap;
        if r == 0 { treemap' := Clear(treemap, i); }
        MapReplace(treemap, treemap', bins, i, r);
        treemap := treemap';
        bins := bins[i := r];
      } else if left[xp.addr] == x {
        left := left[xp.addr := r];
      } else {
        right := right[xp.addr := r];
      }
    }

    method GiveFamily(x: Addr, xp: Link, r: Addr)
      requires x in left && x in right && r in left && r in right && left[r] == 0 && right[r] == 0 && r != x
      modifies this`left, this`right, this`parent
      ensures left == old(left[r := left[x]]) && right == old(right[r := right[x]])
      ensures parent == Adopt(Adopt(old(parent[r := xp]), old(left[x]), r), old(right[x]), r)
    {
      parent := parent[r := xp];
      var c0 := left[x];
      if c0 != 0 {
        left := left[r := c0];
        parent := parent[c0 := Chunk(r)];
      }
      var c1 := right[x];
      if c1 != 0 {
        right := right[r := c1];
        parent := parent[c1 := Chunk(r)];
      }
    }

    method UnlinkLast(x: Addr)
      requires Valid() && x in size && x in left && x in right && x in bk && bk[x] == x
      modifies this
      ensures Valid() && size == old(size) - {x}
    {
      hide TreeIndex, TreeOk, MapOk, PlaceWords, PlaceReady;
      ghost var m := Mem();
      if right[x] == 0 && left[x] == 0 {
        LeafReady(m, lev, node, ring, x);
        PutInPlace(x, 0);
        size := size - {x};
        lev, node, ring := LeafCase(m, lev, node, ring, x, Mem());
      } else {
        var r, p, side := FindLeaf(x);
        if side { right := right[p := 0]; } else { left := left[p := 0]; }
        SwapReady(m, lev, node, ring, x, r, p, side, Mem());
        PutInPlace(x, r);
        size := size - {x};
        lev, node, ring := SwapCase(m, lev, node, ring, x, r, p, side, Mem());
      }
    }

    /** Lines 3735-3742: the rightmost leaf below x, and the child pointer that leads to it. */
    method FindLeaf(x: Addr) returns (r: Addr, p: Addr, side: bool)
      requires Valid() && x in size && x in bk && bk[x] == x && x in left && x in right
      requires right[x] != 0 || left[x] != 0
      ensures LeafBelow(Mem(), lev, node, x, r, p, side)
    {
      hide TreeIndex, TreeOk, MapOk, LeafBelow, LeafPath;
      ghost var m := Mem();
      r, p, side := right[x], x, true;
      if r == 0 { r, side := left[x], false; }
      LeafStart(m, lev, node, ring, x, side);
      while right[r] != 0 || left[r] != 0
        invariant LeafPath(m, lev, node, x, r, p, side)
        invariant r in size && size[r] in lev && r in left && r in right
        decreases lev[size[r]]
      {
        if right[r] != 0 {
          LeafStep(m, lev, node, ring, x, r, p, side, true);
          r, p, side := right[r], r, true;
        } else {
          LeafStep(m, lev, node, ring, x, r, p, side, false);
          r, p, side := left[r], r, false;
        }
      }
      LeafEnd(m, lev, node, x, r, p, side);
    }
  
    // ----- best fit -----

    /** tmalloc_large up to line 4484: a chunk of the least size that holds nb, if there is one. */
    method BestFit(nb: nat) returns (v: Addr, rsize: nat)
      requires Valid() && LargeSize(nb)
      ensures v == 0 ==> rsize == MAX_SIZE - nb && forall a :: a in size ==> size[a] < nb
      ensures v != 0 ==> v in size && nb <= size[v] && rsize == size[v] - nb
      ensures v != 0 ==> forall a :: a in size && nb <= size[a] ==> size[v] <= size[a]
    {
      hide TreeIndex, TreeOk, MapOk, Rest, BinCovered, Marked, NodesOk, ShapeOk, RingsOk;
      var t;
      v, rsize, t := OwnBinOrNext(nb);
      v, rsize := Leftmost(nb, v, rsize, t);
    }

    /** Lines 4444-4475: what the own bin offers, or the root of the next bin. */
    method OwnBinOrNext(nb: nat) returns (v: Addr, rsize: nat, t: Addr)
      requires Valid() && LargeSize(nb)
      ensures Candidate(Mem(), node, nb, v, rsize) && (t != 0 ==> IsNode(Mem(), node, t))
      ensures Rest(lev, nb, SizeOf(Mem(), v), SizeOf(Mem(), t))
    {
      hide TreeIndex, TreeOk, MapOk, Rest, BinCovered, Marked, NodesOk, ShapeOk, RingsOk;
      ghost var m := Mem();
      Basics();
      var i := TreeIndex(nb);
      MapBin(treemap, bins, i);
      t := 0;
      v, rsize := 0, MAX_SIZE - nb;
      if bins[i] != 0 {
        v, rsize, t := DescendFor(nb, i);
      } else {
        EmptyBin(m, lev, node, nb, i);
      }
      if t == 0 && v == 0 {
        t := NextBin(nb, i);
      }
    }

    /** tmalloc_small up to line 4524: a chunk of the least size in any tree bin. */
    method LeastChunk(nb: nat) returns (v: Addr, rsize: nat)
      requires Valid() && treemap != 0 && 0 < nb < MIN_LARGE_SIZE
      ensures v in size && rsize == size[v] - nb
      ensures forall a :: a in size ==> size[v] <= size[a]
    {
      hide TreeIndex, TreeOk, MapOk, Rest, Marked;
      ghost var m := Mem();
      Basics();
      MapWord(treemap, bins);
      var i := FirstMarked(treemap);
      FirstBin(m, lev, node, treemap, i, nb);
      var t := bins[i];
      v, rsize := Leftmost(nb, 0, MAX_SIZE - nb, t);
    }

    /** Lines 4444-4466: down the bits of nb in its own bin. */
    method DescendFor(nb: nat, i: nat) returns (v: Addr, rsize: nat, t: Addr)
      requires Valid() && LargeSize(nb) && i == TreeIndex(nb) && i < |bins| && bins[i] != 0
      ensures Candidate(Mem(), node, nb, v, rsize) && (t != 0 ==> IsNode(Mem(), node, t))
      ensures if t == 0 && v == 0 then BinCovered(lev, nb, 0, 0, 0)
              else Rest(lev, nb, SizeOf(Mem(), v), SizeOf(Mem(), t))
    {
      hide TreeIndex, TreeOk, MapOk, Rest, BinCovered, Descent, Untaken, Marked, NodesOk;
      hide ShapeOk, RingsOk, Split, ShlBy, LeftShift, Pow2, Steers, Hi;
      ghost var m := Mem();
      Basics();
      DescentStart(m, lev, node, nb, i);
      t := bins[i];
      v, rsize := 0, MAX_SIZE - nb;
      SizeLimit();
      WalkStart(nb, i);
      var sizebits: nat := ShlBy(nb, LeftShift(i), 64);
      var rst: Addr := 0;
      while true
        invariant IsNode(m, node, t) && Candidate(m, node, nb, v, rsize)
        invariant v != 0 ==> TreeIndex(size[v]) == i
        invariant rsize > 0
        invariant rst != 0 ==> IsNode(m, node, rst)
        invariant Descent(lev, nb, SizeOf(m, v), size[t], SizeOf(m, rst))
        invariant sizebits < Pow2(64) && Steers(sizebits, 64, nb, lev[size[t]])
        decreases lev[size[t]]
      {
        DescentBin(lev, nb, SizeOf(m, v), size[t], SizeOf(m, rst));
        ghost var vs, ts, rs := SizeOf(m, v), size[t], SizeOf(m, rst);
        var trem := Sub64(size[t], nb);
        if trem < rsize {
          v, rsize := t, trem;
          if rsize == 0 {
            ExactFit(lev, nb);
            return;
          }
        }
        NodeSplit(m, lev, node, ts);
        DescentStep(lev, nb, vs, ts, rs, SizeOf(m, v), ChildSize(m, node, ts, false), ChildSize(m, node, ts, true));
        SteerStep(sizebits, nb, lev[ts]);
        SplitKeys(lev, ts, ChildSize(m, node, ts, false), ChildSize(m, node, ts, true));
        var rt := right[t];
        var side := SignBit(sizebits, 64);
        t := if side then right[t] else left[t];
        if rt != 0 && rt != t { rst := rt; }
        if t == 0 {
          t := rst;
          if t != 0 || v != 0 { RestInBin(lev, nb, SizeOf(m, v), SizeOf(m, t)); }
          return;
        }
        sizebits := Shl(sizebits, 64);
      }
    }

    /** Lines 4467-4475: the root of the next bin that holds a tree. */
    method NextBin(nb: nat, i: nat) returns (t: Addr)
      requires Valid() && LargeSize(nb) && i == TreeIndex(nb) && BinCovered(lev, nb, 0, 0, 0)
      ensures (t != 0 ==> IsNode(Mem(), node, t)) && Rest(lev, nb, 0, SizeOf(Mem(), t))
    {
      hide TreeIndex, TreeOk, MapOk, Rest, BinCovered, Marked, NodesOk, ShapeOk, RingsOk;
      ghost var m := Mem();
      Basics();
      MapWord(treemap, bins);
      var leftbits := MarkedAbove(treemap, i);
      t := 0;
      if leftbits != 0 {
        var j := FirstMarked(leftbits);
        MapBin(treemap, bins, j);
        t := bins[j];
        assert forall k :: k in Marked(treemap) && k > i ==> k in Marked(leftbits);
        NextBinRest(m, lev, node, treemap, nb, i, t, j);
      } else {
        assert forall k :: k in Marked(treemap) && k > i ==> k in Marked(leftbits);
        NoBinRest(m, lev, node, treemap, nb, i);
      }
    }

    /** Lines 4477-4484: the smallest fitting chunk on the leftmost path from t. */
    method Leftmost(nb: nat, v0: Addr, rsize0: nat, t0: Addr) returns (v: Addr, rsize: nat)
      requires Valid() && 0 < nb < MAX_SIZE && Candidate(Mem(), node, nb, v0, rsize0)
      requires t0 != 0 ==> IsNode(Mem(), node, t0)
      requires Rest(lev, nb, SizeOf(Mem(), v0), SizeOf(Mem(), t0))
      ensures Candidate(Mem(), node, nb, v, rsize)
      ensures forall a :: a in size && nb <= size[a] ==> v != 0 && size[v] <= size[a]
    {
      hide TreeIndex, TreeOk, MapOk, Rest, Marked, NodesOk, ShapeOk, RingsOk, Split;
      ghost var m := Mem();
      Basics();
      var t := t0;
      v, rsize := v0, rsize0;
      while t != 0
        invariant Candidate(m, node, nb, v, rsize) && (t != 0 ==> IsNode(m, node, t))
        invariant Rest(lev, nb, SizeOf(m, v), SizeOf(m, t))
        decreases if t != 0 then lev[size[t]] + 1 else 0
      {
        ghost var vs, ts := SizeOf(m, v), size[t];
        var trem := Sub64(size[t], nb);
        if trem < rsize { v, rsize := t, trem; }
        NodeSplit(m, lev, node, ts);
        LeftmostStep(lev, nb, vs, ts, SizeOf(m, v), ChildSize(m, node, ts, false), ChildSize(m, node, ts, true));
        SplitKeys(lev, ts, ChildSize(m, node, ts, false), ChildSize(m, node, ts, true));
        t := if left[t] != 0 then left[t] else right[t];
      }
      NothingLeft(lev, nb, SizeOf(m, v));
    }
  }

  // ----- what the searches rely on -----

  /** chunksize(t) - nb on 64-bit words. */
  function Sub64(s: nat, nb: nat): nat
    requires s < MAX_SIZE && nb < MAX_SIZE
  {
    if s >= nb then s - nb else s + MAX_SIZE - nb
  }

  ghost function SizeOf(m: TreeMem, a: Addr): nat {
    if a in m.size then m.size[a] else 0
  }

  /** The chunk v found so far, with rsize bytes to spare; without one rsize is -nb as a word. */
  ghost predicate Candidate(m: TreeMem, node: Nodes, nb: nat, v: Addr, rsize: nat) {
    && nb < MAX_SIZE && 0 !in m.size
    && if v == 0 then rsize == MAX_SIZE - nb else IsNode(m, node, v) && nb <= m.size[v] && rsize == m.size[v] - nb
  }

  lemma NothingLeft(lev: Shape, nb: nat, vs: nat)
    requires Rest(lev, nb, vs, 0)
    ensures forall u :: u in lev && nb <= u ==> vs != 0 && vs <= u
  {
    hide TreeIndex, Hi;
  }

  lemma ExactFit(lev: Shape, nb: nat)
    requires nb in lev && nb != 0
    ensures Rest(lev, nb, nb, nb)
  {
    hide TreeIndex, Hi;
  }

  lemma EmptyBin(m: TreeMem, lev: Shape, node: Nodes, nb: nat, i: nat)
    requires NodesOk(m, lev, node) && ShapeOk(lev) && i == TreeIndex(nb) && m.bins[i] == 0
    ensures BinCovered(lev, nb, 0, 0, 0)
  {
    hide TreeIndex, BinLevel, Hi, NodesOk, ShapeOk;
    NodeAddr(m, lev, node);
    KeysOf(m, lev, node);
    forall u | u in lev
      ensures TreeIndex(u) != i
    {
      RootFound(m, lev, node, u);
    }
  }

  lemma DescentStart(m: TreeMem, lev: Shape, node: Nodes, nb: nat, i: nat)
    requires NodesOk(m, lev, node) && ShapeOk(lev) && LargeSize(nb) && i == TreeIndex(nb) && m.bins[i] != 0
    ensures IsNode(m, node, m.bins[i]) && m.size[m.bins[i]] in lev && lev[m.size[m.bins[i]]] == BinLevel(i)
    ensures Descent(lev, nb, 0, m.size[m.bins[i]], 0)
  {
    hide TreeIndex, BinLevel, Hi, NodesOk;
    KeysOf(m, lev, node);
    BinNode(m, lev, node, i);
    var ts := m.size[m.bins[i]];
    AgreeAtRoot(ts, nb);
    forall u | u in lev && TreeIndex(u) == TreeIndex(nb) && nb <= u
      ensures Under(lev, u, ts)
    {
      AgreeAtRoot(u, ts);
    }
  }

  lemma DescentBin(lev: Shape, nb: nat, vs: nat, ts: nat, rs: nat)
    requires Descent(lev, nb, vs, ts, rs)
    ensures ts in lev && TreeIndex(ts) == TreeIndex(nb)
  {
    hide TreeIndex, Hi;
  }

  lemma MapWord(treemap: nat, bins: seq<Addr>)
    requires MapOk(treemap, bins)
    ensures treemap < WORD && |bins| == NTREEBINS
    ensures forall i :: i in Marked(treemap) ==> i < NTREEBINS && bins[i] != 0
    ensures forall i :: 0 <= i < NTREEBINS && bins[i] != 0 ==> i in Marked(treemap)
  {
    hide Pow2, Hi;
  }

  lemma NextBinRest(m: TreeMem, lev: Shape, node: Nodes, treemap: nat, nb: nat, i: nat, t: Addr, j: nat)
    requires NodesOk(m, lev, node) && ShapeOk(lev) && LargeSize(nb) && i == TreeIndex(nb)
    requires BinCovered(lev, nb, 0, 0, 0)
    requires forall k :: 0 <= k < NTREEBINS && m.bins[k] != 0 ==> k in Marked(treemap)
    requires i < j < NTREEBINS && t == m.bins[j] && t != 0
    requires forall k :: k in Marked(treemap) && k > i ==> j <= k
    ensures IsNode(m, node, t) && Rest(lev, nb, 0, SizeOf(m, t))
  {
    hide TreeIndex, BinLevel, Hi, NodesOk, ShapeOk, BinCovered, Marked;
    BinNode(m, lev, node, j);
    KeysOf(m, lev, node);
    LargeSizes(lev, m.size[t]);
    forall u | u in lev
      ensures TreeIndex(u) in Marked(treemap)
    {
      RootFound(m, lev, node, u);
    }
    RestInNextBin(lev, nb, m.size[t]);
  }

  lemma NoBinRest(m: TreeMem, lev: Shape, node: Nodes, treemap: nat, nb: nat, i: nat)
    requires NodesOk(m, lev, node) && ShapeOk(lev) && LargeSize(nb) && i == TreeIndex(nb)
    requires BinCovered(lev, nb, 0, 0, 0)
    requires forall k :: 0 <= k < NTREEBINS && m.bins[k] != 0 ==> k in Marked(treemap)
    requires forall k :: k in Marked(treemap) ==> k <= i
    ensures Rest(lev, nb, 0, 0)
  {
    hide TreeIndex, BinLevel, Hi, NodesOk, ShapeOk, BinCovered, Marked;
    KeysOf(m, lev, node);
    forall u | u in lev
      ensures TreeIndex(u) in Marked(treemap)
    {
      RootFound(m, lev, node, u);
    }
    RestInNextBin(lev, nb, 0);
  }

  lemma FirstBin(m: TreeMem, lev: Shape, node: Nodes, treemap: nat, i: nat, nb: nat)
    requires NodesOk(m, lev, node) && ShapeOk(lev) && 0 < nb < MIN_LARGE_SIZE
    requires forall k :: 0 <= k < NTREEBINS && m.bins[k] != 0 ==> k in Marked(treemap)
    requires i < NTREEBINS && m.bins[i] != 0 && forall k :: k in Marked(treemap) ==> i <= k
    ensures IsNode(m, node, m.bins[i]) && Rest(lev, nb, 0, SizeOf(m, m.bins[i]))
  {
    hide TreeIndex, BinLevel, Hi, NodesOk, ShapeOk, Marked;
    BinNode(m, lev, node, i);
    KeysOf(m, lev, node);
    LargeSizes(lev, m.size[m.bins[i]]);
    forall u | u in lev
      ensures TreeIndex(u) in Marked(treemap)
    {
      RootFound(m, lev, node, u);
    }
    RestInFirstBin(lev, nb, m.size[m.bins[i]]);
  }

  lemma MapBin(treemap: nat, bins: seq<Addr>, i: nat)
    requires MapOk(treemap, bins) && i < NTREEBINS
    ensures treemap < WORD && |bins| == NTREEBINS && (i in Marked(treemap) <==> bins[i] != 0)
  {
    hide Marked;
  }

  lemma MapMark(treemap: nat, treemap': nat, bins: seq<Addr>, i: nat, x: Addr)
    requires MapOk(treemap, bins) && treemap' < WORD && i < NTREEBINS
    requires Marked(treemap') == if x != 0 then Marked(treemap) + {i} else Marked(treemap) - {i}
    ensures MapOk(treemap', bins[i := x])
  {
    hide Marked;
  }

  lemma MapReplace(treemap: nat, treemap': nat, bins: seq<Addr>, i: nat, x: Addr)
    requires MapOk(treemap, bins) && treemap' < WORD && i < NTREEBINS && bins[i] != 0
    requires Marked(treemap') == if x != 0 then Marked(treemap) else Marked(treemap) - {i}
    ensures MapOk(treemap', bins[i := x])
  {
    hide Marked;
  }

  // ----- the walk down a trie along the bits of a size -----

  ghost predicate WalkInv(m: TreeMem, lev: Shape, node: Nodes, t: Addr, k: nat, s: nat) {
    && IsNode(m, node, t) && m.size[t] in lev && k < Pow2(64)
    && Agree(m.size[t], s, lev[m.size[t]]) && Steers(k, 64, s, lev[m.size[t]])
    && (s in lev ==> lev[s] <= lev[m.size[t]])
  }

  lemma WalkLevel(m: TreeMem, lev: Shape, node: Nodes, t: Addr, k: nat, s: nat)
    requires WalkInv(m, lev, node, t, k, s)
    ensures IsNode(m, node, t) && m.size[t] in lev && k < Pow2(64)
  {}

  lemma WalkInit(m: TreeMem, lev: Shape, node: Nodes, s: nat, i: nat)
    requires NodesOk(m, lev, node) && ShapeOk(lev) && LargeSize(s) && i == TreeIndex(s) && m.bins[i] != 0
    ensures s < Pow2(64) && WalkInv(m, lev, node, m.bins[i], ShlBy(s, LeftShift(i), 64), s)
  {
    hide TreeIndex, BinLevel, Hi, UpOk, DownOk, ShlBy, LeftShift, Pow2, Steers, NodesOk;
    SizeLimit();
    WalkStart(s, i);
    BinNode(m, lev, node, i);
    KeysOf(m, lev, node);
    AgreeAtRoot(m.size[m.bins[i]], s);
  }

  lemma WalkNext(m: TreeMem, lev: Shape, node: Nodes, t: Addr, k: nat, s: nat)
    requires NodesOk(m, lev, node) && ShapeOk(lev) && WalkInv(m, lev, node, t, k, s) && m.size[t] != s
    ensures var w := lev[m.size[t]]; var side := SignBit(k, 64); var c := Child(m, t, side);
            && w > 0 && side == BitAt(s, w - 1) && Agree(m.size[t], s, w)
            && if c == 0 then s !in lev
               else
                 && IsNode(m, node, c) && m.size[c] in lev && WalkInv(m, lev, node, c, Shl(k, 64), s)
                 && lev[m.size[c]] < w
  {
    hide TreeIndex, BinLevel, Hi, NodesOk, ShapeOk, Pow2;
    KeysOf(m, lev, node);
    var w := lev[m.size[t]];
    var side := SignBit(k, 64);
    LevelPositive(m.size[t], s, w);
    Below(m, lev, node, t, side, s);
    if Child(m, t, side) == 0 { NotThere(m, lev, node, t, side, s); }
  }

  lemma SteerStep(k: nat, s: nat, w: nat)
    requires k < Pow2(64) && Steers(k, 64, s, w) && w > 0
    ensures SignBit(k, 64) <==> BitAt(s, w - 1)
    ensures Steers(Shl(k, 64), 64, s, w - 1)
  {
    hide Hi, Pow2;
  }

  lemma LevelPositive(t: nat, s: nat, w: nat)
    requires Agree(t, s, w) && t != s
    ensures w > 0
  {
    hide TreeIndex;
  }

  lemma BinNode(m: TreeMem, lev: Shape, node: Nodes, i: nat)
    requires NodesOk(m, lev, node) && i < NTREEBINS && m.bins[i] != 0
    ensures IsNode(m, node, m.bins[i]) && TreeIndex(m.size[m.bins[i]]) == i
    ensures m.size[m.bins[i]] in lev && lev[m.size[m.bins[i]]] == BinLevel(i)
  {
    hide TreeIndex, BinLevel, Hi, UpOk, DownOk;
    assert BinOk(m, lev, node, i);
  }

  /** A child on the side of s agrees with s one level further down. */
  lemma Below(m: TreeMem, lev: Shape, node: Nodes, t: Addr, side: bool, s: nat)
    requires NodesOk(m, lev, node) && ShapeOk(lev) && IsNode(m, node, t)
    requires lev[m.size[t]] > 0 && Agree(m.size[t], s, lev[m.size[t]]) && side == BitAt(s, lev[m.size[t]] - 1)
    ensures var c := Child(m, t, side);
            c != 0 ==> && IsNode(m, node, c) && LargeSize(m.size[c]) && lev[m.size[c]] == lev[m.size[t]] - 1
                       && Agree(m.size[c], s, lev[m.size[c]])
    ensures s in lev && s != m.size[t] ==> lev[s] != lev[m.size[t]]
  {
    hide TreeIndex, BinLevel, Hi, UpOk;
    assert DownOk(m, lev, node, t, side);
    var c := Child(m, t, side);
    if c != 0 { BitSplits(m.size[c], s, lev[m.size[c]]); }
  }

  /** Where the walk ends without a child, s is not in the tree. */
  lemma NotThere(m: TreeMem, lev: Shape, node: Nodes, t: Addr, side: bool, s: nat)
    requires NodesOk(m, lev, node) && ShapeOk(lev) && IsNode(m, node, t) && m.size[t] != s
    requires lev[m.size[t]] > 0 && Agree(m.size[t], s, lev[m.size[t]]) && side == BitAt(s, lev[m.size[t]] - 1)
    requires Child(m, t, side) == 0 && (s in lev ==> lev[s] <= lev[m.size[t]])
    ensures s !in lev
  {
    hide TreeIndex, BinLevel, Hi, UpOk, DownOk, NodesOk;
    NodeAddr(m, lev, node);
    KeysOf(m, lev, node);
    var w := lev[m.size[t]];
    if s in lev {
      assert lev[s] != w;
      var u := Ancestor(lev, s, w - 1);
      FreeSide(m, lev, node, m.size[t], s, u);
    }
  }
}
