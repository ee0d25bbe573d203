/**
 The cases of unlink_large_chunk put together: which tree, nodes and rings are left when a
 chunk x goes (src/dl_malloc.c:3720-3789).
 */
module TreeCases {
  import opened Words
  import opened BinIndex
  import opened TrieShape
  import opened TreeLinks
  import opened Rings
  import opened TreeUnlink

  /** Everything PutInPlace relies on, for the place of x going to r. */
  ghost predicate PlaceReady(m: TreeMem, x: Addr, r: Addr) {
    && Domains(m) && x in m.size && WayInHolds(m, x) && !m.parent[x].Null?
    && m.index[x] < NTREEBINS && (m.bins[m.index[x]] == x <==> m.parent[x] == Bin(m.index[x]))
    && (m.parent[x].Bin? ==> m.parent[x].index == m.index[x])
    && (r != 0 ==> r in m.left && r in m.right && r in m.parent && m.left[r] == 0 && m.right[r] == 0)
    && r != x && (r != 0 ==> m.parent[x] != Chunk(r)) && m.parent[x] != Chunk(x)
  }

  lemma TreeDomains(m: TreeMem, lev: Shape, node: Nodes, ring: RingMap, x: Addr)
    requires TreeOk(m, lev, node, ring) && x in m.size
    ensures Domains(m)
  {}

  /** Where a chunk stands on the ring of its size. */
  lemma RingPlace(m: TreeMem, node: Nodes, ring: RingMap, x: Addr) returns (k: nat)
    requires RingsOk(m, node, ring) && x in m.size && x in m.bk
    ensures m.size[x] in ring && k < |ring[m.size[x]]| && ring[m.size[x]][k] == x && x in m.fd
    ensures m.bk[x] != x <==> |ring[m.size[x]]| > 1
    ensures k == 0 <==> IsNode(m, node, x)
    ensures m.bk[x] == Prev(ring[m.size[x]], k) && m.fd[x] == Next(ring[m.size[x]], k)
  {
    var r := ring[m.size[x]];
    RingSizes(m.size, node, ring, m.size[x]);
    k :| 0 <= k < |r| && r[k] == x;
    assert RingLinked(r, m.fd, m.bk);
    assert m.bk[r[k]] == Prev(r, k) && m.fd[r[k]] == Next(r, k);
  }

  lemma MemberIsNoNode(m: TreeMem, lev: Shape, node: Nodes, x: Addr)
    requires NodesOk(m, lev, node) && x in m.size
    ensures m.parent[x] == Null <==> !IsNode(m, node, x)
    ensures m.parent[x] == Null ==> m.left[x] == 0 && m.right[x] == 0
    ensures m.size[x] in lev && m.index[x] == TreeIndex(m.size[x])
  {
    hide TreeIndex, BinLevel, Hi, DownOk, BinOk;
    assert UpOk(m, lev, node, x);
  }

  // ----- a chunk on a ring that is not the tree node -----

  function Cut(m: TreeMem, x: Addr): TreeMem
    requires x in m.fd && x in m.bk
  {
    m.(fd := m.fd[m.bk[x] := m.fd[x]], bk := m.bk[m.fd[x] := m.bk[x]])
  }

  lemma MemberCase(m: TreeMem, lev: Shape, node: Nodes, ring: RingMap, x: Addr, m': TreeMem) returns (ring': RingMap)
    requires TreeOk(m, lev, node, ring) && x in m.size && x in m.fd && x in m.bk && x in m.parent
    requires m.bk[x] != x && m.parent[x] == Null && m' == Cut(m, x).(size := m.size - {x})
    ensures TreeOk(m', lev, node, ring')
  {
    hide TreeIndex, BinLevel, Hi, ShapeOk, NodesOk, RingsOk;
    NodeKeys(m, lev, node, ring);
    var s := m.size[x];
    var k := RingPlace(m, node, ring, x);
    MemberIsNoNode(m, lev, node, x);
    RingCut(m, node, ring, s, k, m');
    MemberGone(m, lev, node, x, m');
    ring' := ring[s := CutRing(ring[s], k)];
    CutKeepsNode(m, node, ring, s, k);
  }

  lemma CutKeepsNode(m: TreeMem, node: Nodes, ring: RingMap, s: nat, k: nat)
    requires RingsOk(m, node, ring) && s in ring && 0 < k < |ring[s]|
    ensures node[s := CutRing(ring[s], k)[0]] == node
  {
    hide RingLinked;
  }

  // ----- the tree node of a ring with others on it -----

  lemma HeadReady(m: TreeMem, lev: Shape, node: Nodes, ring: RingMap, x: Addr)
    requires TreeOk(m, lev, node, ring) && x in m.size && x in m.fd && x in m.bk && x in m.parent
    requires m.bk[x] != x && m.parent[x] != Null
    ensures PlaceReady(Cut(m, x), x, m.bk[x])
  {
    hide TreeIndex, BinLevel, Hi, ShapeOk, NodesOk, RingsOk;
    NodeKeys(m, lev, node, ring);
    var k := RingPlace(m, node, ring, x);
    MemberIsNoNode(m, lev, node, x);
    WayIn(m, lev, node, x);
    OtherOnRing(m, node, ring, x);
    MemberIsNoNode(m, lev, node, m.bk[x]);
    NotOwnParent(m, lev, node, x, m.bk[x]);
    HeadBin(m, lev, node, x);
  }

  /** The ring neighbour of a tree node has its size and is no tree node. */
  lemma OtherOnRing(m: TreeMem, node: Nodes, ring: RingMap, x: Addr)
    requires Domains(m) && RingsOk(m, node, ring) && IsNode(m, node, x) && m.bk[x] != x
    ensures var r := m.bk[x]; r in m.size && m.size[r] == m.size[x] && !IsNode(m, node, r) && r > 0
    ensures m.size[x] in ring && |ring[m.size[x]]| > 1 && ring[m.size[x]][0] == x
    ensures CutRing(ring[m.size[x]], 0)[0] == m.bk[x]
  {
    hide RingLinked;
    var k := RingPlace(m, node, ring, x);
    RingSizes(m.size, node, ring, m.size[x]);
  }

  lemma NotOwnParent(m: TreeMem, lev: Shape, node: Nodes, x: Addr, r: Addr)
    requires NodesOk(m, lev, node) && IsNode(m, node, x) && r in m.size && !IsNode(m, node, r)
    ensures m.parent[x] != Chunk(r) && m.parent[x] != Chunk(x)
  {
    hide TreeIndex, BinLevel, Hi, DownOk, BinOk;
    assert UpOk(m, lev, node, x);
  }

  lemma HeadBin(m: TreeMem, lev: Shape, node: Nodes, x: Addr)
    requires NodesOk(m, lev, node) && ShapeOk(lev) && IsNode(m, node, x)
    ensures m.index[x] < NTREEBINS && (m.bins[m.index[x]] == x <==> m.parent[x] == Bin(m.index[x]))
    ensures m.parent[x].Bin? ==> m.parent[x].index == m.index[x]
    ensures m.parent[x] != Chunk(x)
  {
    hide TreeIndex, BinLevel, Hi, DownOk, ShapeOk;
    WayIn(m, lev, node, x);
  }

  lemma HeadCase(m: TreeMem, lev: Shape, node: Nodes, ring: RingMap, x: Addr, m': TreeMem)
    returns (node': Nodes, ring': RingMap)
    requires TreeOk(m, lev, node, ring) && x in m.size && x in m.fd && x in m.bk && x in m.parent
    requires m.bk[x] != x && m.parent[x] != Null && PlaceReady(Cut(m, x), x, m.bk[x])
    requires m' == PlaceWords(Cut(m, x), x, m.bk[x]).(size := m.size - {x})
    ensures TreeOk(m', lev, node', ring')
  {
    hide TreeIndex, BinLevel, Hi, ShapeOk, NodesOk, RingsOk, PlaceWords, PlaceReady, Domains;
    NodeKeys(m, lev, node, ring);
    var s, r := m.size[x], m.bk[x];
    MemberIsNoNode(m, lev, node, x);
    OtherOnRing(m, node, ring, x);
    HeadNodes(m, lev, node, x, r, m');
    PlaceKeepsRings(Cut(m, x), x, r);
    RingCut(m, node, ring, s, 0, m');
    node' := node[s := r];
    ring' := ring[s := CutRing(ring[s], 0)];
  }

  lemma PlaceKeepsRings(m: TreeMem, x: Addr, r: Addr)
    requires PlaceReady(m, x, r)
    ensures PlaceWords(m, x, r).fd == m.fd && PlaceWords(m, x, r).bk == m.bk && PlaceWords(m, x, r).index == m.index
  {
    hide TreeIndex;
  }

  lemma HeadNodes(m: TreeMem, lev: Shape, node: Nodes, x: Addr, r: Addr, m': TreeMem)
    requires NodesOk(m, lev, node) && ShapeOk(lev) && IsNode(m, node, x) && x in m.fd && x in m.bk
    requires r in m.size && m.size[r] == m.size[x] && !IsNode(m, node, r) && r > 0
    requires PlaceReady(Cut(m, x), x, r)
    requires m' == PlaceWords(Cut(m, x), x, r).(size := m.size - {x})
    ensures NodesOk(m', lev, node[m.size[x] := r])
  {
    hide TreeIndex, BinLevel, Hi, ShapeOk, NodesOk, PlaceWords, PlaceReady, TakePlace, WayInHolds;
    KeysOf(m, lev, node);
    var s := m.size[x];
    MemberIsNoNode(m, lev, node, r);
    MemberIsNoNode(m, lev, node, x);
    var m1 := m.(size := m.size - {r});
    MemberGone(m, lev, node, r, m1);
    var lev', node' := (lev - {s})[s := lev[s]], (node - {s})[s := r];
    assert lev' == lev && node' == node[s := r];
    SameWords(Cut(m, x), m1, x, r, s);
    assert m'.size == (m1.size - {x})[r := s];
    PlaceKeepsRings(Cut(m, x), x, r);
    PlaceDomains(Cut(m, x), x, r);
    WayIn(m1, lev, node, x);
    PlaceBy(m1, lev, node, x, r, s, m', lev', node');
  }

  lemma PlaceDomains(m: TreeMem, x: Addr, r: Addr)
    requires PlaceReady(m, x, r)
    ensures var m' := PlaceWords(m, x, r);
            && |m'.bins| == |m.bins| && m.left.Keys <= m'.left.Keys && m.right.Keys <= m'.right.Keys
              && m.parent.Keys <= m'.parent.Keys
  {
    hide TreeIndex;
  }

  /** The words PutInPlace leaves do not depend on which chunks are counted as tree members. */
  lemma SameWords(ma: TreeMem, mb: TreeMem, x: Addr, r: Addr, rsize: nat)
    requires PlaceReady(ma, x, r) && r != 0 && x in mb.size
    requires mb == ma.(size := mb.size, fd := mb.fd, bk := mb.bk)
    ensures WayInWords(mb, x)
    ensures TakePlace(mb, x, r, rsize) == PlaceWords(ma, x, r).(size := (mb.size - {x})[r := rsize], fd := mb.fd,
                                                                bk := mb.bk)
  {
    hide TreeIndex, Domains, Repoint, Adopt, PlaceReady;
    SameRepoint(ma, mb, x, r);
  }

  ghost predicate WayInWords(m: TreeMem, x: Addr) {
    && x in m.parent && x in m.size && x in m.left && x in m.right
    && (m.parent[x].Bin? ==> m.parent[x].index < |m.bins|)
    && (m.parent[x].Chunk? ==> m.parent[x].addr in m.left)
  }

  lemma SameRepoint(ma: TreeMem, mb: TreeMem, x: Addr, r: Addr)
    requires PlaceReady(ma, x, r) && r != 0 && x in mb.size
    requires mb == ma.(size := mb.size, fd := mb.fd, bk := mb.bk)
    ensures WayInWords(ma, x) && WayInWords(mb, x)
    ensures var ra := Repoint(ma, x, r); var rb := Repoint(mb, x, r);
            && rb.left == ra.left && rb.right == ra.right && rb.bins == ra.bins && rb.parent == ra.parent
            && rb.index == ra.index && rb.fd == mb.fd && rb.bk == mb.bk
  {
    hide TreeIndex;
  }

  /** r takes the place of x in the tree that m1 holds. */
  lemma PlaceBy(m1: TreeMem, lev: Shape, node: Nodes, x: Addr, r: Addr, rsize: nat, m': TreeMem,
                lev': Shape, node': Nodes)
    requires NodesOk(m1, lev, node) && ShapeOk(lev) && IsNode(m1, node, x) && m1.size[x] in lev && Domains(m')
    requires r > 0 && r !in m1.size && r in m1.index && m1.index[r] == TreeIndex(rsize)
    requires rsize == m1.size[x] || (rsize !in lev && forall a :: a in m1.size && m1.size[a] == m1.size[x] ==> a == x)
    requires Agree(rsize, m1.size[x], lev[m1.size[x]])
    requires WayInHolds(m1, x) && !m1.parent[x].Null?
    requires m' == TakePlace(m1, x, r, rsize).(fd := m'.fd, bk := m'.bk)
    requires lev' == (lev - {m1.size[x]})[rsize := lev[m1.size[x]]] && node' == (node - {m1.size[x]})[rsize := r]
    ensures NodesOk(m', lev', node')
  {
    hide TreeIndex, BinLevel, Hi, ShapeOk, NodesOk;
    KeysOf(m1, lev, node);
    WayIn(m1, lev, node, x);
    ChildrenOf(m1, lev, node, x);
    PlacedWords(m1, x, r, rsize, m');
    assert PlaceArgs(m1, lev, node, x, r, rsize, m', lev', node');
    PlaceTaken(m1, lev, node, x, r, rsize, m', lev', node');
  }

  lemma ChildrenOf(m: TreeMem, lev: Shape, node: Nodes, x: Addr)
    requires NodesOk(m, lev, node) && x in m.size
    ensures m.left[x] != x && m.right[x] != x
    ensures m.left[x] != 0 ==> m.left[x] in m.size
    ensures m.right[x] != 0 ==> m.right[x] in m.size
  {
    hide TreeIndex, BinLevel, Hi, UpOk, BinOk;
    assert DownOk(m, lev, node, x, false) && DownOk(m, lev, node, x, true);
  }

  // ----- the last chunk of its size, without children -----

  lemma LeafReady(m: TreeMem, lev: Shape, node: Nodes, ring: RingMap, x: Addr)
    requires TreeOk(m, lev, node, ring) && x in m.size && x in m.bk && m.bk[x] == x
    ensures PlaceReady(m, x, 0) && IsNode(m, node, x)
  {
    hide TreeIndex, BinLevel, Hi, ShapeOk, NodesOk, RingsOk;
    NodeKeys(m, lev, node, ring);
    var k := RingPlace(m, node, ring, x);
    WayIn(m, lev, node, x);
    HeadBin(m, lev, node, x);
  }

  /** A chunk that is its own ring is the only one of its size. */
  lemma AloneOfSize(m: TreeMem, node: Nodes, ring: RingMap, x: Addr)
    requires RingsOk(m, node, ring) && x in m.size && x in m.bk && m.bk[x] == x
    ensures m.size[x] in ring && ring[m.size[x]] == [x] && IsNode(m, node, x)
    ensures forall a :: a in m.size && m.size[a] == m.size[x] ==> a == x
    ensures Without(m.size, m.size[x]) == m.size - {x}
  {
    hide RingLinked;
    var k := RingPlace(m, node, ring, x);
    RingSizes(m.size, node, ring, m.size[x]);
  }

  lemma LeafCase(m: TreeMem, lev: Shape, node: Nodes, ring: RingMap, x: Addr, m': TreeMem)
    returns (lev': Shape, node': Nodes, ring': RingMap)
    requires TreeOk(m, lev, node, ring) && x in m.size && x in m.bk && m.bk[x] == x
    requires x in m.left && x in m.right && m.left[x] == 0 && m.right[x] == 0
    requires PlaceReady(m, x, 0) && m' == PlaceWords(m, x, 0).(size := m.size - {x})
    ensures TreeOk(m', lev', node', ring')
  {
    hide TreeIndex, BinLevel, Hi, ShapeOk, NodesOk, RingsOk, PlaceReady, WayInHolds, OnlyWayIn;
    NodeKeys(m, lev, node, ring);
    var s := m.size[x];
    AloneOfSize(m, node, ring, x);
    WayIn(m, lev, node, x);
    PlaceKeepsRings(m, x, 0);
    PlaceDomains(m, x, 0);
    LeafGone(m, lev, node, x, m');
    RingGone(m, node, ring, s, m');
    lev', node', ring' := lev - {s}, node - {s}, ring - {s};
  }

  // ----- the last chunk of its size, replaced by a leaf below it -----

  /** r is a leaf below the tree node x, and the child pointer of p on that side leads to it. */
  ghost predicate LeafBelow(m: TreeMem, lev: Shape, node: Nodes, x: Addr, r: Addr, p: Addr, side: bool) {
    && Domains(m) && LeafPath(m, lev, node, x, r, p, side) && m.left[r] == 0 && m.right[r] == 0
  }

  ghost predicate LeafPath(m: TreeMem, lev: Shape, node: Nodes, x: Addr, r: Addr, p: Addr, side: bool) {
    && Domains(m) && IsNode(m, node, x) && IsNode(m, node, r) && p in m.size && Child(m, p, side) == r
    && m.size[x] in lev && m.size[r] in lev && lev[m.size[r]] < lev[m.size[x]]
    && Agree(m.size[r], m.size[x], lev[m.size[x]])
  }

  lemma LeafStart(m: TreeMem, lev: Shape, node: Nodes, ring: RingMap, x: Addr, side: bool)
    requires TreeOk(m, lev, node, ring) && x in m.size && x in m.bk && m.bk[x] == x && x in m.left && x in m.right
    requires Child(m, x, side) != 0
    ensures LeafPath(m, lev, node, x, Child(m, x, side), x, side)
    ensures Child(m, x, side) in m.size && m.size[Child(m, x, side)] in lev
    ensures Child(m, x, side) in m.left && Child(m, x, side) in m.right
  {
    hide TreeIndex, BinLevel, Hi, ShapeOk, RingsOk, UpOk;
    AloneOfSize(m, node, ring, x);
    assert DownOk(m, lev, node, x, side);
  }

  lemma LeafStep(m: TreeMem, lev: Shape, node: Nodes, ring: RingMap, x: Addr, r: Addr, p: Addr, side: bool, d: bool)
    requires TreeOk(m, lev, node, ring) && LeafPath(m, lev, node, x, r, p, side) && Child(m, r, d) != 0
    ensures var c := Child(m, r, d);
            && LeafPath(m, lev, node, x, c, r, d) && c in m.size && m.size[c] in lev && c in m.left && c in m.right
            && lev[m.size[c]] < lev[m.size[r]]
  {
    hide TreeIndex, BinLevel, Hi, ShapeOk, RingsOk, UpOk;
    assert DownOk(m, lev, node, r, d);
    AgreeUp(m.size[Child(m, r, d)], m.size[r], lev[m.size[r]], lev[m.size[x]]);
  }

  lemma LeafEnd(m: TreeMem, lev: Shape, node: Nodes, x: Addr, r: Addr, p: Addr, side: bool)
    requires LeafPath(m, lev, node, x, r, p, side) && r in m.left && r in m.right && m.left[r] == 0 && m.right[r] == 0
    ensures LeafBelow(m, lev, node, x, r, p, side) && p in m.left && p in m.right && r != 0
  {}

  function ClearChild(m: TreeMem, p: Addr, side: bool): TreeMem {
    if side then m.(right := m.right[p := 0]) else m.(left := m.left[p := 0])
  }

  /** The tree without the leaf r, and the chunks of its size not counted. */
  lemma LeafDetached(m: TreeMem, lev: Shape, node: Nodes, x: Addr, r: Addr, p: Addr, side: bool, m1: TreeMem)
    requires NodesOk(m, lev, node) && ShapeOk(lev) && LeafBelow(m, lev, node, x, r, p, side)
    requires m1 == ClearChild(m, p, side).(size := Without(m.size, m.size[r]))
    ensures var rs := m.size[r];
            && ShapeOk(lev - {rs}) && NodesOk(m1, lev - {rs}, node - {rs})
            && IsNode(m1, node - {rs}, x) && m1.size[x] == m.size[x]
  {
    hide TreeIndex, BinLevel, Hi, ShapeOk, NodesOk;
    WayIn(m, lev, node, r);
    DetachIsRepoint(m, r, p, side);
    LeafGone(m, lev, node, r, m1);
  }

  lemma DetachIsRepoint(m: TreeMem, r: Addr, p: Addr, side: bool)
    requires Domains(m) && r in m.size && p in m.size && OnlyWayIn(m, r) && WayInHolds(m, r) && Child(m, p, side) == r
    ensures Domains(ClearChild(m, p, side)) && ClearChild(m, p, side) == Repoint(m, r, 0)
  {
    hide TreeIndex;
  }

  lemma SwapReady(m: TreeMem, lev: Shape, node: Nodes, ring: RingMap, x: Addr, r: Addr, p: Addr, side: bool,
                  mc: TreeMem)
    requires TreeOk(m, lev, node, ring) && x in m.bk && m.bk[x] == x && LeafBelow(m, lev, node, x, r, p, side)
    requires mc == ClearChild(m, p, side)
    ensures PlaceReady(mc, x, r) && r != 0
  {
    hide TreeIndex, BinLevel, Hi, ShapeOk, NodesOk, RingsOk;
    NodeKeys(m, lev, node, ring);
    WayIn(m, lev, node, x);
    HeadBin(m, lev, node, x);
    LeafNotParent(m, lev, node, x, r);
    WayInStays(m, x, r, p, side);
  }

  lemma LeafNotParent(m: TreeMem, lev: Shape, node: Nodes, x: Addr, r: Addr)
    requires NodesOk(m, lev, node) && IsNode(m, node, x) && IsNode(m, node, r) && m.left[r] == 0 && m.right[r] == 0
    ensures m.parent[x] != Chunk(r)
  {
    hide TreeIndex, BinLevel, Hi, DownOk, BinOk;
    assert UpOk(m, lev, node, x);
  }

  lemma WayInStays(m: TreeMem, x: Addr, r: Addr, p: Addr, side: bool)
    requires Domains(m) && x in m.size && p in m.size && WayInHolds(m, x) && Child(m, p, side) == r && r != x
    ensures Domains(ClearChild(m, p, side)) && WayInHolds(ClearChild(m, p, side), x)
  {
    hide TreeIndex;
  }

  lemma SwapCase(m: TreeMem, lev: Shape, node: Nodes, ring: RingMap, x: Addr, r: Addr, p: Addr, side: bool, m': TreeMem)
    returns (lev': Shape, node': Nodes, ring': RingMap)
    requires TreeOk(m, lev, node, ring) && x in m.bk && m.bk[x] == x && LeafBelow(m, lev, node, x, r, p, side)
    requires PlaceReady(ClearChild(m, p, side), x, r)
    requires m' == PlaceWords(ClearChild(m, p, side), x, r).(size := m.size - {x})
    ensures TreeOk(m', lev', node', ring')
  {
    hide TreeIndex, BinLevel, Hi, ShapeOk, NodesOk, RingsOk, PlaceReady, PlaceWords;
    NodeKeys(m, lev, node, ring);
    var s, rs := m.size[x], m.size[r];
    AloneOfSize(m, node, ring, x);
    lev' := ((lev - {rs}) - {s})[rs := lev[s]];
    node' := node - {s};
    SwapNodes(m, lev, node, x, r, p, side, m');
    PlaceKeepsRings(ClearChild(m, p, side), x, r);
    RingGone(m, node, ring, s, m');
    ring' := ring - {s};
  }

  lemma SwapNodes(m: TreeMem, lev: Shape, node: Nodes, x: Addr, r: Addr, p: Addr, side: bool, m': TreeMem)
    requires NodesOk(m, lev, node) && ShapeOk(lev) && LeafBelow(m, lev, node, x, r, p, side)
    requires PlaceReady(ClearChild(m, p, side), x, r)
    requires forall a :: a in m.size && m.size[a] == m.size[x] ==> a == x
    requires m' == PlaceWords(ClearChild(m, p, side), x, r).(size := m.size - {x})
    ensures var lev' := ((lev - {m.size[r]}) - {m.size[x]})[m.size[r] := lev[m.size[x]]];
            ShapeOk(lev') && NodesOk(m', lev', node - {m.size[x]})
  {
    hide TreeIndex, BinLevel, Hi, ShapeOk, NodesOk, PlaceReady, PlaceWords, WayInHolds, TakePlace;
    var s, rs := m.size[x], m.size[r];
    var mc := ClearChild(m, p, side);
    var m1 := mc.(size := Without(m.size, rs));
    LeafDetached(m, lev, node, x, r, p, side, m1);
    hide LeafBelow;
    var lev1, node1 := lev - {rs}, node - {rs};
    var lev', node' := (lev1 - {s})[rs := lev1[s]], (node1 - {s})[rs := r];
    KeysOf(m, lev, node);
    KeysOf(m1, lev1, node1);
    assert node' == node - {s};
    MemberIsNoNode(m, lev, node, r);
    LargeSizes(lev, rs);
    SwapSize(lev1, s, rs);
    SameWords(mc, m1, x, r, rs);
    PlaceKeepsRings(mc, x, r);
    PlaceDomains(mc, x, r);
    var m2 := TakePlace(m1, x, r, rs);
    WayIn(m1, lev1, node1, x);
    PlaceBy(m1, lev1, node1, x, r, rs, m2, lev', node');
    SiblingsBack(m, lev, node, x, r, p, side, m', m2, lev', node');
  }

  lemma LargeSizes(lev: Shape, s: nat)
    requires ShapeOk(lev) && s in lev
    ensures LargeSize(s)
  {
    hide TreeIndex;
  }

  /** The chunks on the ring of r keep their words and are counted in again. */
  lemma SiblingsBack(m: TreeMem, lev: Shape, node: Nodes, x: Addr, r: Addr, p: Addr, side: bool,
                     m': TreeMem, m2: TreeMem, lev': Shape, node': Nodes)
    requires NodesOk(m, lev, node) && LeafBelow(m, lev, node, x, r, p, side)
    requires PlaceReady(ClearChild(m, p, side), x, r) && r != 0
    requires m' == PlaceWords(ClearChild(m, p, side), x, r).(size := m.size - {x})
    requires NodesOk(m2, lev', node') && m' == m2.(size := m.size - {x})
    requires m2.size == (Without(m.size, m.size[r]) - {x})[r := m.size[r]]
    requires m.size[r] in node' && m.size[r] != m.size[x] && Domains(m')
    ensures NodesOk(m', lev', node')
  {
    hide TreeIndex, BinLevel, Hi, NodesOk, PlaceReady, PlaceWords;
    forall a | a in m'.size && a !in m2.size
      ensures m'.size[a] in node' && m'.index[a] == TreeIndex(m'.size[a])
      ensures m'.parent[a] == Null && m'.left[a] == 0 && m'.right[a] == 0
    {
      Sibling(m, lev, node, x, r, p, side, m', a);
    }
    MembersBack(m2, lev', node', m');
  }

  lemma Sibling(m: TreeMem, lev: Shape, node: Nodes, x: Addr, r: Addr, p: Addr, side: bool, m': TreeMem, a: Addr)
    requires NodesOk(m, lev, node) && LeafBelow(m, lev, node, x, r, p, side)
    requires PlaceReady(ClearChild(m, p, side), x, r) && r != 0
    requires m' == PlaceWords(ClearChild(m, p, side), x, r).(size := m.size - {x})
    requires a in m.size && m.size[a] == m.size[r] && a != r && a != x
    ensures a in m'.index && m'.index[a] == TreeIndex(m.size[a])
    ensures a in m'.parent && a in m'.left && a in m'.right && m'.parent[a] == Null && m'.left[a] == 0
    ensures m'.right[a] == 0
  {
    hide TreeIndex, BinLevel, Hi, NodesOk, PlaceReady, PlaceWords;
    MemberIsNoNode(m, lev, node, a);
    NotInFamily(m, lev, node, x, a);
    FarWords(ClearChild(m, p, side), x, r, a);
  }

  /** Words of a chunk that is neither x, r, nor next to x in the tree stay as they are. */
  lemma FarWords(m: TreeMem, x: Addr, r: Addr, a: Addr)
    requires PlaceReady(m, x, r) && r != 0 && a in m.size && a != r && a != x
    requires m.left[x] != a && m.right[x] != a && m.parent[x] != Chunk(a)
    ensures var m' := PlaceWords(m, x, r);
            && a in m'.parent && a in m'.left && a in m'.right && m'.index == m.index
            && m'.parent[a] == m.parent[a] && m'.left[a] == m.left[a] && m'.right[a] == m.right[a]
  {
    hide TreeIndex;
  }

  lemma NotInFamily(m: TreeMem, lev: Shape, node: Nodes, x: Addr, a: Addr)
    requires NodesOk(m, lev, node) && IsNode(m, node, x) && a in m.size && !IsNode(m, node, a)
    ensures m.left[x] != a && m.right[x] != a && m.parent[x] != Chunk(a)
  {
    hide TreeIndex, BinLevel, Hi, BinOk;
    assert UpOk(m, lev, node, x) && DownOk(m, lev, node, x, true) && DownOk(m, lev, node, x, false);
  }
}
