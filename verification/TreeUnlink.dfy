/**
 Taking a chunk out of the tree bins: the three ways unlink_large_chunk changes the
 tree links (src/dl_malloc.c:3703-3789).
 */
module TreeUnlink {
  import opened Words
  import opened BinIndex
  import opened TrieShape
  import opened TreeLinks
  import opened Rings

  // ----- a chunk that only hangs on a ring -----

  lemma MemberGone(m: TreeMem, lev: Shape, node: Nodes, x: Addr, m': TreeMem)
    requires NodesOk(m, lev, node) && x in m.size && !IsNode(m, node, x)
    requires m' == m.(size := m.size - {x}, fd := m'.fd, bk := m'.bk) && Domains(m')
    ensures NodesOk(m', lev, node)
  {
    hide TreeIndex, BinLevel, Hi, UpOk, DownOk, BinOk;
    forall a | a in m'.size
      ensures UpOk(m', lev, node, a)
    {
      MemberGoneAt(m, lev, node, x, m', a, true);
    }
    forall a, side | a in m'.size
      ensures DownOk(m', lev, node, a, side)
    {
      MemberGoneAt(m, lev, node, x, m', a, side);
    }
    forall i | 0 <= i < NTREEBINS
      ensures BinOk(m', lev, node, i)
    {
      assert BinOk(m, lev, node, i);
      MemberGoneBin(m, lev, node, x, m', i);
    }
  }

  lemma MemberGoneAt(m: TreeMem, lev: Shape, node: Nodes, x: Addr, m': TreeMem, a: Addr, side: bool)
    requires Domains(m) && Domains(m') && x in m.size && !IsNode(m, node, x)
    requires m' == m.(size := m.size - {x}, fd := m'.fd, bk := m'.bk)
    requires a in m'.size && m.size[a] in lev && UpOk(m, lev, node, a) && DownOk(m, lev, node, a, side)
    ensures UpOk(m', lev, node, a) && DownOk(m', lev, node, a, side)
  {
    hide TreeIndex, BinLevel, Hi;
    NotNodeLinks(m, lev, node, a);
    UpKept(m, lev, node, m', lev, node, a);
    DownKept(m, lev, node, m', lev, node, a, side);
  }

  lemma MemberGoneBin(m: TreeMem, lev: Shape, node: Nodes, x: Addr, m': TreeMem, i: nat)
    requires Domains(m) && Domains(m') && x in m.size && !IsNode(m, node, x) && i < NTREEBINS
    requires m' == m.(size := m.size - {x}, fd := m'.fd, bk := m'.bk)
    requires BinOk(m, lev, node, i)
    ensures BinOk(m', lev, node, i)
  {
    hide TreeIndex, BinLevel, Hi;
  }

  // ----- a leaf -----

  /** The pointer that leads to the tree node x is set to r. */
  function Repoint(m: TreeMem, x: Addr, r: Addr): TreeMem
    requires x in m.parent && x in m.size
    requires m.parent[x].Bin? ==> m.parent[x].index < |m.bins|
    requires m.parent[x].Chunk? ==> m.parent[x].addr in m.left
  {
    match m.parent[x]
    case Null => m
    case Bin(i) => m.(bins := m.bins[i := r])
    case Chunk(p) =>
      if m.left[p] == x then m.(left := m.left[p := r]) else m.(right := m.right[p := r])
  }

  /** Exactly one child pointer or bin header leads to a tree node. */
  ghost predicate OnlyWayIn(m: TreeMem, x: Addr)
    requires Domains(m)
  {
    && x in m.size
    && (forall a, side :: a in m.size && Child(m, a, side) == x ==> m.parent[x] == Chunk(a) && side == (m.left[a] != x))
    && (forall i :: 0 <= i < NTREEBINS && m.bins[i] == x ==> m.parent[x] == Bin(i))
  }

  /** The parent link of a tree node names the place that leads to it. */
  ghost predicate WayInHolds(m: TreeMem, x: Addr)
    requires Domains(m) && x in m.size
  {
    match m.parent[x]
    case Null => true
    case Bin(i) => i < NTREEBINS && m.bins[i] == x
    case Chunk(p) => p in m.size && (m.left[p] == x || m.right[p] == x)
  }

  lemma WayIn(m: TreeMem, lev: Shape, node: Nodes, x: Addr)
    requires NodesOk(m, lev, node) && ShapeOk(lev) && IsNode(m, node, x)
    ensures OnlyWayIn(m, x) && m.size[x] in lev && UpOk(m, lev, node, x)
    ensures WayInHolds(m, x) && !m.parent[x].Null?
  {
    hide TreeIndex, BinLevel, Hi;
    assert UpOk(m, lev, node, x);
    forall a, side | a in m.size && Child(m, a, side) == x
      ensures m.parent[x] == Chunk(a) && side == (m.left[a] != x)
    {
      assert UpOk(m, lev, node, a) && DownOk(m, lev, node, a, side) && DownOk(m, lev, node, a, !side);
      assert RootLevel(m.size[x]) == RootLevel(m.size[a]);
    }
    forall i | 0 <= i < NTREEBINS && m.bins[i] == x
      ensures m.parent[x] == Bin(i)
    {
      assert BinOk(m, lev, node, i);
    }
  }

  ghost predicate LeafArgs(m: TreeMem, lev: Shape, node: Nodes, x: Addr, m': TreeMem) {
    && Domains(m) && Domains(m') && IsNode(m, node, x) && OnlyWayIn(m, x) && m.size[x] in lev
    && m.left[x] == 0 && m.right[x] == 0 && !m.parent[x].Null?
    && WayInHolds(m, x)
    && m' == Repoint(m, x, 0).(size := Without(m.size, m.size[x]), fd := m'.fd, bk := m'.bk)
  }

  /** The chunks of the other sizes. */
  ghost function Without(size: map<Addr, nat>, s: nat): map<Addr, nat> {
    map a | a in size && size[a] != s :: size[a]
  }

  lemma LeafGone(m: TreeMem, lev: Shape, node: Nodes, x: Addr, m': TreeMem)
    requires NodesOk(m, lev, node) && ShapeOk(lev) && IsNode(m, node, x)
    requires LeafArgs(m, lev, node, x, m')
    ensures ShapeOk(lev - {m.size[x]}) && NodesOk(m', lev - {m.size[x]}, node - {m.size[x]})
  {
    hide TreeIndex, BinLevel, Hi, NodesOk, ShapeOk;
    forall u | u in lev
      ensures !IsParent(lev, m.size[x], u)
    {
      LeafHasNoChild(m, lev, node, x, u);
    }
    DropLeaf(lev, m.size[x]);
    LeafNodes(m, lev, node, x, m');
  }

  lemma LeafNodes(m: TreeMem, lev: Shape, node: Nodes, x: Addr, m': TreeMem)
    requires NodesOk(m, lev, node) && IsNode(m, node, x)
    requires LeafArgs(m, lev, node, x, m')
    ensures NodesOk(m', lev - {m.size[x]}, node - {m.size[x]})
  {
    hide TreeIndex, BinLevel, Hi, UpOk, DownOk, BinOk, LeafArgs;
    var s := m.size[x];
    var lev', node' := lev - {s}, node - {s};
    LeafSizes(m, lev, node, x, m');
    forall a | a in m'.size
      ensures UpOk(m', lev', node', a)
    {
      LeafUp(m, lev, node, x, m', a);
    }
    forall a, side | a in m'.size
      ensures DownOk(m', lev', node', a, side)
    {
      LeafDown(m, lev, node, x, m', a, side);
    }
    forall i | 0 <= i < NTREEBINS
      ensures BinOk(m', lev', node', i)
    {
      LeafBin(m, lev, node, x, m', i);
    }
  }

  lemma LeafSizes(m: TreeMem, lev: Shape, node: Nodes, x: Addr, m': TreeMem)
    requires LeafArgs(m, lev, node, x, m')
    ensures m'.size == Without(m.size, m.size[x]) && m'.index == m.index && Domains(m')
  {}

  lemma LeafHasNoChild(m: TreeMem, lev: Shape, node: Nodes, x: Addr, u: nat)
    requires NodesOk(m, lev, node) && ShapeOk(lev) && IsNode(m, node, x) && m.left[x] == 0 && m.right[x] == 0
    requires u in lev
    ensures !IsParent(lev, m.size[x], u)
  {
    hide TreeIndex, BinLevel, Hi, NodesOk, ShapeOk;
    NodeAddr(m, lev, node);
    KeysOf(m, lev, node);
    if IsParent(lev, m.size[x], u) { ChildFound(m, lev, node, m.size[x], u); }
  }

  lemma KeysOf(m: TreeMem, lev: Shape, node: Nodes)
    requires NodesOk(m, lev, node)
    ensures Domains(m) && node.Keys == lev.Keys
  {}

  lemma LeafUp(m: TreeMem, lev: Shape, node: Nodes, x: Addr, m': TreeMem, a: Addr)
    requires LeafArgs(m, lev, node, x, m')
    requires a in m.size && a != x && m.size[a] in lev && UpOk(m, lev, node, a) && m.size[a] != m.size[x]
    ensures UpOk(m', lev - {m.size[x]}, node - {m.size[x]}, a)
  {
    hide TreeIndex, BinLevel, Hi;
    NotNodeLinks(m, lev, node, a);
    UpKept(m, lev, node, m', lev - {m.size[x]}, node - {m.size[x]}, a);
  }

  lemma LeafDown(m: TreeMem, lev: Shape, node: Nodes, x: Addr, m': TreeMem, a: Addr, side: bool)
    requires LeafArgs(m, lev, node, x, m')
    requires a in m.size && a != x && m.size[a] in lev && DownOk(m, lev, node, a, side) && m.size[a] != m.size[x]
    ensures DownOk(m', lev - {m.size[x]}, node - {m.size[x]}, a, side)
  {
    hide TreeIndex, BinLevel, Hi;
    DownKept(m, lev, node, m', lev - {m.size[x]}, node - {m.size[x]}, a, side);
  }

  lemma LeafBin(m: TreeMem, lev: Shape, node: Nodes, x: Addr, m': TreeMem, i: nat)
    requires LeafArgs(m, lev, node, x, m')
    requires i < NTREEBINS && BinOk(m, lev, node, i)
    ensures BinOk(m', lev - {m.size[x]}, node - {m.size[x]}, i)
  {
    hide TreeIndex, BinLevel, Hi;
  }

  // ----- a chunk outside the tree takes the place of a tree node -----

  function Adopt(parent: map<Addr, Link>, c: Addr, r: Addr): map<Addr, Link> {
    if c == 0 then parent else parent[c := Chunk(r)]
  }

  /** R gets the parent and the children of X (src/dl_malloc.c:3750-3788). */
  function TakePlace(m: TreeMem, x: Addr, r: Addr, rsize: nat): TreeMem
    requires x in m.parent && x in m.size && x in m.left && x in m.right
    requires m.parent[x].Bin? ==> m.parent[x].index < |m.bins|
    requires m.parent[x].Chunk? ==> m.parent[x].addr in m.left
  {
    var m1 := Repoint(m, x, r);
    m1.(size := (m.size - {x})[r := rsize],
        left := m1.left[r := m.left[x]],
        right := m1.right[r := m.right[x]],
        parent := Adopt(Adopt(m.parent[r := m.parent[x]], m.left[x], r), m.right[x], r))
  }

  /** The link words after the place of x went to r, or was left empty. */
  function PlaceWords(m: TreeMem, x: Addr, r: Addr): TreeMem
    requires x in m.parent && x in m.size && x in m.left && x in m.right
    requires m.parent[x].Bin? ==> m.parent[x].index < |m.bins|
    requires m.parent[x].Chunk? ==> m.parent[x].addr in m.left
  {
    if r == 0 then Repoint(m, x, 0) else TakePlace(m, x, r, 0).(size := m.size)
  }

  /** What TakePlace leaves in memory, address by address. */
  ghost predicate Placed(m: TreeMem, x: Addr, r: Addr, rsize: nat, m': TreeMem)
    requires Domains(m) && x in m.size
  {
    && Domains(m') && r !in m.size
    && m'.size == (m.size - {x})[r := rsize]
    && m'.parent[r] == m.parent[x] && m'.left[r] == m.left[x] && m'.right[r] == m.right[x]
    && (forall a :: a in m.size && a != x ==>
          && m'.parent[a] == (if a == m.left[x] || a == m.right[x] then Chunk(r) else m.parent[a])
          && m'.left[a] == (if m.left[a] == x then r else m.left[a])
          && m'.right[a] == (if m.right[a] == x then r else m.right[a]))
    && |m'.bins| == |m.bins|
    && (forall i :: 0 <= i < |m.bins| ==> m'.bins[i] == if m.bins[i] == x then r else m.bins[i])
  }

  lemma PlacedWords(m: TreeMem, x: Addr, r: Addr, rsize: nat, m': TreeMem)
    requires Domains(m) && Domains(m') && x in m.size && OnlyWayIn(m, x) && WayInHolds(m, x) && !m.parent[x].Null?
    requires r > 0 && r !in m.size && m.left[x] != x && m.right[x] != x
    requires m' == TakePlace(m, x, r, rsize).(fd := m'.fd, bk := m'.bk)
    requires m.left[x] != 0 ==> m.left[x] in m.size
    requires m.right[x] != 0 ==> m.right[x] in m.size
    ensures Placed(m, x, r, rsize, m')
  {
    hide TakePlace, OnlyWayIn, WayInHolds;
    PlacedOwn(m, x, r, rsize);
    forall a | a in m.size && a != x
      ensures m'.parent[a] == (if a == m.left[x] || a == m.right[x] then Chunk(r) else m.parent[a])
      ensures m'.left[a] == (if m.left[a] == x then r else m.left[a])
      ensures m'.right[a] == (if m.right[a] == x then r else m.right[a])
    {
      PlacedAt(m, x, r, rsize, a);
    }
  }

  lemma PlacedAt(m: TreeMem, x: Addr, r: Addr, rsize: nat, a: Addr)
    requires Domains(m) && x in m.size && OnlyWayIn(m, x) && WayInHolds(m, x) && !m.parent[x].Null?
    requires r > 0 && r !in m.size && m.left[x] != x && m.right[x] != x && a in m.size && a != x
    ensures var m' := TakePlace(m, x, r, rsize);
            && a in m'.parent && m'.parent[a] == (if a == m.left[x] || a == m.right[x] then Chunk(r) else m.parent[a])
            && a in m'.left && m'.left[a] == (if m.left[a] == x then r else m.left[a])
            && a in m'.right && m'.right[a] == (if m.right[a] == x then r else m.right[a])
  {
    assert Child(m, a, false) == m.left[a] && Child(m, a, true) == m.right[a];
  }

  lemma PlacedOwn(m: TreeMem, x: Addr, r: Addr, rsize: nat)
    requires Domains(m) && x in m.size && OnlyWayIn(m, x) && WayInHolds(m, x) && !m.parent[x].Null?
    requires r > 0 && r !in m.size && m.left[x] != x && m.right[x] != x
    requires m.left[x] != 0 ==> m.left[x] in m.size
    requires m.right[x] != 0 ==> m.right[x] in m.size
    ensures var m' := TakePlace(m, x, r, rsize);
            && m'.size == (m.size - {x})[r := rsize] && |m'.bins| == |m.bins|
            && r in m'.parent && m'.parent[r] == m.parent[x] && r in m'.left && m'.left[r] == m.left[x] && r in m'.right
              && m'.right[r] == m.right[x]
            && (forall i :: 0 <= i < |m.bins| ==> m'.bins[i] == if m.bins[i] == x then r else m.bins[i])
  {}

  ghost predicate PlaceArgs(m: TreeMem, lev: Shape, node: Nodes, x: Addr, r: Addr, rsize: nat, m': TreeMem,
                            lev': Shape, node': Nodes) {
    && Domains(m) && IsNode(m, node, x) && m.size[x] in lev && r > 0 && node.Keys == lev.Keys
    && (rsize == m.size[x] || rsize !in lev) && Agree(rsize, m.size[x], lev[m.size[x]])
    && Placed(m, x, r, rsize, m')
    && lev' == (lev - {m.size[x]})[rsize := lev[m.size[x]]]
    && node' == (node - {m.size[x]})[rsize := r]
  }

  lemma PlaceTaken(m: TreeMem, lev: Shape, node: Nodes, x: Addr, r: Addr, rsize: nat, m': TreeMem,
                   lev': Shape, node': Nodes)
    requires NodesOk(m, lev, node) && ShapeOk(lev) && x in m.size
    requires PlaceArgs(m, lev, node, x, r, rsize, m', lev', node')
    requires m'.index == m.index && r in m.index && m.index[r] == TreeIndex(rsize)
    requires rsize != m.size[x] ==> forall a :: a in m.size && m.size[a] == m.size[x] ==> a == x
    ensures NodesOk(m', lev', node')
  {
    hide TreeIndex, BinLevel, Hi, AllUp, AllDown, AllBins, ShapeOk, PlaceArgs;
    PlaceKeys(m, lev, node, x, r, rsize, m', lev', node');
    PlaceAllUp(m, lev, node, x, r, rsize, m', lev', node');
    PlaceAllDown(m, lev, node, x, r, rsize, m', lev', node');
    PlaceAllBins(m, lev, node, x, r, rsize, m', lev', node');
  }

  lemma PlaceAllUp(m: TreeMem, lev: Shape, node: Nodes, x: Addr, r: Addr, rsize: nat, m': TreeMem,
                   lev': Shape, node': Nodes)
    requires NodesOk(m, lev, node) && ShapeOk(lev) && x in m.size
    requires PlaceArgs(m, lev, node, x, r, rsize, m', lev', node')
    requires rsize != m.size[x] ==> forall a :: a in m.size && m.size[a] == m.size[x] ==> a == x
    ensures Domains(m') && AllUp(m', lev', node')
  {
    hide TreeIndex, BinLevel, Hi, UpOk, AllDown, AllBins, ShapeOk, PlaceArgs;
    PlaceKeys(m, lev, node, x, r, rsize, m', lev', node');
    forall a | a in m'.size
      ensures UpOk(m', lev', node', a)
    {
      if a == r {
        PlaceUpSelf(m, lev, node, x, r, rsize, m', lev', node');
      } else {
        if m.parent[a] != Chunk(x) { NotMyChild(m, lev, node, x, a); }
        PlaceUp(m, lev, node, x, r, rsize, m', lev', node', a);
      }
    }
  }

  lemma PlaceAllDown(m: TreeMem, lev: Shape, node: Nodes, x: Addr, r: Addr, rsize: nat, m': TreeMem,
                     lev': Shape, node': Nodes)
    requires NodesOk(m, lev, node) && x in m.size
    requires PlaceArgs(m, lev, node, x, r, rsize, m', lev', node')
    requires rsize != m.size[x] ==> forall a :: a in m.size && m.size[a] == m.size[x] ==> a == x
    ensures Domains(m') && AllDown(m', lev', node')
  {
    hide TreeIndex, BinLevel, Hi, AllUp, DownOk, AllBins, PlaceArgs;
    PlaceKeys(m, lev, node, x, r, rsize, m', lev', node');
    forall a, side | a in m'.size
      ensures DownOk(m', lev', node', a, side)
    {
      if a == r {
        PlaceDownSelf(m, lev, node, x, r, rsize, m', lev', node', side);
      } else {
        PlaceDown(m, lev, node, x, r, rsize, m', lev', node', a, side);
      }
    }
  }

  lemma PlaceAllBins(m: TreeMem, lev: Shape, node: Nodes, x: Addr, r: Addr, rsize: nat, m': TreeMem,
                     lev': Shape, node': Nodes)
    requires NodesOk(m, lev, node) && x in m.size
    requires PlaceArgs(m, lev, node, x, r, rsize, m', lev', node')
    ensures Domains(m') && AllBins(m', lev', node')
  {
    hide TreeIndex, BinLevel, Hi, AllUp, AllDown, BinOk, PlaceArgs;
    PlaceKeys(m, lev, node, x, r, rsize, m', lev', node');
    forall i | 0 <= i < NTREEBINS
      ensures BinOk(m', lev', node', i)
    {
      PlaceBin(m, lev, node, x, r, rsize, m', lev', node', i);
    }
  }

  lemma PlaceKeys(m: TreeMem, lev: Shape, node: Nodes, x: Addr, r: Addr, rsize: nat, m': TreeMem,
                  lev': Shape, node': Nodes)
    requires Domains(m) && x in m.size && PlaceArgs(m, lev, node, x, r, rsize, m', lev', node')
    ensures Domains(m') && r !in m.size && m'.size == (m.size - {x})[r := rsize]
    ensures node' == (node - {m.size[x]})[rsize := r] && node'.Keys == lev'.Keys && node.Keys == lev.Keys
    ensures rsize == m.size[x] || rsize !in node
    ensures IsNode(m, node, x)
  {
    hide TreeIndex, BinLevel, Hi;
  }

  lemma NotMyChild(m: TreeMem, lev: Shape, node: Nodes, x: Addr, a: Addr)
    requires NodesOk(m, lev, node) && ShapeOk(lev) && x in m.size && a in m.size && m.parent[a] != Chunk(x)
    ensures m.left[x] != a && m.right[x] != a
  {
    hide TreeIndex, BinLevel, Hi, UpOk, ShapeOk;
    assert DownOk(m, lev, node, x, false) && DownOk(m, lev, node, x, true);
    if IsNode(m, node, a) {
      WayIn(m, lev, node, a);
      assert Child(m, x, false) == m.left[x] && Child(m, x, true) == m.right[x];
    }
  }

  lemma PlaceUpSelf(m: TreeMem, lev: Shape, node: Nodes, x: Addr, r: Addr, rsize: nat, m': TreeMem,
                    lev': Shape, node': Nodes)
    requires PlaceArgs(m, lev, node, x, r, rsize, m', lev', node') && UpOk(m, lev, node, x)
    ensures UpOk(m', lev', node', r)
  {
    hide TreeIndex, BinLevel, Hi;
    var s := m.size[x];
    AgreeUp(rsize, s, lev[s], lev[s] + 1);
    SameBit(rsize, s, lev[s]);
  }

  lemma SameBit(a: nat, b: nat, w: nat)
    requires Agree(a, b, w)
    ensures BitAt(a, w) <==> BitAt(b, w)
  {
    hide TreeIndex, Hi;
  }

  lemma PlaceUp(m: TreeMem, lev: Shape, node: Nodes, x: Addr, r: Addr, rsize: nat, m': TreeMem,
                lev': Shape, node': Nodes, a: Addr)
    requires PlaceArgs(m, lev, node, x, r, rsize, m', lev', node')
    requires a in m.size && a != x && m.size[a] in lev && UpOk(m, lev, node, a)
    requires rsize != m.size[x] ==> m.size[a] != m.size[x]
    requires m.parent[a] != Chunk(x) ==> m.left[x] != a && m.right[x] != a
    ensures UpOk(m', lev', node', a)
  {
    hide TreeIndex, BinLevel, Hi;
  }

  lemma PlaceDownSelf(m: TreeMem, lev: Shape, node: Nodes, x: Addr, r: Addr, rsize: nat, m': TreeMem,
                      lev': Shape, node': Nodes, side: bool)
    requires PlaceArgs(m, lev, node, x, r, rsize, m', lev', node') && DownOk(m, lev, node, x, side)
    ensures DownOk(m', lev', node', r, side)
  {
    hide TreeIndex, BinLevel, Hi;
  }

  lemma PlaceDown(m: TreeMem, lev: Shape, node: Nodes, x: Addr, r: Addr, rsize: nat, m': TreeMem,
                  lev': Shape, node': Nodes, a: Addr, side: bool)
    requires PlaceArgs(m, lev, node, x, r, rsize, m', lev', node')
    requires a in m.size && a != x && m.size[a] in lev && DownOk(m, lev, node, a, side)
    requires rsize != m.size[x] ==> m.size[a] != m.size[x]
    ensures DownOk(m', lev', node', a, side)
  {
    hide TreeIndex, BinLevel, Hi;
    if Child(m, a, side) == x {
      PlaceDownTo(m, lev, node, x, r, rsize, m', lev', node', a, side);
    } else {
      assert Child(m', a, side) == Child(m, a, side);
    }
  }

  /** The parent of x now leads to r. */
  lemma PlaceDownTo(m: TreeMem, lev: Shape, node: Nodes, x: Addr, r: Addr, rsize: nat, m': TreeMem,
                    lev': Shape, node': Nodes, a: Addr, side: bool)
    requires PlaceArgs(m, lev, node, x, r, rsize, m', lev', node')
    requires a in m.size && a != x && m.size[a] in lev && DownOk(m, lev, node, a, side) && Child(m, a, side) == x
    requires rsize != m.size[x] ==> m.size[a] != m.size[x]
    ensures DownOk(m', lev', node', a, side)
  {
    hide TreeIndex, BinLevel, Hi;
    var s := m.size[x];
    AgreeUp(rsize, s, lev[s], lev[s] + 1);
    SameBit(rsize, s, lev[s]);
  }

  lemma PlaceBin(m: TreeMem, lev: Shape, node: Nodes, x: Addr, r: Addr, rsize: nat, m': TreeMem,
                 lev': Shape, node': Nodes, i: nat)
    requires PlaceArgs(m, lev, node, x, r, rsize, m', lev', node')
    requires i < NTREEBINS && BinOk(m, lev, node, i)
    ensures BinOk(m', lev', node', i)
  {
    hide TreeIndex, BinLevel, Hi;
  }

  // ----- ring members come along -----

  /** Chunks that are not tree nodes, with empty tree links, may be counted in. */
  lemma MembersBack(m: TreeMem, lev: Shape, node: Nodes, m': TreeMem)
    requires NodesOk(m, lev, node) && Domains(m') && m' == m.(size := m'.size)
    requires forall a :: a in m.size ==> a in m'.size && m'.size[a] == m.size[a]
    requires forall a :: a in m'.size && a !in m.size ==>
      && m'.size[a] in node && m'.index[a] == TreeIndex(m'.size[a])
      && m'.parent[a] == Null && m'.left[a] == 0 && m'.right[a] == 0
    ensures NodesOk(m', lev, node)
  {
    hide TreeIndex, BinLevel, Hi, UpOk, DownOk, BinOk;
    forall a | a in m'.size
      ensures UpOk(m', lev, node, a)
    {
      BackUp(m, lev, node, m', a);
    }
    forall a, side | a in m'.size
      ensures DownOk(m', lev, node, a, side)
    {
      BackDown(m, lev, node, m', a, side);
    }
    forall i | 0 <= i < NTREEBINS
      ensures BinOk(m', lev, node, i)
    {
      BackBin(m, lev, node, m', i);
    }
  }

  ghost predicate BackArgs(m: TreeMem, node: Nodes, m': TreeMem) {
    && Domains(m) && Domains(m') && m' == m.(size := m'.size)
    && (forall a :: a in m.size ==> a in m'.size && m'.size[a] == m.size[a])
    && (forall s :: s in node ==> node[s] in m.size)
  }

  lemma BackUp(m: TreeMem, lev: Shape, node: Nodes, m': TreeMem, a: Addr)
    requires BackArgs(m, node, m') && a in m'.size
    requires if a in m.size then m.size[a] in lev && UpOk(m, lev, node, a)
             else m'.parent[a] == Null && m'.left[a] == 0 && m'.right[a] == 0
    ensures UpOk(m', lev, node, a)
  {
    hide TreeIndex, BinLevel, Hi;
    if a in m.size {
      NotNodeLinks(m, lev, node, a);
      UpKept(m, lev, node, m', lev, node, a);
    }
  }

  lemma BackDown(m: TreeMem, lev: Shape, node: Nodes, m': TreeMem, a: Addr, side: bool)
    requires BackArgs(m, node, m') && a in m'.size
    requires if a in m.size then m.size[a] in lev && DownOk(m, lev, node, a, side)
             else m'.left[a] == 0 && m'.right[a] == 0
    ensures DownOk(m', lev, node, a, side)
  {
    hide TreeIndex, BinLevel, Hi;
    if a in m.size { DownKept(m, lev, node, m', lev, node, a, side); }
  }

  lemma BackBin(m: TreeMem, lev: Shape, node: Nodes, m': TreeMem, i: nat)
    requires BackArgs(m, node, m') && i < NTREEBINS && BinOk(m, lev, node, i)
    ensures BinOk(m', lev, node, i)
  {
    hide TreeIndex, BinLevel, Hi;
  }

  // ----- rings -----

  lemma CutMembers(size: map<Addr, nat>, node: Nodes, ring: RingMap, s: nat, k: nat)
    requires Members(size, node, ring) && s in ring && k < |ring[s]| && |ring[s]| > 1
    requires forall i, j :: 0 <= i < j < |ring[s]| ==> ring[s][i] != ring[s][j]
    ensures var r' := CutRing(ring[s], k); Members(size - {ring[s][k]}, node[s := r'[0]], ring[s := r'])
  {
    var r := ring[s];
    var r' := CutRing(r, k);
    forall a | a in r && a != r[k]
      ensures a in r'
    {
      var j :| 0 <= j < |r| && r[j] == a;
      assert r'[if k == 0 then (if j == |r| - 1 then 0 else j) else if j < k then j else j - 1] == a;
    }
  }

  lemma RingNeighbours(r: seq<Addr>, k: nat, fd: map<Addr, Addr>, bk: map<Addr, Addr>)
    requires RingLinked(r, fd, bk) && k < |r|
    ensures r[k] in fd && r[k] in bk && fd[r[k]] in r && bk[r[k]] in r
  {
    assert fd[r[k]] == Next(r, k) && bk[r[k]] == Prev(r, k);
  }

  lemma RingCut(m: TreeMem, node: Nodes, ring: RingMap, s: nat, k: nat, m': TreeMem)
    requires Domains(m) && RingsOk(m, node, ring) && s in ring && k < |ring[s]| && |ring[s]| > 1
    requires ring[s][k] in m.fd && ring[s][k] in m.bk && m'.size == m.size - {ring[s][k]}
    requires m'.fd == m.fd[m.bk[ring[s][k]] := m.fd[ring[s][k]]]
    requires m'.bk == m.bk[m.fd[ring[s][k]] := m.bk[ring[s][k]]]
    ensures RingsOk(m', node[s := CutRing(ring[s], k)[0]], ring[s := CutRing(ring[s], k)])
  {
    hide TreeIndex, Members, RingLinked, CutRing;
    var r := ring[s];
    assert RingLinked(ring[s], m.fd, m.bk);
    RingSizes(m.size, node, ring, s);
    CutLinked(r, k, m.fd, m.bk, m'.fd, m'.bk);
    RingDomain(r, m.fd, m.bk);
    CutMembers(m.size, node, ring, s, k);
    RingNeighbours(r, k, m.fd, m.bk);
    forall u | u in ring && u != s
      ensures RingLinked(ring[u], m'.fd, m'.bk)
    {
      assert RingLinked(ring[u], m.fd, m.bk);
      RingSizes(m.size, node, ring, u);
      OtherRing(m, ring, u, s, r[k], m'.fd, m'.bk);
    }
  }

  lemma RingGone(m: TreeMem, node: Nodes, ring: RingMap, s: nat, m': TreeMem)
    requires RingsOk(m, node, ring) && s in ring && |ring[s]| == 1
    requires m'.size == m.size - {ring[s][0]} && m'.fd == m.fd && m'.bk == m.bk
    ensures RingsOk(m', node - {s}, ring - {s})
  {
    hide TreeIndex, Members, RingLinked;
    GoneMembers(m.size, node, ring, s);
  }

  lemma GoneMembers(size: map<Addr, nat>, node: Nodes, ring: RingMap, s: nat)
    requires Members(size, node, ring) && s in ring && |ring[s]| == 1
    ensures Members(size - {ring[s][0]}, node - {s}, ring - {s})
  {
    var size', ring' := size - {ring[s][0]}, ring - {s};
    forall u, i | u in ring' && 0 <= i < |ring'[u]|
      ensures ring'[u][i] in size' && size'[ring'[u][i]] == u
    {
      assert ring[u][i] in size;
    }
  }
}
