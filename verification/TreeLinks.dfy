/**
 The pointers of the tree bins: child, parent, ring and bin-header links of the chunks
 kept in the tries (src/dl_malloc.c:2398-2412, 3304-3364). Pointers are chunk addresses,
 zero is the null pointer, and a parent link may also lead to a bin header.
 */
module TreeLinks {
  import opened Words
  import opened BinIndex
  import opened TrieShape
  import opened Rings

  type Addr = nat

  datatype Link = Null | Chunk(addr: Addr) | Bin(index: nat)

  /** The link words of the tree chunks, and the bin headers. */
  datatype TreeMem = TreeMem(
    size: map<Addr, nat>,
    index: map<Addr, nat>,
    left: map<Addr, Addr>,
    right: map<Addr, Addr>,
    parent: map<Addr, Link>,
    fd: map<Addr, Addr>,
    bk: map<Addr, Addr>,
    bins: seq<Addr>)

  /** The tree node of each size. */
  type Nodes = map<nat, Addr>

  /** The chunks of each size; the first one is the tree node, the others hang on its ring. */
  type RingMap = map<nat, seq<Addr>>

  function Child(m: TreeMem, a: Addr, side: bool): Addr
    requires a in m.left && a in m.right
  {
    if side then m.right[a] else m.left[a]
  }

  ghost predicate Domains(m: TreeMem) {
    && |m.bins| == NTREEBINS
    && forall a :: a in m.size ==>
         a > 0 && a in m.index && a in m.left && a in m.right && a in m.parent && a in m.fd && a in m.bk
  }

  // ----- rings -----

  ghost predicate Members(size: map<Addr, nat>, node: Nodes, ring: RingMap) {
    && ring.Keys == node.Keys
    && (forall a :: a in size ==> size[a] in ring && a in ring[size[a]])
    && (forall s :: s in ring ==> |ring[s]| > 0 && ring[s][0] == node[s])
    && (forall s, i :: s in ring && 0 <= i < |ring[s]| ==> ring[s][i] in size && size[ring[s][i]] == s)
  }

  ghost predicate RingsOk(m: TreeMem, node: Nodes, ring: RingMap) {
    && Members(m.size, node, ring)
    && forall s :: s in ring ==> RingLinked(ring[s], m.fd, m.bk)
  }

  // ----- tree nodes -----

  ghost predicate IsNode(m: TreeMem, node: Nodes, a: Addr) {
    a in m.size && m.size[a] in node && node[m.size[a]] == a
  }

  /** The upward links of one chunk: of a tree node to its parent, or none for the others on a ring. */
  ghost predicate UpOk(m: TreeMem, lev: Shape, node: Nodes, a: Addr)
    requires Domains(m) && a in m.size
  {
    var s := m.size[a];
    if !IsNode(m, node, a) then
      m.parent[a] == Null && m.left[a] == 0 && m.right[a] == 0
    else if s in lev && lev[s] == RootLevel(s) then
      m.parent[a] == Bin(TreeIndex(s)) && m.bins[TreeIndex(s)] == a
    else
      && s in lev && m.parent[a].Chunk?
      && var p := m.parent[a].addr;
      && IsNode(m, node, p) && IsParent(lev, m.size[p], s)
      && Child(m, p, BitAt(s, lev[s])) == a
  }

  /** The child pointers of a tree node. */
  ghost predicate DownOk(m: TreeMem, lev: Shape, node: Nodes, a: Addr, side: bool)
    requires Domains(m) && a in m.size
  {
    var c := Child(m, a, side);
    c != 0 ==>
      && IsNode(m, node, c) && m.size[c] in lev && IsParent(lev, m.size[a], m.size[c])
      && BitAt(m.size[c], lev[m.size[c]]) == side
  }

  ghost predicate BinOk(m: TreeMem, lev: Shape, node: Nodes, i: nat)
    requires Domains(m) && i < NTREEBINS
  {
    var a := m.bins[i];
    a != 0 ==> IsNode(m, node, a) && TreeIndex(m.size[a]) == i && m.size[a] in lev && lev[m.size[a]] == BinLevel(i)
  }

  ghost predicate NodeTable(m: TreeMem, lev: Shape, node: Nodes) {
    && Domains(m)
    && node.Keys == lev.Keys
    && (forall s :: s in node ==> node[s] in m.size && m.size[node[s]] == s)
    && (forall a :: a in m.size ==> m.size[a] in node && m.index[a] == TreeIndex(m.size[a]))
  }

  ghost predicate AllUp(m: TreeMem, lev: Shape, node: Nodes)
    requires Domains(m)
  {
    forall a :: a in m.size ==> UpOk(m, lev, node, a)
  }

  ghost predicate AllDown(m: TreeMem, lev: Shape, node: Nodes)
    requires Domains(m)
  {
    forall a, side :: a in m.size ==> DownOk(m, lev, node, a, side)
  }

  ghost predicate AllBins(m: TreeMem, lev: Shape, node: Nodes)
    requires Domains(m)
  {
    forall i :: 0 <= i < NTREEBINS ==> BinOk(m, lev, node, i)
  }

  ghost predicate NodesOk(m: TreeMem, lev: Shape, node: Nodes) {
    NodeTable(m, lev, node) && AllUp(m, lev, node) && AllDown(m, lev, node) && AllBins(m, lev, node)
  }

  /** What do_check_tree and do_check_treebin check, for all bins (src/dl_malloc.c:3304-3364). */
  ghost predicate TreeOk(m: TreeMem, lev: Shape, node: Nodes, ring: RingMap) {
    ShapeOk(lev) && NodesOk(m, lev, node) && RingsOk(m, node, ring)
  }

  // ----- consequences -----

  /** The child pointer on the side of u leads to u. */
  lemma ChildFound(m: TreeMem, lev: Shape, node: Nodes, t: nat, u: nat)
    requires NodesOk(m, lev, node) && ShapeOk(lev) && t in lev && u in lev && IsParent(lev, t, u)
    ensures Child(m, node[t], BitAt(u, lev[u])) == node[u]
  {
    hide TreeIndex, BinLevel, Hi;
    assert UpOk(m, lev, node, node[u]);
    assert RootLevel(u) == RootLevel(t);
  }

  /** A trie with a size in it has its bin header set. */
  lemma RootFound(m: TreeMem, lev: Shape, node: Nodes, s: nat)
    requires NodesOk(m, lev, node) && ShapeOk(lev) && s in lev
    ensures var a := m.bins[TreeIndex(s)];
            && IsNode(m, node, a) && lev[m.size[a]] == RootLevel(s) && Agree(m.size[a], s, RootLevel(s))
  {
    hide TreeIndex, BinLevel, Hi;
    var t := Ancestor(lev, s, RootLevel(s));
    assert UpOk(m, lev, node, node[t]);
  }

  // ----- frames -----

  /** If b is a tree node, it stays one at the same place. */
  ghost predicate NodeKept(m: TreeMem, lev: Shape, node: Nodes, m': TreeMem, lev': Shape, node': Nodes, b: Addr) {
    IsNode(m, node, b) && m.size[b] in lev ==>
      IsNode(m', node', b) && m'.size[b] == m.size[b] && m.size[b] in lev' && lev'[m.size[b]] == lev[m.size[b]]
  }

  /** A link survives when its chunk, and the node it leads to, are kept. */
  lemma UpKept(m: TreeMem, lev: Shape, node: Nodes, m': TreeMem, lev': Shape, node': Nodes, a: Addr)
    requires Domains(m) && Domains(m') && a in m.size && a in m'.size
    requires UpOk(m, lev, node, a)
    requires m'.size[a] == m.size[a] && m'.parent[a] == m.parent[a]
    requires !IsNode(m, node, a) ==> m'.left[a] == m.left[a] && m'.right[a] == m.right[a]
    requires var s := m.size[a]; s in lev && s in lev' && lev'[s] == lev[s]
    requires IsNode(m, node, a) <==> IsNode(m', node', a)
    requires m.parent[a].Chunk? ==>
      var p := m.parent[a].addr;
      && NodeKept(m, lev, node, m', lev', node', p)
      && (p in m.size && p in m'.size ==>
            (m.left[p] == a ==> m'.left[p] == a) && (m.right[p] == a ==> m'.right[p] == a))
    requires m.bins[TreeIndex(m.size[a])] == a ==> m'.bins[TreeIndex(m.size[a])] == a
    ensures UpOk(m', lev', node', a)
  {
    hide TreeIndex, BinLevel, Hi;
  }

  lemma DownKept(m: TreeMem, lev: Shape, node: Nodes, m': TreeMem, lev': Shape, node': Nodes, a: Addr, side: bool)
    requires Domains(m) && Domains(m') && a in m.size && a in m'.size
    requires DownOk(m, lev, node, a, side)
    requires m'.size[a] == m.size[a] && (Child(m', a, side) == Child(m, a, side) || Child(m', a, side) == 0)
    requires var s := m.size[a]; s in lev && s in lev' && lev'[s] == lev[s]
    requires NodeKept(m, lev, node, m', lev', node', Child(m', a, side))
    ensures DownOk(m', lev', node', a, side)
  {
    hide TreeIndex, BinLevel, Hi;
  }

  // ----- a new chunk -----

  /** The words every insertion writes, for a chunk x of size s. */
  function Fresh(m: TreeMem, x: Addr, s: nat, up: Link, fd: Addr, bk: Addr): TreeMem {
    m.(size := m.size[x := s],
       index := m.index[x := TreeIndex(s)],
       left := m.left[x := 0],
       right := m.right[x := 0],
       parent := m.parent[x := up],
       fd := m.fd[x := fd],
       bk := m.bk[x := bk])
  }

  /** X becomes the root of an empty bin (src/dl_malloc.c:3659-3664). */
  function AsRoot(m: TreeMem, x: Addr, s: nat): TreeMem
    requires |m.bins| == NTREEBINS
  {
    var i := TreeIndex(s);
    Fresh(m, x, s, Bin(i), x, x).(bins := m.bins[i := x])
  }

  /** X becomes the child of T on the given side (src/dl_malloc.c:3674-3678). */
  function AsChild(m: TreeMem, x: Addr, s: nat, t: Addr, side: bool): TreeMem {
    var m1 := Fresh(m, x, s, Chunk(t), x, x);
    if side then m1.(right := m1.right[t := x]) else m1.(left := m1.left[t := x])
  }

  /** X joins the ring of T, after T (src/dl_malloc.c:3686-3692). */
  function OnRing(m: TreeMem, x: Addr, s: nat, t: Addr): TreeMem
    requires t in m.fd
  {
    var f := m.fd[t];
    var m1 := Fresh(m, x, s, Null, f, t);
    m1.(fd := m1.fd[t := x], bk := m1.bk[f := x])
  }

  lemma AloneOnRing(m: TreeMem, node: Nodes, ring: RingMap, x: Addr, s: nat, m': TreeMem)
    requires RingsOk(m, node, ring) && x !in m.size && s !in ring
    requires m'.size == m.size[x := s] && m'.fd == m.fd[x := x] && m'.bk == m.bk[x := x]
    ensures RingsOk(m', node[s := x], ring[s := [x]])
  {
    hide TreeIndex, Members, RingLinked;
    AloneMembers(m.size, node, ring, x, s);
    SelfRing(x, m'.fd, m'.bk);
    forall u | u in ring
      ensures RingLinked(ring[u], m'.fd, m'.bk)
    {
      RingSizes(m.size, node, ring, u);
      OtherRing(m, ring, u, s, x, m'.fd, m'.bk);
    }
  }

  lemma RingSizes(size: map<Addr, nat>, node: Nodes, ring: RingMap, u: nat)
    requires Members(size, node, ring) && u in ring
    ensures |ring[u]| > 0 && ring[u][0] == node[u]
    ensures forall i :: 0 <= i < |ring[u]| ==> ring[u][i] in size && size[ring[u][i]] == u
    ensures forall a :: a in size && size[a] == u ==> a in ring[u]
  {}

  lemma AloneMembers(size: map<Addr, nat>, node: Nodes, ring: RingMap, x: Addr, s: nat)
    requires Members(size, node, ring) && x !in size && s !in ring
    ensures Members(size[x := s], node[s := x], ring[s := [x]])
  {}

  lemma RootAdded(m: TreeMem, lev: Shape, node: Nodes, ring: RingMap, x: Addr, s: nat)
    requires TreeOk(m, lev, node, ring) && x > 0 && x !in m.size && LargeSize(s)
    requires m.bins[TreeIndex(s)] == 0
    ensures s !in lev
    ensures TreeOk(AsRoot(m, x, s), lev[s := RootLevel(s)], node[s := x], ring[s := [x]])
  {
    hide TreeIndex, BinLevel, Hi, NodesOk, RingsOk;
    NodeKeys(m, lev, node, ring);
    forall u | u in lev
      ensures TreeIndex(u) != TreeIndex(s)
    {
      RootFound(m, lev, node, u);
    }
    AddRoot(lev, s);
    RootNodes(m, lev, node, x, s);
    AloneOnRing(m, node, ring, x, s, AsRoot(m, x, s));
  }

  lemma NodeKeys(m: TreeMem, lev: Shape, node: Nodes, ring: RingMap)
    requires TreeOk(m, lev, node, ring)
    ensures Domains(m) && ring.Keys == node.Keys == lev.Keys
  {}

  lemma RootNodes(m: TreeMem, lev: Shape, node: Nodes, x: Addr, s: nat)
    requires NodesOk(m, lev, node) && x > 0 && x !in m.size
    requires m.bins[TreeIndex(s)] == 0 && s !in lev
    ensures NodesOk(AsRoot(m, x, s), lev[s := RootLevel(s)], node[s := x])
  {
    hide TreeIndex, BinLevel, Hi, UpOk, DownOk, BinOk;
    var m', lev', node' := AsRoot(m, x, s), lev[s := RootLevel(s)], node[s := x];
    assert Domains(m');
    forall a | a in m'.size
      ensures UpOk(m', lev', node', a)
    {
      RootUp(m, lev, node, x, s, a);
    }
    forall a, side | a in m'.size
      ensures DownOk(m', lev', node', a, side)
    {
      RootDown(m, lev, node, x, s, a, side);
    }
    forall i | 0 <= i < NTREEBINS
      ensures BinOk(m', lev', node', i)
    {
      RootBin(m, lev, node, x, s, i);
    }
  }

  lemma RootUp(m: TreeMem, lev: Shape, node: Nodes, x: Addr, s: nat, a: Addr)
    requires Domains(m) && x > 0 && x !in m.size && s !in lev && node.Keys == lev.Keys
    requires Domains(AsRoot(m, x, s)) && m.bins[TreeIndex(s)] == 0
    requires a == x || (a in m.size && m.size[a] in lev && UpOk(m, lev, node, a))
    ensures UpOk(AsRoot(m, x, s), lev[s := RootLevel(s)], node[s := x], a)
  {
    hide TreeIndex, BinLevel, Hi;
    if a != x { UpKept(m, lev, node, AsRoot(m, x, s), lev[s := RootLevel(s)], node[s := x], a); }
  }

  lemma RootDown(m: TreeMem, lev: Shape, node: Nodes, x: Addr, s: nat, a: Addr, side: bool)
    requires Domains(m) && x > 0 && x !in m.size && s !in lev && node.Keys == lev.Keys
    requires Domains(AsRoot(m, x, s))
    requires a == x || (a in m.size && m.size[a] in lev && DownOk(m, lev, node, a, side))
    ensures DownOk(AsRoot(m, x, s), lev[s := RootLevel(s)], node[s := x], a, side)
  {
    hide TreeIndex, BinLevel, Hi;
    if a != x { DownKept(m, lev, node, AsRoot(m, x, s), lev[s := RootLevel(s)], node[s := x], a, side); }
  }

  lemma RootBin(m: TreeMem, lev: Shape, node: Nodes, x: Addr, s: nat, i: nat)
    requires Domains(m) && x > 0 && x !in m.size && s !in lev && node.Keys == lev.Keys && i < NTREEBINS
    requires Domains(AsRoot(m, x, s)) && BinOk(m, lev, node, i)
    ensures BinOk(AsRoot(m, x, s), lev[s := RootLevel(s)], node[s := x], i)
  {
    hide TreeIndex, BinLevel, Hi;
  }

  // ----- a new child -----

  /** The side of s below t is free when its child pointer is null. */
  lemma FreeSide(m: TreeMem, lev: Shape, node: Nodes, t: nat, s: nat, u: nat)
    requires NodesOk(m, lev, node) && ShapeOk(lev) && t in lev && u in lev
    requires lev[u] + 1 == lev[t] && Agree(t, s, lev[t]) && Agree(u, s, lev[u])
    ensures Child(m, node[t], BitAt(s, lev[u])) == node[u]
  {
    hide TreeIndex, BinLevel, NodesOk, ShapeOk;
    AgreeUp(u, s, lev[u], lev[t]);
    ChildFound(m, lev, node, t, u);
  }

  lemma ChildAdded(m: TreeMem, lev: Shape, node: Nodes, ring: RingMap, x: Addr, s: nat, t: nat)
    requires TreeOk(m, lev, node, ring) && x > 0 && x !in m.size && LargeSize(s) && s !in lev
    requires t in lev && lev[t] > 0 && Agree(t, s, lev[t])
    requires Child(m, node[t], BitAt(s, lev[t] - 1)) == 0
    ensures TreeOk(AsChild(m, x, s, node[t], BitAt(s, lev[t] - 1)), lev[s := lev[t] - 1], node[s := x], ring[s := [x]])
  {
    hide TreeIndex, BinLevel, Hi, NodesOk, RingsOk;
    NodeKeys(m, lev, node, ring);
    NodeAddr(m, lev, node);
    forall u | u in lev && lev[u] == lev[t] - 1
      ensures !Agree(u, s, lev[u])
    {
      if Agree(u, s, lev[u]) { FreeSide(m, lev, node, t, s, u); }
    }
    AddChild(lev, t, s);
    ChildNodes(m, lev, node, x, s, t);
    AloneOnRing(m, node, ring, x, s, AsChild(m, x, s, node[t], BitAt(s, lev[t] - 1)));
  }

  lemma NodeAddr(m: TreeMem, lev: Shape, node: Nodes)
    requires NodesOk(m, lev, node)
    ensures forall s :: s in node ==> node[s] > 0 && node[s] in m.size && m.size[node[s]] == s
  {}

  lemma ChildNodes(m: TreeMem, lev: Shape, node: Nodes, x: Addr, s: nat, t: nat)
    requires NodesOk(m, lev, node) && x > 0 && x !in m.size && s !in lev
    requires t in lev && 0 < lev[t] <= RootLevel(t) && Agree(t, s, lev[t])
    requires Child(m, node[t], BitAt(s, lev[t] - 1)) == 0
    ensures NodesOk(AsChild(m, x, s, node[t], BitAt(s, lev[t] - 1)), lev[s := lev[t] - 1], node[s := x])
  {
    hide TreeIndex, BinLevel, Hi, UpOk, DownOk, BinOk, AsChild, NodeTable, ChildArgs;
    ChildReady(m, lev, node, x, s, t);
    var m', lev', node' := AsChild(m, x, s, node[t], BitAt(s, lev[t] - 1)), lev[s := lev[t] - 1], node[s := x];
    forall a | a in m'.size
      ensures UpOk(m', lev', node', a)
    {
      ChildUp(m, lev, node, x, s, t, a);
    }
    forall a, side | a in m'.size
      ensures DownOk(m', lev', node', a, side)
    {
      ChildDown(m, lev, node, x, s, t, a, side);
    }
    forall i | 0 <= i < NTREEBINS
      ensures BinOk(m', lev', node', i)
    {
      ChildBin(m, lev, node, x, s, t, i);
    }
  }

  lemma ChildReady(m: TreeMem, lev: Shape, node: Nodes, x: Addr, s: nat, t: nat)
    requires NodeTable(m, lev, node) && x > 0 && x !in m.size && s !in lev
    requires t in lev && 0 < lev[t] <= RootLevel(t) && Agree(t, s, lev[t])
    requires Child(m, node[t], BitAt(s, lev[t] - 1)) == 0
    ensures var m' := AsChild(m, x, s, node[t], BitAt(s, lev[t] - 1));
            && ChildArgs(m, lev, node, x, s, t) && Domains(m) && Domains(m') && m'.size == m.size[x := s]
            && NodeTable(m', lev[s := lev[t] - 1], node[s := x])
    ensures t in node && forall a :: a in m.size ==> m.size[a] in lev
  {
    hide TreeIndex, BinLevel, Hi;
  }

  ghost predicate ChildArgs(m: TreeMem, lev: Shape, node: Nodes, x: Addr, s: nat, t: nat) {
    && Domains(m) && x > 0 && x !in m.size && s !in lev && node.Keys == lev.Keys
    && t in lev && node[t] in m.size && m.size[node[t]] == t
    && 0 < lev[t] <= RootLevel(t) && Agree(t, s, lev[t])
    && Child(m, node[t], BitAt(s, lev[t] - 1)) == 0
    && Domains(AsChild(m, x, s, node[t], BitAt(s, lev[t] - 1)))
  }

  lemma ChildUp(m: TreeMem, lev: Shape, node: Nodes, x: Addr, s: nat, t: nat, a: Addr)
    requires ChildArgs(m, lev, node, x, s, t)
    requires a == x || (a in m.size && m.size[a] in lev && UpOk(m, lev, node, a))
    ensures UpOk(AsChild(m, x, s, node[t], BitAt(s, lev[t] - 1)), lev[s := lev[t] - 1], node[s := x], a)
  {
    hide TreeIndex, BinLevel, Hi;
    var m', lev', node' := AsChild(m, x, s, node[t], BitAt(s, lev[t] - 1)), lev[s := lev[t] - 1], node[s := x];
    if a != x {
      NotNodeLinks(m, lev, node, a);
      if m.parent[a].Chunk? { SlotKept(m, x, s, node[t], BitAt(s, lev[t] - 1), m.parent[a].addr, a); }
      UpKept(m, lev, node, m', lev', node', a);
    } else {
      assert RootLevel(s) == RootLevel(t);
    }
  }

  lemma SlotKept(m: TreeMem, x: Addr, s: nat, t: Addr, side: bool, p: Addr, a: Addr)
    requires Domains(m) && x !in m.size && t in m.size && p in m.size && a > 0 && Child(m, t, side) == 0
    ensures var m' := AsChild(m, x, s, t, side);
            && (m.left[p] == a ==> m'.left[p] == a) && (m.right[p] == a ==> m'.right[p] == a)
  {}

  lemma NotNodeLinks(m: TreeMem, lev: Shape, node: Nodes, a: Addr)
    requires Domains(m) && a in m.size && UpOk(m, lev, node, a)
    ensures m.parent[a].Chunk? ==> m.parent[a].addr in m.size
  {}

  lemma ChildDown(m: TreeMem, lev: Shape, node: Nodes, x: Addr, s: nat, t: nat, a: Addr, side: bool)
    requires ChildArgs(m, lev, node, x, s, t)
    requires a == x || (a in m.size && m.size[a] in lev && DownOk(m, lev, node, a, side))
    ensures DownOk(AsChild(m, x, s, node[t], BitAt(s, lev[t] - 1)), lev[s := lev[t] - 1], node[s := x], a, side)
  {
    hide TreeIndex, BinLevel, Hi;
    if a != x && !(a == node[t] && side == BitAt(s, lev[t] - 1)) {
      DownKept(m, lev, node, AsChild(m, x, s, node[t], BitAt(s, lev[t] - 1)), lev[s := lev[t] - 1], node[s := x], a,
               side);
    }
  }

  lemma ChildBin(m: TreeMem, lev: Shape, node: Nodes, x: Addr, s: nat, t: nat, i: nat)
    requires ChildArgs(m, lev, node, x, s, t) && i < NTREEBINS && BinOk(m, lev, node, i)
    ensures BinOk(AsChild(m, x, s, node[t], BitAt(s, lev[t] - 1)), lev[s := lev[t] - 1], node[s := x], i)
  {
    hide TreeIndex, BinLevel, Hi;
  }

  // ----- a chunk of a size that is already there -----

  lemma RingJoined(m: TreeMem, lev: Shape, node: Nodes, ring: RingMap, x: Addr, s: nat)
    requires TreeOk(m, lev, node, ring) && x > 0 && x !in m.size && s in lev
    ensures TreeOk(OnRing(m, x, s, node[s]), lev, node, ring[s := [node[s], x] + ring[s][1..]])
  {
    hide TreeIndex, BinLevel, Hi, NodesOk, RingsOk, ShapeOk;
    NodeKeys(m, lev, node, ring);
    NodeAddr(m, lev, node);
    JoinNodes(m, lev, node, x, s);
    JoinRing(m, node, ring, x, s);
  }

  lemma JoinNodes(m: TreeMem, lev: Shape, node: Nodes, x: Addr, s: nat)
    requires NodesOk(m, lev, node) && x > 0 && x !in m.size && s in lev
    ensures NodesOk(OnRing(m, x, s, node[s]), lev, node)
  {
    hide TreeIndex, BinLevel, Hi, UpOk, DownOk, BinOk;
    var m' := OnRing(m, x, s, node[s]);
    assert Domains(m');
    forall a | a in m'.size
      ensures UpOk(m', lev, node, a)
    {
      JoinUp(m, lev, node, x, s, a);
    }
    forall a, side | a in m'.size
      ensures DownOk(m', lev, node, a, side)
    {
      JoinDown(m, lev, node, x, s, a, side);
    }
    forall i | 0 <= i < NTREEBINS
      ensures BinOk(m', lev, node, i)
    {
      JoinBin(m, lev, node, x, s, i);
    }
  }

  ghost predicate JoinArgs(m: TreeMem, lev: Shape, node: Nodes, x: Addr, s: nat) {
    && Domains(m) && x > 0 && x !in m.size && s in lev && node.Keys == lev.Keys
    && node[s] in m.size && Domains(OnRing(m, x, s, node[s]))
  }

  lemma JoinUp(m: TreeMem, lev: Shape, node: Nodes, x: Addr, s: nat, a: Addr)
    requires JoinArgs(m, lev, node, x, s)
    requires a == x || (a in m.size && m.size[a] in lev && UpOk(m, lev, node, a))
    ensures UpOk(OnRing(m, x, s, node[s]), lev, node, a)
  {
    hide TreeIndex, BinLevel, Hi;
    if a != x {
      NotNodeLinks(m, lev, node, a);
      UpKept(m, lev, node, OnRing(m, x, s, node[s]), lev, node, a);
    }
  }

  lemma JoinDown(m: TreeMem, lev: Shape, node: Nodes, x: Addr, s: nat, a: Addr, side: bool)
    requires JoinArgs(m, lev, node, x, s)
    requires a == x || (a in m.size && m.size[a] in lev && DownOk(m, lev, node, a, side))
    ensures DownOk(OnRing(m, x, s, node[s]), lev, node, a, side)
  {
    hide TreeIndex, BinLevel, Hi;
    if a != x { DownKept(m, lev, node, OnRing(m, x, s, node[s]), lev, node, a, side); }
  }

  lemma JoinBin(m: TreeMem, lev: Shape, node: Nodes, x: Addr, s: nat, i: nat)
    requires JoinArgs(m, lev, node, x, s) && i < NTREEBINS && BinOk(m, lev, node, i)
    ensures BinOk(OnRing(m, x, s, node[s]), lev, node, i)
  {
    hide TreeIndex, BinLevel, Hi;
  }

  lemma JoinRing(m: TreeMem, node: Nodes, ring: RingMap, x: Addr, s: nat)
    requires Domains(m) && RingsOk(m, node, ring) && x !in m.size && s in ring && node[s] in m.size
    ensures RingsOk(OnRing(m, x, s, node[s]), node, ring[s := [node[s], x] + ring[s][1..]])
  {
    hide TreeIndex, RingLinked, OnRing;
    var m' := OnRing(m, x, s, node[s]);
    JoinOwnRing(m, node, ring, x, s);
    forall u | u in ring && u != s
      ensures RingLinked(ring[u], m'.fd, m'.bk)
    {
      JoinOtherRing(m, node, ring, x, s, u);
    }
    JoinMembers(m.size, node, ring, x, s);
  }

  lemma JoinOwnRing(m: TreeMem, node: Nodes, ring: RingMap, x: Addr, s: nat)
    requires Domains(m) && RingsOk(m, node, ring) && x !in m.size && s in ring && node[s] in m.size
    ensures var m' := OnRing(m, x, s, node[s]);
            RingLinked([node[s], x] + ring[s][1..], m'.fd, m'.bk) && m'.size == m.size[x := s]
  {
    hide TreeIndex, RingLinked;
    var r, m' := ring[s], OnRing(m, x, s, node[s]);
    assert RingLinked(r, m.fd, m.bk);
    assert forall i :: 0 <= i < |r| ==> r[i] in m.size && m.size[r[i]] == s;
    JoinSeq(r, x, m.fd, m.bk, m'.fd, m'.bk);
  }

  lemma JoinOtherRing(m: TreeMem, node: Nodes, ring: RingMap, x: Addr, s: nat, u: nat)
    requires Domains(m) && RingsOk(m, node, ring) && x !in m.size && s in ring && node[s] in m.size && u in ring
    requires u != s
    ensures var m' := OnRing(m, x, s, node[s]); RingLinked(ring[u], m'.fd, m'.bk)
  {
    hide TreeIndex, RingLinked;
    var r, m' := ring[s], OnRing(m, x, s, node[s]);
    assert RingLinked(r, m.fd, m.bk) && RingLinked(ring[u], m.fd, m.bk);
    SecondInRing(r, m.fd, m.bk);
    OtherRing(m, ring, u, s, x, m'.fd, m'.bk);
  }

  lemma SecondInRing(r: seq<Addr>, fd: map<Addr, Addr>, bk: map<Addr, Addr>)
    requires RingLinked(r, fd, bk) && |r| > 0
    ensures r[0] in fd && fd[r[0]] in r
  {
    assert fd[r[0]] == Next(r, 0);
  }

  lemma JoinMembers(size: map<Addr, nat>, node: Nodes, ring: RingMap, x: Addr, s: nat)
    requires Members(size, node, ring) && x !in size && s in ring
    ensures Members(size[x := s], node, ring[s := [node[s], x] + ring[s][1..]])
  {
    var r := ring[s];
    var r' := [node[s], x] + r[1..];
    assert forall a :: a in r ==> a in r' by {
      forall a | a in r
        ensures a in r'
      {
        var i :| 0 <= i < |r| && r[i] == a;
        assert i > 0 ==> r'[i + 1] == a;
      }
    }
    assert x in r' by { assert r'[1] == x; }
  }

  /** A ring of another size does not see changes at chunks of size s. */
  lemma OtherRing(m: TreeMem, ring: RingMap, u: nat, s: nat, x: Addr, fd': map<Addr, Addr>, bk': map<Addr, Addr>)
    requires u in ring && u != s && RingLinked(ring[u], m.fd, m.bk)
    requires forall i :: 0 <= i < |ring[u]| ==> ring[u][i] in m.size && m.size[ring[u][i]] == u
    requires forall a :: a in m.size && m.size[a] != s && a != x && a in m.fd && a in m.bk ==>
      a in fd' && a in bk' && fd'[a] == m.fd[a] && bk'[a] == m.bk[a]
    requires x !in m.size || m.size[x] == s
    ensures RingLinked(ring[u], fd', bk')
  {
    RingDomain(ring[u], m.fd, m.bk);
    hide RingLinked;
    RingKept(ring[u], m.fd, m.bk, fd', bk');
  }
}
