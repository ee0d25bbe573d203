/**
 Why the searches of the tries find a best fit: the deepest untaken right subtree, and the
 leftmost path (src/dl_malloc.c:2383-2389, 4444-4484). Sizes stand for tree nodes here;
 zero stands for no node.
 */
module TrieSearch {
  import opened Words
  import opened BinIndex
  import opened TrieShape
  import opened TreeLinks
  import opened TreeUnlink

  /** The size of the child of t on a side, or zero. */
  ghost function ChildSize(m: TreeMem, node: Nodes, t: nat, side: bool): nat
    requires Domains(m) && t in node && node[t] in m.size
  {
    var c := Child(m, node[t], side);
    if c in m.size then m.size[c] else 0
  }

  /** What the two child pointers of the node of size t say about the subtree below it. */
  ghost predicate Split(lev: Shape, t: nat, l: nat, r: nat)
    requires t in lev
  {
    && (l != 0 ==> l in lev && IsParent(lev, t, l) && !BitAt(l, lev[l]))
    && (r != 0 ==> r in lev && IsParent(lev, t, r) && BitAt(r, lev[r]))
    && forall u :: Under(lev, u, t) && u != t ==>
         lev[u] < lev[t] && (if BitAt(u, lev[t] - 1) then r != 0 && Under(lev, u, r) else l != 0 && Under(lev, u, l))
  }

  lemma NodeSplit(m: TreeMem, lev: Shape, node: Nodes, t: nat)
    requires NodesOk(m, lev, node) && ShapeOk(lev) && t in lev
    ensures Split(lev, t, ChildSize(m, node, t, false), ChildSize(m, node, t, true))
    ensures forall side :: ChildSize(m, node, t, side) == 0 <==> Child(m, node[t], side) == 0
    ensures forall side :: Child(m, node[t], side) != 0 ==>
      var c := Child(m, node[t], side); IsNode(m, node, c) && m.size[c] == ChildSize(m, node, t, side)
  {
    hide TreeIndex, BinLevel, Hi, UpOk, BinOk, ShapeOk;
    NodeAddr(m, lev, node);
    var l, r := ChildSize(m, node, t, false), ChildSize(m, node, t, true);
    assert DownOk(m, lev, node, node[t], false) && DownOk(m, lev, node, node[t], true);
    forall u | Under(lev, u, t) && u != t
      ensures lev[u] < lev[t]
      ensures if BitAt(u, lev[t] - 1) then r != 0 && Under(lev, u, r) else l != 0 && Under(lev, u, l)
    {
      var c := UnderChild(m, lev, node, t, u);
    }
  }

  lemma UnderChild(m: TreeMem, lev: Shape, node: Nodes, t: nat, u: nat) returns (c: nat)
    requires NodesOk(m, lev, node) && ShapeOk(lev) && t in lev && Under(lev, u, t) && u != t
    ensures c in lev && lev[u] < lev[t] && Under(lev, u, c) && c > 0
    ensures Domains(m) && t in node && node[t] in m.size && ChildSize(m, node, t, BitAt(u, lev[t] - 1)) == c
  {
    hide TreeIndex, BinLevel, Hi, UpOk, BinOk, NodesOk;
    NodeAddr(m, lev, node);
    KeysOf(m, lev, node);
    assert lev[u] != lev[t];
    assert RootLevel(u) == RootLevel(t);
    c := Ancestor(lev, u, lev[t] - 1);
    AgreeUp(c, u, lev[c], lev[t]);
    ChildFound(m, lev, node, t, c);
    SameBit(c, u, lev[c]);
    assert LargeSize(c);
  }

  // ----- down the bits of nb, remembering the deepest untaken right subtree -----

  /** u lies in the subtree of rs, or to the right of it. */
  ghost predicate RightOf(lev: Shape, u: nat, rs: nat)
    requires rs in lev
  {
    Under(lev, u, rs) || Hi(u, lev[rs]) > Hi(rs, lev[rs])
  }

  /** u is no better than the candidate vs, or still to be met below ts or from rs on. */
  ghost predicate Covered(lev: Shape, u: nat, vs: nat, ts: nat, rs: nat) {
    || (vs != 0 && vs <= u)
    || (ts != 0 && ts in lev && Under(lev, u, ts))
    || (rs != 0 && rs in lev && RightOf(lev, u, rs))
  }

  ghost predicate BinCovered(lev: Shape, nb: nat, vs: nat, ts: nat, rs: nat) {
    forall u :: u in lev && TreeIndex(u) == TreeIndex(nb) && nb <= u ==> Covered(lev, u, vs, ts, rs)
  }

  ghost predicate Untaken(lev: Shape, nb: nat, rs: nat) {
    rs != 0 ==> rs in lev && TreeIndex(rs) == TreeIndex(nb) && Hi(rs, lev[rs]) > Hi(nb, lev[rs])
  }

  ghost predicate Descent(lev: Shape, nb: nat, vs: nat, ts: nat, rs: nat) {
    && ts in lev && ts != 0 && Agree(ts, nb, lev[ts])
    && Untaken(lev, nb, rs) && (rs != 0 ==> lev[ts] <= lev[rs])
    && BinCovered(lev, nb, vs, ts, rs)
  }

  /** vs' is at least as good a candidate as vs and ts. */
  predicate Improves(nb: nat, vs: nat, ts: nat, vs': nat) {
    (vs != 0 ==> vs' != 0 && vs' <= vs) && (nb <= ts ==> vs' != 0 && vs' <= ts)
  }

  lemma DescentStep(lev: Shape, nb: nat, vs: nat, ts: nat, rs: nat, vs': nat, l: nat, r: nat)
    requires ShapeOk(lev) && Descent(lev, nb, vs, ts, rs) && Split(lev, ts, l, r) && ts != nb
    requires Improves(nb, vs, ts, vs')
    ensures lev[ts] > 0
    ensures var side := BitAt(nb, lev[ts] - 1); var t' := if side then r else l; var rs' := if !side && r != 0 then r
            else rs;
            && Untaken(lev, nb, rs')
            && if t' == 0 then BinCovered(lev, nb, vs', 0, rs') else Descent(lev, nb, vs', t', rs') && lev[t'] < lev[ts]
  {
    hide TreeIndex, BinLevel, Hi, Split, BinCovered, ShapeOk;
    DescentLevel(nb, ts, lev[ts]);
    var side := BitAt(nb, lev[ts] - 1);
    var t', rs' := if side then r else l, if !side && r != 0 then r else rs;
    StepPlaces(lev, nb, ts, l, r);
    StepCovered(lev, nb, vs, ts, rs, vs', l, r, t', rs');
  }

  lemma DescentLevel(nb: nat, ts: nat, w: nat)
    requires Agree(ts, nb, w) && ts != nb
    ensures w > 0
  {
    hide TreeIndex;
  }

  /** The child on the side of nb agrees with nb; a right child off that side lies to the right of nb. */
  lemma StepPlaces(lev: Shape, nb: nat, ts: nat, l: nat, r: nat)
    requires ts in lev && lev[ts] > 0 && Agree(ts, nb, lev[ts]) && Split(lev, ts, l, r)
    ensures var side := BitAt(nb, lev[ts] - 1); var t' := if side then r else l;
            && (t' != 0 ==> t' in lev && lev[t'] == lev[ts] - 1 && Agree(t', nb, lev[t']))
            && (!side && r != 0 ==> r in lev && lev[r] == lev[ts] - 1 && Untaken(lev, nb, r))
  {
    hide TreeIndex, BinLevel, Hi;
    if l != 0 { BitSplits(l, nb, lev[l]); }
    if r != 0 { BitSplits(r, nb, lev[r]); BitSplits(nb, r, lev[r]); }
  }

  lemma StepCovered(lev: Shape, nb: nat, vs: nat, ts: nat, rs: nat, vs': nat, l: nat, r: nat, t': nat, rs': nat)
    requires ShapeOk(lev) && Descent(lev, nb, vs, ts, rs) && Split(lev, ts, l, r) && Improves(nb, vs, ts, vs')
    requires lev[ts] > 0 && t' == (if BitAt(nb, lev[ts] - 1) then r else l)
    requires rs' == if !BitAt(nb, lev[ts] - 1) && r != 0 then r else rs
    ensures BinCovered(lev, nb, vs', t', rs')
  {
    hide TreeIndex, BinLevel, Hi, ShapeOk;
    forall u | u in lev && TreeIndex(u) == TreeIndex(nb) && nb <= u
      ensures Covered(lev, u, vs', t', rs')
    {
      if vs != 0 && vs <= u {
      } else if rs != 0 && RightOf(lev, u, rs) {
        if rs' != rs { FurtherRight(lev, nb, ts, rs, r, u); }
      } else if u != ts {
        assert Under(lev, u, ts);
        BelowStays(lev, nb, ts, l, r, u);
      }
    }
  }

  /** What lies right of an earlier untaken subtree also lies right of a deeper one. */
  lemma FurtherRight(lev: Shape, nb: nat, ts: nat, rs: nat, r: nat, u: nat)
    requires ts in lev && rs in lev && r in lev && u in lev && rs != 0
    requires Agree(ts, nb, lev[ts]) && lev[ts] <= lev[rs] && Untaken(lev, nb, rs) && RightOf(lev, u, rs)
    requires IsParent(lev, ts, r)
    ensures Hi(u, lev[r]) > Hi(r, lev[r])
  {
    hide TreeIndex, BinLevel;
    AgreeUp(ts, nb, lev[ts], lev[rs]);
    AgreeUp(ts, r, lev[ts], lev[rs]);
    HiOrderDown(r, u, lev[r], lev[rs]);
  }

  /** A size from nb on, below ts, lies on the side of nb or on its right. */
  lemma BelowStays(lev: Shape, nb: nat, ts: nat, l: nat, r: nat, u: nat)
    requires ts in lev && lev[ts] > 0 && Agree(ts, nb, lev[ts]) && Split(lev, ts, l, r)
    requires Under(lev, u, ts) && u != ts && nb <= u
    ensures if BitAt(u, lev[ts] - 1) then r != 0 && r in lev && Under(lev, u, r)
            else !BitAt(nb, lev[ts] - 1) && l != 0 && l in lev && Under(lev, u, l)
  {
    hide TreeIndex, BinLevel;
    var w := lev[ts] - 1;
    if !BitAt(u, w) && BitAt(nb, w) { LeftBelowRight(u, nb, w); }
  }

  // ----- along the leftmost path -----

  ghost predicate Rest(lev: Shape, nb: nat, vs: nat, ts: nat) {
    && (ts != 0 ==> ts in lev)
    && (forall u :: u in lev && nb <= u ==> (vs != 0 && vs <= u) || (ts != 0 && (Under(lev, u, ts) || ts <= u)))
    && (ts != 0 && vs != nb ==> forall u :: Under(lev, u, ts) ==> nb <= u)
  }

  lemma LeftmostStep(lev: Shape, nb: nat, vs: nat, ts: nat, vs': nat, l: nat, r: nat)
    requires ShapeOk(lev) && ts != 0 && Rest(lev, nb, vs, ts) && Split(lev, ts, l, r) && Improves(nb, vs, ts, vs')
    requires vs == nb ==> vs' == nb
    ensures Rest(lev, nb, vs', if l != 0 then l else r)
  {
    hide TreeIndex, BinLevel, Hi, Split, ShapeOk;
    var t' := if l != 0 then l else r;
    SplitKeys(lev, ts, l, r);
    forall u | t' != 0 && Under(lev, u, t')
      ensures Under(lev, u, ts)
    {
      AgreeUp(u, t', lev[t'], lev[ts]);
    }
    forall u | u in lev && nb <= u
      ensures (vs' != 0 && vs' <= u) || (t' != 0 && (Under(lev, u, t') || t' <= u))
    {
      LeftmostCovers(lev, nb, vs, ts, vs', l, r, u);
    }
  }

  lemma SplitKeys(lev: Shape, ts: nat, l: nat, r: nat)
    requires ts in lev && Split(lev, ts, l, r)
    ensures l != 0 ==> l in lev && IsParent(lev, ts, l)
    ensures r != 0 ==> r in lev && IsParent(lev, ts, r)
    ensures l != 0 ==> l != r
  {
    hide TreeIndex, Hi;
  }

  lemma LeftmostCovers(lev: Shape, nb: nat, vs: nat, ts: nat, vs': nat, l: nat, r: nat, u: nat)
    requires ts in lev && Split(lev, ts, l, r) && Improves(nb, vs, ts, vs') && u in lev && nb <= u
    requires (vs != 0 && vs <= u) || Under(lev, u, ts) || ts <= u
    requires vs == nb ==> vs' == nb
    requires vs != nb ==> forall q :: Under(lev, q, ts) ==> nb <= q
    ensures (vs' != 0 && vs' <= u) || (l != 0 && (Under(lev, u, l) || l <= u)) || (l == 0 && r != 0 && Under(lev, u, r))
  {
    hide TreeIndex, BinLevel, Hi;
    if vs == nb {
    } else {
      assert Under(lev, ts, ts);
      if Under(lev, u, ts) && u != ts && l != 0 && BitAt(u, lev[ts] - 1) {
        LeftBelowRight(l, u, lev[l]);
      }
    }
  }

  /** The first search ended in the bin of nb: the rest is the untaken subtree, if any. */
  lemma RestInBin(lev: Shape, nb: nat, vs: nat, rs: nat)
    requires ShapeOk(lev) && LargeSize(nb) && BinCovered(lev, nb, vs, 0, rs) && Untaken(lev, nb, rs)
    requires vs != 0 || rs != 0
    requires vs != 0 ==> LargeSize(vs) && TreeIndex(vs) == TreeIndex(nb)
    ensures Rest(lev, nb, vs, rs)
  {
    hide TreeIndex, BinLevel, Hi;
    forall u | u in lev && nb <= u
      ensures (vs != 0 && vs <= u) || (rs != 0 && (Under(lev, u, rs) || rs <= u))
    {
      if TreeIndex(u) == TreeIndex(nb) {
        if rs != 0 && Hi(u, lev[rs]) > Hi(rs, lev[rs]) { HiOrderDown(rs, u, 0, lev[rs]); }
      } else {
        OtherBin(nb, u);
        if vs != 0 { BinOrder(vs, u); } else { BinOrder(rs, u); }
      }
    }
    if rs != 0 {
      forall u | Under(lev, u, rs)
        ensures nb <= u
      {
        HiOrderDown(nb, u, 0, lev[rs]);
      }
    }
  }

  lemma OtherBin(nb: nat, u: nat)
    requires LargeSize(nb) && LargeSize(u) && nb <= u && TreeIndex(u) != TreeIndex(nb)
    ensures TreeIndex(nb) < TreeIndex(u)
  {
    hide TreeIndex;
    if TreeIndex(u) < TreeIndex(nb) { BinOrder(u, nb); }
  }

  /** Nothing fits in the bin of nb: the rest is the next bin that holds a tree. */
  lemma RestInNextBin(lev: Shape, nb: nat, ts: nat)
    requires ShapeOk(lev) && BinCovered(lev, nb, 0, 0, 0) && LargeSize(nb)
    requires ts != 0 ==> ts in lev && lev[ts] == RootLevel(ts) && TreeIndex(ts) > TreeIndex(nb)
    requires forall u :: u in lev && TreeIndex(u) > TreeIndex(nb) ==> ts != 0 && TreeIndex(ts) <= TreeIndex(u)
    ensures Rest(lev, nb, 0, ts)
  {
    hide TreeIndex, BinLevel, Hi;
    forall u | u in lev && nb <= u
      ensures ts != 0 && (Under(lev, u, ts) || ts <= u)
    {
      assert TreeIndex(u) != TreeIndex(nb);
      OtherBin(nb, u);
      if TreeIndex(ts) < TreeIndex(u) { BinOrder(ts, u); } else { AgreeAtRoot(u, ts); }
    }
    if ts != 0 {
      forall u | Under(lev, u, ts)
        ensures nb <= u
      {
        BinOrder(nb, u);
      }
    }
  }

  /** For a small request every tree chunk fits: the rest is the first bin that holds a tree. */
  lemma RestInFirstBin(lev: Shape, nb: nat, ts: nat)
    requires ShapeOk(lev) && nb < MIN_LARGE_SIZE && ts != 0
    requires ts in lev && lev[ts] == RootLevel(ts)
    requires forall u :: u in lev ==> TreeIndex(ts) <= TreeIndex(u)
    ensures Rest(lev, nb, 0, ts)
  {
    hide TreeIndex, BinLevel, Hi;
    forall u | u in lev && nb <= u
      ensures Under(lev, u, ts) || ts <= u
    {
      if TreeIndex(ts) < TreeIndex(u) { BinOrder(ts, u); } else { AgreeAtRoot(u, ts); }
    }
  }
}
