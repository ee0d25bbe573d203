/**
 The shape of the size tries, without pointers: the level at which each size sits.
 A tree node of size s at level w stands for the sizes that agree with s above their w
 low bits; its children sit at level w-1, on the side given by bit w-1 of their size
 (src/dl_malloc.c:2360-2389).
 */
module TrieShape {
  import opened Words
  import opened BinIndex

  type Shape = map<nat, nat>

  predicate LargeSize(s: nat) { MIN_LARGE_SIZE <= s < MAX_SIZE }

  function RootLevel(s: nat): nat { BinLevel(TreeIndex(s)) }

  /** a and b lie in the same bin and agree above level w. */
  predicate Agree(a: nat, b: nat, w: nat) {
    TreeIndex(a) == TreeIndex(b) && Hi(a, w) == Hi(b, w)
  }

  ghost predicate IsParent(lev: Shape, p: nat, s: nat)
    requires s in lev
  {
    p in lev && lev[p] == lev[s] + 1 && Agree(p, s, lev[p])
  }

  ghost predicate Levels(lev: Shape) {
    forall s :: s in lev ==> LargeSize(s) && lev[s] <= RootLevel(s)
  }

  /** No two sizes claim the same place of a trie. */
  ghost predicate Places(lev: Shape) {
    forall a, b :: a in lev && b in lev && lev[a] == lev[b] && Agree(a, b, lev[a]) ==> a == b
  }

  ghost predicate Parents(lev: Shape) {
    forall s :: s in lev && lev[s] < RootLevel(s) ==> exists p :: IsParent(lev, p, s)
  }

  ghost predicate ShapeOk(lev: Shape) {
    Levels(lev) && Places(lev) && Parents(lev)
  }

  /** u lies in the subtree whose root is the node of size t. */
  ghost predicate Under(lev: Shape, u: nat, t: nat)
    requires t in lev
  {
    u in lev && lev[u] <= lev[t] && Agree(u, t, lev[t])
  }

  lemma AgreeUp(a: nat, b: nat, w: nat, v: nat)
    requires Agree(a, b, w) && w <= v
    ensures Agree(a, b, v)
  {
    HiAgreeUp(a, b, w, v);
  }

  lemma AgreeAtRoot(a: nat, b: nat)
    requires LargeSize(a) && LargeSize(b) && TreeIndex(a) == TreeIndex(b)
    ensures Agree(a, b, RootLevel(a))
  {
    SameBinSameLead(a, b);
  }

  /** Above every node, each level up to the root is taken by a node it agrees with. */
  lemma {:induction false} Ancestor(lev: Shape, s: nat, w: nat) returns (u: nat)
    requires ShapeOk(lev) && s in lev && lev[s] <= w <= RootLevel(s)
    ensures u in lev && lev[u] == w && Agree(u, s, w)
    decreases w
  {
    hide TreeIndex, BinLevel;
    if w == lev[s] {
      u := s;
    } else {
      var v := Ancestor(lev, s, w - 1);
      u :| IsParent(lev, u, v);
      AgreeUp(v, s, w - 1, w);
    }
  }

  /** Chunk sizes are multiples of 16, so a trie never needs its four lowest bits. */
  lemma DepthBound(lev: Shape, s: nat)
    requires ShapeOk(lev) && s in lev
    requires forall u :: u in lev ==> u % 16 == 0
    ensures 4 <= lev[s] && RootLevel(s) - lev[s] <= RootLevel(s) - 4
  {
    if lev[s] < 4 {
      var u := Ancestor(lev, s, 4);
      HiNibble(u);
      HiNibble(s);
    }
  }

  // ----- the sizes of the two subtrees of a node -----

  lemma BitSplits(a: nat, b: nat, w: nat)
    requires Hi(a, w + 1) == Hi(b, w + 1)
    ensures Hi(a, w) == Hi(b, w) <==> (BitAt(a, w) <==> BitAt(b, w))
    ensures !BitAt(a, w) && BitAt(b, w) ==> Hi(a, w) < Hi(b, w)
  {
    HiStep(a, w);
    HiStep(b, w);
  }

  /** A size on the left of a place is less than every size on its right. */
  lemma LeftBelowRight(a: nat, b: nat, w: nat)
    requires Hi(a, w + 1) == Hi(b, w + 1) && !BitAt(a, w) && BitAt(b, w)
    ensures a < b
  {
    BitSplits(a, b, w);
    HiOrderDown(a, b, 0, w);
  }

  // ----- shape changes -----

  lemma AddRoot(lev: Shape, s: nat)
    requires ShapeOk(lev) && LargeSize(s)
    requires forall u :: u in lev ==> TreeIndex(u) != TreeIndex(s)
    ensures ShapeOk(lev[s := RootLevel(s)])
  {
    hide TreeIndex, Hi;
    KeepParents(lev, lev[s := RootLevel(s)]);
  }

  /** A fresh size hung below t on its own side of t, where nothing hangs yet. */
  lemma AddChild(lev: Shape, t: nat, s: nat)
    requires ShapeOk(lev) && LargeSize(s) && s !in lev && t in lev && lev[t] > 0
    requires Agree(t, s, lev[t])
    requires forall u :: u in lev ==> !(lev[u] == lev[t] - 1 && Agree(u, s, lev[u]))
    ensures ShapeOk(lev[s := lev[t] - 1])
  {
    hide TreeIndex, Hi;
    var lev' := lev[s := lev[t] - 1];
    KeepParents(lev, lev');
    assert IsParent(lev', t, s);
  }

  lemma KeepParents(lev: Shape, lev': Shape)
    requires ShapeOk(lev)
    requires forall s :: s in lev ==> s in lev' && lev'[s] == lev[s]
    ensures forall s :: s in lev && lev[s] < RootLevel(s) ==> exists p :: IsParent(lev', p, s)
  {
    forall s | s in lev && lev[s] < RootLevel(s)
      ensures exists p :: IsParent(lev', p, s)
    {
      var p :| IsParent(lev, p, s);
      assert IsParent(lev', p, s);
    }
  }

  lemma DropLeaf(lev: Shape, s: nat)
    requires ShapeOk(lev) && s in lev
    requires forall u :: u in lev ==> !IsParent(lev, s, u)
    ensures ShapeOk(lev - {s})
  {
    hide TreeIndex, BinLevel;
    var lev' := lev - {s};
    forall u | u in lev' && lev'[u] < RootLevel(u)
      ensures exists p :: IsParent(lev', p, u)
    {
      var p :| IsParent(lev, p, u);
      assert IsParent(lev', p, u);
    }
  }

  /** Another size takes the place of s, if it agrees with s there (src/dl_malloc.c:2379-2381). */
  lemma SwapSize(lev: Shape, s: nat, r: nat)
    requires ShapeOk(lev) && s in lev && (r == s || r !in lev) && LargeSize(r) && Agree(r, s, lev[s])
    ensures ShapeOk((lev - {s})[r := lev[s]])
  {
    hide TreeIndex, BinLevel, Hi;
    var lev' := (lev - {s})[r := lev[s]];
    forall u | u in lev' && lev'[u] < RootLevel(u)
      ensures exists p :: IsParent(lev', p, u)
    {
      var v := if u == r then s else u;
      var p :| IsParent(lev, p, v);
      if u == r { AgreeUp(r, s, lev[s], lev[p]); }
      assert IsParent(lev', if p == s then r else p, u);
    }
  }
}
