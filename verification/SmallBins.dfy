/**
 The small bins: one circular list per size below 256, with the bin header as an entry of
 the list, and a map word of the non-empty ones (src/dl_malloc.c:3573-3634).
 The links of an unmarked bin are not maintained: unlinking the last chunk of a bin only
 clears its map bit.
 */
module SmallBins {
  import opened Words
  import opened BinMaps
  import opened Rings

  type Addr = nat

  const NSMALLBINS := 32

  /** A list entry: a bin header or a chunk. */
  datatype Ref = Header(index: nat) | At(addr: Addr)

  function Refs(l: seq<Addr>): seq<Ref> {
    seq(|l|, i requires 0 <= i < |l| => At(l[i]))
  }

  /** The list of bin i as a ring that starts at its header. */
  function RingOf(i: nat, l: seq<Addr>): (r: seq<Ref>)
    ensures |r| == |l| + 1 && r[0] == Header(i) && forall k :: 0 <= k < |l| ==> r[k + 1] == At(l[k])
  {
    [Header(i)] + Refs(l)
  }

  /** The chunks of the bins are exactly those of the listed sizes. */
  ghost predicate Listed(size: map<Addr, nat>, lists: seq<seq<Addr>>) {
    && |lists| == NSMALLBINS
    && (forall a :: a in size ==> size[a] % 8 == 0 && size[a] / 8 < NSMALLBINS && a in lists[size[a] / 8])
    && (forall i, k :: 0 <= i < NSMALLBINS && 0 <= k < |lists[i]| ==> lists[i][k] in size && size[lists[i][k]] == 8 * i)
  }

  ghost predicate Linked(i: nat, l: seq<Addr>, fd: map<Ref, Ref>, bk: map<Ref, Ref>) {
    l != [] ==> RingLinked(RingOf(i, l), fd, bk)
  }

  ghost predicate BinsOk(size: map<Addr, nat>, lists: seq<seq<Addr>>, marked: set<nat>, fd: map<Ref, Ref>, bk: map<Ref,
                         Ref>) {
    && Listed(size, lists)
    && (forall i :: 0 <= i < NSMALLBINS ==> (i in marked <==> lists[i] != []))
    && (forall i :: 0 <= i < NSMALLBINS ==> Linked(i, lists[i], fd, bk))
  }

  class SmallBins {
    var fd: map<Ref, Ref>
    var bk: map<Ref, Ref>
    var smallmap: nat
    ghost var size: map<Addr, nat>
    ghost var lists: seq<seq<Addr>>

    /** What do_check_smallbin checks, for all bins (src/dl_malloc.c:3367-3388). */
    ghost predicate Valid()
      reads this
    {
      smallmap < WORD && BinsOk(size, lists, Marked(smallmap), fd, bk)
    }

    constructor ()
      ensures Valid() && size == map[]
    {
      fd, bk := map[], map[];
      smallmap := 0;
      size := map[];
      lists := seq(NSMALLBINS, _ => []);
      new;
      ZeroMap(0);
    }

    /** insert_small_chunk: the chunk goes to the front of its list. */
    method Insert(p: Addr, s: nat)
      requires Valid() && p !in size && s % 8 == 0 && s / 8 < NSMALLBINS
      modifies this
      ensures Valid() && size == old(size)[p := s]
      ensures lists == old(lists)[s / 8 := [p] + old(lists)[s / 8]]
    {
      hide Marked, Pow2, Hi, RingLinked, Linked, Listed;
      var i := s / 8;
      var b := Header(i);
      var f := b;
      ListCount(size, lists);
      ghost var l, fd0, bk0, marked0 := lists[i], fd, bk, Marked(smallmap);
      var marked := IsMarked(smallmap, i);
      if !marked {
        smallmap := Mark(smallmap, i);
      } else {
        HeaderLinked(i, l, fd, bk);
        f := fd[b];
      }
      fd := fd[b := At(p)];
      bk := bk[f := At(p)];
      fd := fd[At(p) := f];
      bk := bk[At(p) := b];
      InsertOk(size, lists, marked0, i, p, fd0, bk0, f, fd, bk);
      size := size[p := s];
      lists := lists[i := [p] + l];
    }

    /** unlink_first_small_chunk, on a bin that is marked. */
    method UnlinkFirst(i: nat) returns (p: Addr)
      requires Valid() && i in Marked(smallmap)
      modifies this
      ensures Valid() && old(lists)[i] != [] && p == old(lists)[i][0] && p in old(size)
      ensures size == old(size) - {p} && old(size)[p] == 8 * i
      ensures lists == old(lists)[i := old(lists)[i][1..]]
    {
      hide Pow2, Hi, RingLinked;
      ghost var l := lists[i];
      HeaderLinked(i, l, fd, bk);
      p := fd[Header(i)].addr;
      assert l[0] == p && l[1..] == l[..0] + l[1..];
      ghost var k := Unlink(p, 8 * i);
    }

    /** unlink_small_chunk: the chunk leaves its list, wherever it stands. */
    method Unlink(p: Addr, s: nat) returns (ghost k: nat)
      requires Valid() && p in size && s == size[p]
      modifies this
      ensures Valid() && size == old(size) - {p}
      ensures k < |old(lists)[s / 8]| && old(lists)[s / 8][k] == p && p !in old(lists)[s / 8][..k]
      ensures lists == old(lists)[s / 8 := old(lists)[s / 8][..k] + old(lists)[s / 8][k + 1..]]
    {
      hide Marked, Pow2, Hi, RingLinked, Linked, Listed;
      var i := s / 8;
      ListedAt(size, lists, p);
      ghost var l, fd0, bk0, marked0 := lists[i], fd, bk, Marked(smallmap);
      k := ChunkLinked(i, l, fd, bk, p);
      var f := fd[At(p)];
      var b := bk[At(p)];
      if b == f {
        smallmap := Clear(smallmap, i);
      } else {
        bk := bk[f := b];
        fd := fd[b := f];
      }
      UnlinkOk(size, lists, marked0, i, k, fd0, bk0, fd, bk);
      size := size - {p};
      lists := lists[i := l[..k] + l[k + 1..]];
    }
  }

  lemma InsertOk(size: map<Addr, nat>, lists: seq<seq<Addr>>, marked: set<nat>, i: nat, p: Addr, fd: map<Ref, Ref>,
                 bk: map<Ref, Ref>, f: Ref, fd': map<Ref, Ref>, bk': map<Ref, Ref>)
    requires BinsOk(size, lists, marked, fd, bk) && i < NSMALLBINS && p !in size && |lists| == NSMALLBINS
    requires if lists[i] == [] then f == Header(i) else Header(i) in fd && f == fd[Header(i)]
    requires fd' == fd[Header(i) := At(p)][At(p) := f] && bk' == bk[f := At(p)][At(p) := Header(i)]
    ensures BinsOk(size[p := 8 * i], lists[i := [p] + lists[i]], marked + {i}, fd', bk')
  {
    hide RingLinked, Linked, Listed;
    ListedInsert(size, lists, p, i);
    InsertLinked(size, lists, i, p, fd, bk, f, fd', bk');
  }

  lemma ListedAt(size: map<Addr, nat>, lists: seq<seq<Addr>>, p: Addr)
    requires Listed(size, lists) && p in size
    ensures |lists| == NSMALLBINS && size[p] % 8 == 0 && size[p] / 8 < NSMALLBINS && p in lists[size[p] / 8]
  {}

  lemma UnlinkOk(size: map<Addr, nat>, lists: seq<seq<Addr>>, marked: set<nat>, i: nat, k: nat, fd: map<Ref, Ref>,
                 bk: map<Ref, Ref>, fd': map<Ref, Ref>, bk': map<Ref, Ref>)
    requires BinsOk(size, lists, marked, fd, bk) && |lists| == NSMALLBINS && i < NSMALLBINS && k < |lists[i]|
    requires forall j :: 0 <= j < |lists[i]| && lists[i][j] == lists[i][k] ==> j == k
    requires At(lists[i][k]) in fd && At(lists[i][k]) in bk
    requires if |lists[i]| == 1 then fd' == fd && bk' == bk
             else
               && fd' == fd[bk[At(lists[i][k])] := fd[At(lists[i][k])]]
               && bk' == bk[fd[At(lists[i][k])] := bk[At(lists[i][k])]]
    ensures BinsOk(size - {lists[i][k]}, lists[i := lists[i][..k] + lists[i][k + 1..]],
                   if |lists[i]| == 1 then marked - {i} else marked, fd', bk')
  {
    hide RingLinked, Linked, Listed;
    UnlinkLinked(size, lists, i, k, fd, bk, fd', bk');
    ListedUnlink(size, lists, i, k);
  }

  lemma HeaderLinked(i: nat, l: seq<Addr>, fd: map<Ref, Ref>, bk: map<Ref, Ref>)
    requires Linked(i, l, fd, bk) && l != []
    ensures Header(i) in fd && fd[Header(i)] == At(l[0])
  {
    var r := RingOf(i, l);
    assert fd[r[0]] == Next(r, 0);
  }

  lemma ChunkLinked(i: nat, l: seq<Addr>, fd: map<Ref, Ref>, bk: map<Ref, Ref>, p: Addr) returns (k: nat)
    requires Linked(i, l, fd, bk) && p in l
    ensures k < |l| && l[k] == p && (forall j :: 0 <= j < |l| && l[j] == p ==> j == k)
    ensures At(p) in fd && At(p) in bk
    ensures fd[At(p)] == Next(RingOf(i, l), k + 1) && bk[At(p)] == Prev(RingOf(i, l), k + 1)
    ensures fd[At(p)] == bk[At(p)] <==> |l| == 1
  {
    k :| 0 <= k < |l| && l[k] == p;
    var r := RingOf(i, l);
    assert fd[r[k + 1]] == Next(r, k + 1) && bk[r[k + 1]] == Prev(r, k + 1);
    forall j | 0 <= j < |l| && l[j] == p
      ensures j == k
    {
      assert r[j + 1] == r[k + 1];
    }
    if |l| > 1 {
      assert Next(r, k + 1) == r[if k + 2 < |r| then k + 2 else 0];
      assert Prev(r, k + 1) == r[k];
    }
  }

  // ----- the lists as sets of chunks -----

  lemma ListedInsert(size: map<Addr, nat>, lists: seq<seq<Addr>>, p: Addr, i: nat)
    requires Listed(size, lists) && p !in size && i < NSMALLBINS
    ensures Listed(size[p := 8 * i], lists[i := [p] + lists[i]])
  {
    var l := [p] + lists[i];
    assert l[0] == p;
    assert forall a :: a in lists[i] ==> a in l;
  }

  lemma ListedUnlink(size: map<Addr, nat>, lists: seq<seq<Addr>>, i: nat, k: nat)
    requires Listed(size, lists) && i < NSMALLBINS && k < |lists[i]|
    requires forall j :: 0 <= j < |lists[i]| && lists[i][j] == lists[i][k] ==> j == k
    ensures Listed(size - {lists[i][k]}, lists[i := lists[i][..k] + lists[i][k + 1..]])
  {
    var l, p := lists[i], lists[i][k];
    var l' := l[..k] + l[k + 1..];
    forall a | a in l && a != p
      ensures a in l'
    {
      var j :| 0 <= j < |l| && l[j] == a;
      assert l'[if j < k then j else j - 1] == a;
    }
    forall j | 0 <= j < |l'|
      ensures l'[j] in l && l'[j] != p
    {
      assert l'[j] == l[if j < k then j else j + 1];
    }
  }

  // ----- the links -----

  lemma InsertLinked(size: map<Addr, nat>, lists: seq<seq<Addr>>, i: nat, p: Addr, fd: map<Ref, Ref>, bk: map<Ref, Ref>,
                     f: Ref, fd': map<Ref, Ref>, bk': map<Ref, Ref>)
    requires Listed(size, lists) && |lists| == NSMALLBINS && i < NSMALLBINS && p !in size
    requires forall j :: 0 <= j < NSMALLBINS ==> Linked(j, lists[j], fd, bk)
    requires if lists[i] == [] then f == Header(i) else Header(i) in fd && f == fd[Header(i)]
    requires fd' == fd[Header(i) := At(p)][At(p) := f] && bk' == bk[f := At(p)][At(p) := Header(i)]
    ensures forall j :: 0 <= j < NSMALLBINS ==> Linked(j, (if j == i then [p] + lists[i] else lists[j]), fd', bk')
  {
    hide RingLinked, Linked, RingOf, Listed;
    OwnListGrows(size, lists, i, p, fd, bk, f, fd', bk');
    if lists[i] != [] { HeaderLinked(i, lists[i], fd, bk); FrontListed(size, lists, i); }
    forall j | 0 <= j < NSMALLBINS && j != i
      ensures Linked(j, lists[j], fd', bk')
    {
      OtherList(size, lists, i, j, p, fd, bk, fd', bk');
    }
  }

  lemma ListCount(size: map<Addr, nat>, lists: seq<seq<Addr>>)
    requires Listed(size, lists)
    ensures |lists| == NSMALLBINS
  {}

  lemma FrontListed(size: map<Addr, nat>, lists: seq<seq<Addr>>, i: nat)
    requires Listed(size, lists) && i < NSMALLBINS && lists[i] != []
    ensures lists[i][0] in size && size[lists[i][0]] == 8 * i
  {}

  lemma OwnListGrows(size: map<Addr, nat>, lists: seq<seq<Addr>>, i: nat, p: Addr, fd: map<Ref, Ref>, bk: map<Ref, Ref>,
                     f: Ref, fd': map<Ref, Ref>, bk': map<Ref, Ref>)
    requires Listed(size, lists) && i < NSMALLBINS && p !in size && Linked(i, lists[i], fd, bk)
    requires if lists[i] == [] then f == Header(i) else Header(i) in fd && f == fd[Header(i)]
    requires fd' == fd[Header(i) := At(p)][At(p) := f] && bk' == bk[f := At(p)][At(p) := Header(i)]
    ensures Linked(i, [p] + lists[i], fd', bk')
  {
    ListCount(size, lists);
    hide RingLinked, RingOf, Listed;
    var l := lists[i];
    NotListed(size, lists, i, p);
    if l == [] {
      assert [p] + l == [p];
      FirstLinked(i, p, fd', bk');
    } else {
      JoinFront(RingOf(i, l), At(p), f, fd, bk, fd', bk');
      RingGrows(i, p, l);
    }
  }

  lemma JoinFront(r: seq<Ref>, x: Ref, f: Ref, fd: map<Ref, Ref>, bk: map<Ref, Ref>, fd': map<Ref, Ref>, bk': map<Ref,
                  Ref>)
    requires RingLinked(r, fd, bk) && |r| > 1 && x !in r && r[0] in fd && f == fd[r[0]]
    requires fd' == fd[r[0] := x][x := f] && bk' == bk[f := x][x := r[0]]
    ensures RingLinked([r[0], x] + r[1..], fd', bk')
  {
    assert f == Next(r, 0);
    assert f == r[1] && f in r;
    hide RingLinked;
    assert fd' == fd[x := f][r[0] := x] && bk' == bk[x := r[0]][f := x];
    JoinSeq(r, x, fd, bk, fd', bk');
  }

  lemma RingGrows(i: nat, p: Addr, l: seq<Addr>)
    ensures var r := RingOf(i, l); [r[0], At(p)] + r[1..] == RingOf(i, [p] + l)
  {
    hide RingOf;
    var r, l' := RingOf(i, l), [p] + l;
    var a, b := [r[0], At(p)] + r[1..], RingOf(i, l');
    forall k | 0 <= k < |a|
      ensures a[k] == b[k]
    {
      if k >= 1 { assert b[k] == At(l'[k - 1]); }
      if k >= 2 { assert a[k] == r[k - 1] && l'[k - 1] == l[k - 2]; }
    }
  }

  lemma NotListed(size: map<Addr, nat>, lists: seq<seq<Addr>>, i: nat, p: Addr)
    requires Listed(size, lists) && i < NSMALLBINS && p !in size
    ensures At(p) !in RingOf(i, lists[i])
  {
    var r := RingOf(i, lists[i]);
    forall k | 0 <= k < |r|
      ensures r[k] != At(p)
    {
      if k > 0 { assert lists[i][k - 1] in size; }
    }
  }

  lemma FirstLinked(i: nat, p: Addr, fd: map<Ref, Ref>, bk: map<Ref, Ref>)
    requires Header(i) in fd && Header(i) in bk && At(p) in fd && At(p) in bk
    requires fd[Header(i)] == At(p) && fd[At(p)] == Header(i) && bk[Header(i)] == At(p) && bk[At(p)] == Header(i)
    ensures RingLinked(RingOf(i, [p]), fd, bk)
  {
    assert RingOf(i, [p]) == [Header(i), At(p)];
  }

  /** The list of another bin does not see changes at header i and at chunks of its list. */
  lemma OtherList(size: map<Addr, nat>, lists: seq<seq<Addr>>, i: nat, j: nat, p: Addr, fd: map<Ref, Ref>,
                  bk: map<Ref, Ref>, fd': map<Ref, Ref>, bk': map<Ref, Ref>)
    requires Listed(size, lists) && i < NSMALLBINS && j < NSMALLBINS && i != j && Linked(j, lists[j], fd, bk)
    requires p !in size || size[p] == 8 * i
    requires forall x ::
               x in fd && x != Header(i) && x != At(p) && (x.At? && x.addr in size ==> size[x.addr] != 8 * i) ==>
                 x in fd' && fd'[x] == fd[x]
    requires forall x ::
               x in bk && x != Header(i) && x != At(p) && (x.At? && x.addr in size ==> size[x.addr] != 8 * i) ==>
                 x in bk' && bk'[x] == bk[x]
    ensures Linked(j, lists[j], fd', bk')
  {
    if lists[j] != [] {
      var r := RingOf(j, lists[j]);
      OtherEntries(size, lists, i, j, p);
      RingKept(r, fd, bk, fd', bk') by {
        hide RingLinked, RingOf, Listed;
      }
    }
  }

  lemma OtherEntries(size: map<Addr, nat>, lists: seq<seq<Addr>>, i: nat, j: nat, p: Addr)
    requires Listed(size, lists) && i < NSMALLBINS && j < NSMALLBINS && i != j && (p !in size || size[p] == 8 * i)
    ensures forall k :: 0 <= k < |RingOf(j, lists[j])| ==>
      var x := RingOf(j, lists[j])[k];
      x != Header(i) && x != At(p) && (x.At? && x.addr in size ==> size[x.addr] != 8 * i)
  {
    var r := RingOf(j, lists[j]);
    forall k | 0 <= k < |r|
      ensures r[k] != Header(i) && r[k] != At(p) && (r[k].At? && r[k].addr in size ==> size[r[k].addr] != 8 * i)
    {
      if k > 0 { assert lists[j][k - 1] in size && size[lists[j][k - 1]] == 8 * j; }
    }
  }

  lemma UnlinkLinked(size: map<Addr, nat>, lists: seq<seq<Addr>>, i: nat, k: nat, fd: map<Ref, Ref>, bk: map<Ref, Ref>,
                     fd': map<Ref, Ref>, bk': map<Ref, Ref>)
    requires Listed(size, lists) && i < NSMALLBINS && k < |lists[i]|
    requires forall j :: 0 <= j < NSMALLBINS ==> Linked(j, lists[j], fd, bk)
    requires At(lists[i][k]) in fd && At(lists[i][k]) in bk
    requires if |lists[i]| == 1 then fd' == fd && bk' == bk
             else
               && fd' == fd[bk[At(lists[i][k])] := fd[At(lists[i][k])]]
               && bk' == bk[fd[At(lists[i][k])] := bk[At(lists[i][k])]]
    ensures forall j :: 0 <= j < NSMALLBINS ==>
      Linked(j, (if j == i then lists[i][..k] + lists[i][k + 1..] else lists[j]), fd', bk')
  {
    ListCount(size, lists);
    hide RingLinked, Linked, Listed, RingOf, CutRing;
    var l := lists[i];
    if |l| > 1 {
      OwnListShrinks(i, l, k, fd, bk, fd', bk');
      forall j | 0 <= j < NSMALLBINS && j != i
        ensures Linked(j, lists[j], fd', bk')
      {
        OtherShrinks(size, lists, i, j, k, fd, bk, fd', bk');
      }
    } else {
      NoneLeft(i, l, k, fd', bk');
    }
  }

  lemma OtherShrinks(size: map<Addr, nat>, lists: seq<seq<Addr>>, i: nat, j: nat, k: nat, fd: map<Ref, Ref>,
                     bk: map<Ref, Ref>, fd': map<Ref, Ref>, bk': map<Ref, Ref>)
    requires Listed(size, lists) && |lists| == NSMALLBINS && i < NSMALLBINS && j < NSMALLBINS && i != j
    requires k < |lists[i]|
    requires Linked(i, lists[i], fd, bk) && Linked(j, lists[j], fd, bk) && At(lists[i][k]) in fd
    requires At(lists[i][k]) in bk
    requires fd' == fd[bk[At(lists[i][k])] := fd[At(lists[i][k])]]
    requires bk' == bk[fd[At(lists[i][k])] := bk[At(lists[i][k])]]
    ensures Linked(j, lists[j], fd', bk')
  {
    hide RingLinked, Linked, Listed, RingOf;
    OnlyOwnLinks(size, lists, i, k, fd, bk);
    OtherList(size, lists, i, j, lists[i][k], fd, bk, fd', bk');
  }

  lemma NoneLeft(i: nat, l: seq<Addr>, k: nat, fd: map<Ref, Ref>, bk: map<Ref, Ref>)
    requires k < |l| == 1
    ensures Linked(i, l[..k] + l[k + 1..], fd, bk)
  {}

  lemma OwnListShrinks(i: nat, l: seq<Addr>, k: nat, fd: map<Ref, Ref>, bk: map<Ref, Ref>, fd': map<Ref, Ref>,
                       bk': map<Ref, Ref>)
    requires Linked(i, l, fd, bk) && k < |l| && |l| > 1 && At(l[k]) in fd && At(l[k]) in bk
    requires fd' == fd[bk[At(l[k])] := fd[At(l[k])]] && bk' == bk[fd[At(l[k])] := bk[At(l[k])]]
    ensures Linked(i, l[..k] + l[k + 1..], fd', bk')
  {
    hide RingLinked;
    var r := RingOf(i, l);
    CutLinked(r, k + 1, fd, bk, fd', bk');
    assert CutRing(r, k + 1) == RingOf(i, l[..k] + l[k + 1..]);
  }

  /** The neighbours of a listed chunk are the header of its bin and chunks of its size. */
  lemma OnlyOwnLinks(size: map<Addr, nat>, lists: seq<seq<Addr>>, i: nat, k: nat, fd: map<Ref, Ref>, bk: map<Ref, Ref>)
    requires Listed(size, lists) && i < NSMALLBINS && k < |lists[i]| && Linked(i, lists[i], fd, bk)
    requires At(lists[i][k]) in fd && At(lists[i][k]) in bk
    ensures lists[i][k] in size && size[lists[i][k]] == 8 * i
    ensures OwnLink(size, i, fd[At(lists[i][k])]) && OwnLink(size, i, bk[At(lists[i][k])])
  {
    var l := lists[i];
    var k' := ChunkLinked(i, l, fd, bk, l[k]);
    NeighboursInList(i, l, k);
  }

  predicate OwnLink(size: map<Addr, nat>, i: nat, x: Ref) {
    x == Header(i) || (x.At? && x.addr in size && size[x.addr] == 8 * i)
  }

  lemma NeighboursInList(i: nat, l: seq<Addr>, k: nat)
    requires k < |l|
    ensures var r := RingOf(i, l);
            && (Next(r, k + 1) == Header(i) || exists j :: 0 <= j < |l| && Next(r, k + 1) == At(l[j]))
            && (Prev(r, k + 1) == Header(i) || exists j :: 0 <= j < |l| && Prev(r, k + 1) == At(l[j]))
  {
    var r := RingOf(i, l);
    if k + 1 < |l| { assert Next(r, k + 1) == At(l[k + 1]); }
    if k > 0 { assert Prev(r, k + 1) == At(l[k - 1]); }
  }
}
