/**
 The chunks of one segment by their boundary tags: head words, the sizes repeated in the
 foot of free chunks, the designated victim and the top chunk (src/dl_malloc.c:2052-2187,
 3223-3302, 3427-3455). Each change a malloc or free makes to the tags is shown to keep
 the segment tiled and the tags consistent.
 */
module HeapCore {
  type Addr = nat

  const MIN_CHUNK := 32
  const ALIGN := 16
  const MAX_SIZE := 0x1_0000_0000_0000_0000

  /** A head word: the chunk size and the two in-use bits. */
  datatype Head = Head(size: nat, pinuse: bool, cinuse: bool)

  datatype Core = Core(
    base: Addr,
    limit: Addr,
    head: map<Addr, Head>,
    foot: map<Addr, nat>,
    top: Addr,
    topsize: nat,
    dv: Addr,
    dvsize: nat,
    starts: set<Addr>,
    prev: map<Addr, Addr>)

  ghost predicate Placed(c: Core) {
    && c.base in c.starts && c.top in c.starts && 0 < c.base
    && c.top + c.topsize == c.limit < MAX_SIZE && c.topsize > 0
    && forall p :: p in c.starts ==> c.base <= p <= c.top && p % ALIGN == 0 && p in c.head
  }

  ghost predicate IsChunk(c: Core, p: Addr) {
    p in c.starts && p != c.top && p in c.head
  }

  function End(c: Core, p: Addr): Addr
    requires p in c.head
  {
    p + c.head[p].size
  }

  /** One chunk: its size, its right neighbour, and the tags the two share. */
  ghost predicate ChunkOk(c: Core, p: Addr) {
    IsChunk(c, p) ==>
      && c.head[p].size >= MIN_CHUNK && c.head[p].size % ALIGN == 0
      && End(c, p) in c.starts && End(c, p) in c.head && c.head[End(c, p)].pinuse == c.head[p].cinuse
      && (!c.head[p].cinuse ==>
            && c.head[p].pinuse && End(c, p) != c.top && c.head[End(c, p)].cinuse
            && End(c, p) in c.foot && c.foot[End(c, p)] == c.head[p].size)
  }

  /** Chunks do not overlap. */
  ghost predicate Apart(c: Core, p: Addr, q: Addr) {
    IsChunk(c, p) && q in c.starts && p < q ==> End(c, p) <= q
  }

  ghost predicate HasPrev(c: Core, p: Addr) {
    p in c.starts && p != c.base ==> p in c.prev && IsChunk(c, c.prev[p]) && End(c, c.prev[p]) == p
  }

  ghost predicate Ends(c: Core) {
    && c.base in c.head && c.head[c.base].pinuse
    && c.top in c.head && c.head[c.top] == Head(c.topsize, true, false)
  }

  ghost predicate IsFree(c: Core, p: Addr) {
    IsChunk(c, p) && !c.head[p].cinuse
  }

  ghost predicate Victim(c: Core) {
    if c.dv == 0 then c.dvsize == 0 else c.dvsize > 0 && IsFree(c, c.dv) && c.head[c.dv].size == c.dvsize
  }

  /** The segment is tiled by chunks whose tags mirror their neighbours, and no two free chunks touch. */
  ghost predicate CoreOk(c: Core) {
    && Placed(c) && Ends(c) && Victim(c)
    && (forall p: Addr :: ChunkOk(c, p))
    && (forall p: Addr, q: Addr :: Apart(c, p, q))
    && (forall p: Addr :: HasPrev(c, p))
  }

  /** The free chunks that belong in a bin. */
  ghost predicate Binnable(c: Core, p: Addr) {
    IsFree(c, p) && p != c.dv
  }

  ghost predicate InBin(c: Core, limbo: set<Addr>, p: Addr) {
    Binnable(c, p) && p !in limbo
  }

  /** The bins hold exactly the binnable chunks outside limbo, small ones and large ones apart. */
  ghost predicate Binned(c: Core, small: map<Addr, nat>, large: map<Addr, nat>, limbo: set<Addr>) {
    && (forall p: Addr :: p in small <==> InBin(c, limbo, p) && c.head[p].size < 256)
    && (forall p: Addr :: p in large <==> InBin(c, limbo, p) && c.head[p].size >= 256)
    && (forall p: Addr :: p in small ==> p in c.head && small[p] == c.head[p].size)
    && (forall p: Addr :: p in large ==> p in c.head && large[p] == c.head[p].size)
  }

  /** The chunks handed out. */
  ghost function Live(c: Core): set<Addr> {
    set p | p in c.starts && p != c.top && p in c.head && c.head[p].cinuse
  }

  // ----- consequences -----

  /** Live blocks never overlap. */
  lemma LiveDisjoint(c: Core, p: Addr, q: Addr)
    requires CoreOk(c) && p in Live(c) && q in Live(c) && p != q
    ensures End(c, p) <= q || End(c, q) <= p
  {
    assert Apart(c, p, q) && Apart(c, q, p);
  }

  /** traverse_and_check: the sizes of the chunks from p up to top. */
  ghost function TotalFrom(c: Core, p: Addr): nat
    requires CoreOk(c) && p in c.starts
    decreases c.top - p
  {
    assert ChunkOk(c, p) && Apart(c, p, c.top);
    if p == c.top then c.topsize else c.head[p].size + TotalFrom(c, End(c, p))
  }

  /** The sizes always add up to the bytes of the segment. */
  lemma {:induction false} TotalIsConstant(c: Core, p: Addr)
    requires CoreOk(c) && p in c.starts
    ensures TotalFrom(c, p) == c.limit - p
    decreases c.top - p
  {
    assert ChunkOk(c, p) && Apart(c, p, c.top);
    if p != c.top { TotalIsConstant(c, End(c, p)); }
  }

  /** When nothing is handed out the whole segment is one top chunk again. */
  lemma AllFreeCoalesces(c: Core)
    requires CoreOk(c) && Live(c) == {}
    ensures c.starts == {c.base} && c.top == c.base && c.topsize == c.limit - c.base && c.dv == 0
  {
    assert ChunkOk(c, c.base);
    assert c.base !in Live(c) && End(c, c.base) !in Live(c);
  }

  // ----- taking a free chunk -----

  function SetPinuse(head: map<Addr, Head>, p: Addr, b: bool): map<Addr, Head>
    requires p in head
  {
    head[p := head[p].(pinuse := b)]
  }

  /** set_inuse_and_pinuse on a whole free chunk. */
  function UseWhole(c: Core, p: Addr, dv: Addr, dvsize: nat): Core
    requires p in c.head && End(c, p) in c.head
  {
    var n := End(c, p);
    c.(head := SetPinuse(c.head[p := Head(c.head[p].size, true, true)], n, true), dv := dv, dvsize := dvsize)
  }

  lemma UseWholeOk(c: Core, p: Addr, dv: Addr, dvsize: nat)
    requires CoreOk(c) && IsFree(c, p)
    requires (dv == c.dv && dvsize == c.dvsize && p != c.dv) || (p == c.dv && dv == 0 && dvsize == 0)
    ensures p in c.head && End(c, p) in c.head
    ensures CoreOk(UseWhole(c, p, dv, dvsize))
    ensures Live(UseWhole(c, p, dv, dvsize)) == Live(c) + {p}
  {
    assert ChunkOk(c, p);
    assert IsChunk(c, End(c, p)) && c.head[End(c, p)].cinuse && End(c, p) != p && c.head[p].pinuse;
    hide ChunkOk, Apart, HasPrev;
    var c' := UseWhole(c, p, dv, dvsize);
    forall q: Addr
      ensures ChunkOk(c', q)
    {
      WholeChunk(c, p, dv, dvsize, q);
    }
    forall q: Addr, r: Addr
      ensures Apart(c', q, r)
    {
      WholeApart(c, p, dv, dvsize, q, r);
    }
    forall q: Addr
      ensures HasPrev(c', q)
    {
      WholeApart(c, p, dv, dvsize, q, q);
    }
  }

  lemma WholeChunk(c: Core, p: Addr, dv: Addr, dvsize: nat, q: Addr)
    requires CoreOk(c) && IsFree(c, p) && p in c.head && End(c, p) in c.head
    ensures ChunkOk(UseWhole(c, p, dv, dvsize), q)
  {
    var n := End(c, p);
    assert ChunkOk(c, p) && ChunkOk(c, q) && ChunkOk(c, n) && Apart(c, p, q) && Apart(c, q, p) && Apart(c, q, n);
  }

  lemma WholeApart(c: Core, p: Addr, dv: Addr, dvsize: nat, q: Addr, r: Addr)
    requires CoreOk(c) && IsFree(c, p) && p in c.head && End(c, p) in c.head
    ensures Apart(UseWhole(c, p, dv, dvsize), q, r) && HasPrev(UseWhole(c, p, dv, dvsize), q)
  {
    assert Apart(c, q, r) && HasPrev(c, q);
  }

  /** A free chunk split: its low part is handed out, the rest stays free (src/dl_malloc.c:4496-4497). */
  function UseSplit(c: Core, p: Addr, nb: nat, dv: Addr, dvsize: nat): Core
    requires p in c.head && nb <= c.head[p].size
  {
    var rsize := c.head[p].size - nb;
    c.(head := c.head[p := Head(nb, true, true)][p + nb := Head(rsize, true, false)],
       foot := c.foot[End(c, p) := rsize],
       dv := dv, dvsize := dvsize,
       starts := c.starts + {p + nb},
       prev := c.prev[p + nb := p][End(c, p) := p + nb])
  }

  /** The chunk p cut at p + k, whatever becomes of the two parts. */
  ghost predicate CutAt(c: Core, p: Addr, k: nat, c': Core) {
    && IsChunk(c, p) && k % ALIGN == 0 && MIN_CHUNK <= k && k + MIN_CHUNK <= c.head[p].size
    && c'.base == c.base && c'.limit == c.limit && c'.top == c.top && c'.topsize == c.topsize
    && c'.starts == c.starts + {p + k} && c'.prev == c.prev[p + k := p][End(c, p) := p + k]
    && p in c'.head && c'.head[p].size == k && p + k in c'.head && c'.head[p + k].size == c.head[p].size - k
    && forall q :: q in c.head && q != p && q != p + k ==> q in c'.head && c'.head[q] == c.head[q]
  }

  lemma CutPlaces(c: Core, p: Addr, k: nat, c': Core)
    requires CoreOk(c) && CutAt(c, p, k, c')
    ensures Placed(c') && p + k !in c.starts
    ensures forall q: Addr, r: Addr :: Apart(c', q, r)
    ensures forall q: Addr :: HasPrev(c', q)
  {
    assert ChunkOk(c, p) && Apart(c, p, p + k) && Apart(c, p, c.top);
    assert p + k !in c.starts && p < p + k < c.top;
    hide ChunkOk, Apart, HasPrev;
    forall q: Addr, r: Addr
      ensures Apart(c', q, r)
    {
      CutApart(c, p, k, c', q, r);
    }
    forall q: Addr
      ensures HasPrev(c', q)
    {
      CutPrev(c, p, k, c', q);
    }
  }

  lemma CutApart(c: Core, p: Addr, k: nat, c': Core, q: Addr, r: Addr)
    requires CoreOk(c) && CutAt(c, p, k, c')
    ensures Apart(c', q, r)
  {
    assert Apart(c, q, r) && Apart(c, p, r) && Apart(c, q, p) && Apart(c, p, q);
  }

  lemma CutPrev(c: Core, p: Addr, k: nat, c': Core, q: Addr)
    requires CoreOk(c) && CutAt(c, p, k, c')
    ensures HasPrev(c', q)
  {
    assert ChunkOk(c, p) && Apart(c, p, p + k) && HasPrev(c, q) && Apart(c, p, q);
  }

  lemma UseSplitOk(c: Core, p: Addr, nb: nat, dv: Addr, dvsize: nat)
    requires CoreOk(c) && IsFree(c, p) && nb % ALIGN == 0 && MIN_CHUNK <= nb && nb + MIN_CHUNK <= c.head[p].size
    requires (dv == c.dv && dvsize == c.dvsize && p != c.dv) || (dv == p + nb && dvsize == c.head[p].size - nb)
    ensures CoreOk(UseSplit(c, p, nb, dv, dvsize))
    ensures Live(UseSplit(c, p, nb, dv, dvsize)) == Live(c) + {p} && p + nb !in c.starts
  {
    hide ChunkOk, Apart, HasPrev;
    var c' := UseSplit(c, p, nb, dv, dvsize);
    CutPlaces(c, p, nb, c');
    assert Apart(c, p, c.top) && Apart(c, p, p + nb);
    InsideChunk(c, p, p + nb);
    forall q: Addr
      ensures ChunkOk(c', q)
    {
      UseSplitChunk(c, p, nb, dv, dvsize, q);
    }
  }

  /** No chunk starts inside another one. */
  lemma InsideChunk(c: Core, p: Addr, a: Addr)
    requires CoreOk(c) && IsChunk(c, p) && p < a < End(c, p)
    ensures a !in c.starts
  {
    assert Apart(c, p, a);
  }

  lemma UseSplitChunk(c: Core, p: Addr, nb: nat, dv: Addr, dvsize: nat, q: Addr)
    requires CoreOk(c) && IsFree(c, p) && nb % ALIGN == 0 && MIN_CHUNK <= nb && nb + MIN_CHUNK <= c.head[p].size
    ensures ChunkOk(UseSplit(c, p, nb, dv, dvsize), q)
  {
    assert ChunkOk(c, p) && Apart(c, p, p + nb) && Apart(c, p, c.top);
    assert ChunkOk(c, q) && Apart(c, p, q) && Apart(c, q, p) && Apart(c, q, End(c, p));
  }

  /** The low part of top is handed out (src/dl_malloc.c:5596-5602). */
  function UseTop(c: Core, nb: nat): Core
    requires nb <= c.topsize
  {
    c.(head := c.head[c.top := Head(nb, true, true)][c.top + nb := Head(c.topsize - nb, true, false)],
       top := c.top + nb, topsize := c.topsize - nb,
       starts := c.starts + {c.top + nb},
       prev := c.prev[c.top + nb := c.top])
  }

  lemma UseTopOk(c: Core, nb: nat)
    requires CoreOk(c) && nb % ALIGN == 0 && MIN_CHUNK <= nb < c.topsize
    ensures CoreOk(UseTop(c, nb)) && Live(UseTop(c, nb)) == Live(c) + {c.top}
  {
    hide ChunkOk, Apart, HasPrev;
    var c' := UseTop(c, nb);
    forall q: Addr
      ensures ChunkOk(c', q) && HasPrev(c', q)
    {
      TopChunk(c, nb, q);
    }
    forall q: Addr, r: Addr
      ensures Apart(c', q, r)
    {
      TopApart(c, nb, q, r);
    }
  }

  lemma TopChunk(c: Core, nb: nat, q: Addr)
    requires CoreOk(c) && nb % ALIGN == 0 && MIN_CHUNK <= nb < c.topsize
    ensures ChunkOk(UseTop(c, nb), q) && HasPrev(UseTop(c, nb), q)
  {
    assert ChunkOk(c, q) && Apart(c, q, c.top) && HasPrev(c, q);
  }

  lemma TopApart(c: Core, nb: nat, q: Addr, r: Addr)
    requires CoreOk(c) && MIN_CHUNK <= nb < c.topsize
    ensures Apart(UseTop(c, nb), q, r)
  {
    assert Apart(c, q, r) && Apart(c, q, c.top);
  }

  /** A chunk in use cut in two chunks in use (src/dl_malloc.c:4939-4940, 4952-4953). */
  function CutUsed(c: Core, p: Addr, lead: nat): Core
    requires p in c.head && lead <= c.head[p].size
  {
    c.(head := c.head[p := Head(lead, c.head[p].pinuse, true)][p + lead := Head(c.head[p].size - lead, true, true)],
       starts := c.starts + {p + lead},
       prev := c.prev[p + lead := p][End(c, p) := p + lead])
  }

  lemma CutUsedOk(c: Core, p: Addr, lead: nat)
    requires CoreOk(c) && p in Live(c) && lead % ALIGN == 0 && MIN_CHUNK <= lead && lead + MIN_CHUNK <= c.head[p].size
    ensures CoreOk(CutUsed(c, p, lead)) && Live(CutUsed(c, p, lead)) == Live(c) + {p + lead}
    ensures p + lead !in c.starts
  {
    hide ChunkOk, Apart, HasPrev;
    var c' := CutUsed(c, p, lead);
    CutPlaces(c, p, lead, c');
    InsideChunk(c, p, p + lead);
    forall q: Addr
      ensures ChunkOk(c', q)
    {
      CutUsedChunk(c, p, lead, q);
    }
  }

  lemma CutUsedChunk(c: Core, p: Addr, lead: nat, q: Addr)
    requires CoreOk(c) && p in Live(c) && lead % ALIGN == 0 && MIN_CHUNK <= lead && lead + MIN_CHUNK <= c.head[p].size
    ensures ChunkOk(CutUsed(c, p, lead), q)
  {
    assert ChunkOk(c, p) && Apart(c, p, p + lead) && Apart(c, p, c.top);
    assert ChunkOk(c, q) && Apart(c, p, q) && Apart(c, q, p) && Apart(c, q, End(c, p));
  }

  // ----- giving a chunk back -----

  /** Everything from q up to e becomes one free chunk; e is in use. */
  function Merge(c: Core, q: Addr, e: Addr, dv: Addr, dvsize: nat): Core
    requires q < e && e in c.head
  {
    c.(head := SetPinuse(c.head, e, false)[q := Head(e - q, true, false)],
       foot := c.foot[e := e - q],
       dv := dv, dvsize := dvsize,
       starts := (set p | p in c.starts && !(q < p < e)),
       prev := c.prev[e := q])
  }

  /** dv outside the merged region stays; dv inside it becomes the merged chunk. */
  predicate VictimMoves(c: Core, q: Addr, e: Addr, dv: Addr, dvsize: nat) {
    if q <= c.dv < e then dv == q && dvsize == e - q else dv == c.dv && dvsize == c.dvsize
  }

  lemma MergeOk(c: Core, q: Addr, e: Addr, dv: Addr, dvsize: nat)
    requires CoreOk(c) && IsChunk(c, q) && IsChunk(c, e) && q < e && c.head[q].pinuse && c.head[e].cinuse
    requires VictimMoves(c, q, e, dv, dvsize)
    ensures CoreOk(Merge(c, q, e, dv, dvsize))
    ensures Live(Merge(c, q, e, dv, dvsize)) == set p | p in Live(c) && !(q <= p < e)
  {
    hide ChunkOk, Apart, HasPrev;
    var c' := Merge(c, q, e, dv, dvsize);
    forall p: Addr
      ensures ChunkOk(c', p)
    {
      MergeChunk(c, q, e, dv, dvsize, p);
    }
    forall p: Addr, r: Addr
      ensures Apart(c', p, r)
    {
      MergeApart(c, q, e, dv, dvsize, p, r);
    }
    forall p: Addr
      ensures HasPrev(c', p)
    {
      MergePrev(c, q, e, dv, dvsize, p);
    }
  }

  lemma MergeChunk(c: Core, q: Addr, e: Addr, dv: Addr, dvsize: nat, p: Addr)
    requires CoreOk(c) && IsChunk(c, q) && IsChunk(c, e) && q < e && c.head[q].pinuse && c.head[e].cinuse
    ensures ChunkOk(Merge(c, q, e, dv, dvsize), p)
  {
    assert ChunkOk(c, q) && Apart(c, q, e);
    assert ChunkOk(c, p) && Apart(c, p, q) && Apart(c, p, e) && ChunkOk(c, e) && Apart(c, e, p);
    hide CoreOk, ChunkOk, Apart;
    if p < q { MergeBelow(c, q, e, dv, dvsize, p); }
    else if p == q { MergeSelf(c, q, e, dv, dvsize); }
    else { MergeAbove(c, q, e, dv, dvsize, p); }
  }

  lemma MergeBelow(c: Core, q: Addr, e: Addr, dv: Addr, dvsize: nat, p: Addr)
    requires IsChunk(c, q) && IsChunk(c, e) && p < q < e && c.head[q].pinuse
    requires ChunkOk(c, p) && Apart(c, p, q)
    ensures ChunkOk(Merge(c, q, e, dv, dvsize), p)
  {}

  lemma MergeSelf(c: Core, q: Addr, e: Addr, dv: Addr, dvsize: nat)
    requires IsChunk(c, q) && IsChunk(c, e) && q < e && c.head[q].pinuse && c.head[e].cinuse && e % ALIGN == 0
    requires q % ALIGN == 0
    requires ChunkOk(c, q) && Apart(c, q, e)
    ensures ChunkOk(Merge(c, q, e, dv, dvsize), q)
  {}

  lemma MergeAbove(c: Core, q: Addr, e: Addr, dv: Addr, dvsize: nat, p: Addr)
    requires IsChunk(c, q) && IsChunk(c, e) && q < e && q < p && c.head[e].cinuse
    requires ChunkOk(c, p) && Apart(c, e, p) && ChunkOk(c, e)
    ensures ChunkOk(Merge(c, q, e, dv, dvsize), p)
  {}

  lemma MergeApart(c: Core, q: Addr, e: Addr, dv: Addr, dvsize: nat, p: Addr, r: Addr)
    requires CoreOk(c) && IsChunk(c, q) && IsChunk(c, e) && q < e
    ensures Apart(Merge(c, q, e, dv, dvsize), p, r)
  {
    assert Apart(c, p, r) && Apart(c, p, q) && Apart(c, p, e);
  }

  lemma MergePrev(c: Core, q: Addr, e: Addr, dv: Addr, dvsize: nat, p: Addr)
    requires CoreOk(c) && IsChunk(c, q) && IsChunk(c, e) && q < e
    ensures HasPrev(Merge(c, q, e, dv, dvsize), p)
  {
    assert HasPrev(c, p) && ChunkOk(c, q) && Apart(c, q, e);
    if p in c.prev { assert ChunkOk(c, c.prev[p]) && Apart(c, c.prev[p], e) && Apart(c, c.prev[p], q); }
  }

  /** Everything from q on becomes top (src/dl_malloc.c:4398-4406). */
  function MergeTop(c: Core, q: Addr, dv: Addr, dvsize: nat): Core
    requires q <= c.top
  {
    var tsize := c.top - q + c.topsize;
    c.(head := c.head[q := Head(tsize, true, false)],
       top := q, topsize := tsize, dv := dv, dvsize := dvsize,
       starts := (set p | p in c.starts && p <= q))
  }

  lemma MergeTopOk(c: Core, q: Addr, dv: Addr, dvsize: nat)
    requires CoreOk(c) && IsChunk(c, q) && c.head[q].pinuse
    requires if q <= c.dv then dv == 0 && dvsize == 0 else dv == c.dv && dvsize == c.dvsize
    ensures CoreOk(MergeTop(c, q, dv, dvsize))
    ensures Live(MergeTop(c, q, dv, dvsize)) == set p | p in Live(c) && p < q
  {
    hide ChunkOk, Apart, HasPrev;
    var c' := MergeTop(c, q, dv, dvsize);
    forall p: Addr
      ensures ChunkOk(c', p) && HasPrev(c', p)
    {
      MergeTopChunk(c, q, dv, dvsize, p);
    }
    forall p: Addr, r: Addr
      ensures Apart(c', p, r)
    {
      MergeTopApart(c, q, dv, dvsize, p, r);
    }
  }

  lemma MergeTopChunk(c: Core, q: Addr, dv: Addr, dvsize: nat, p: Addr)
    requires CoreOk(c) && IsChunk(c, q) && c.head[q].pinuse
    ensures ChunkOk(MergeTop(c, q, dv, dvsize), p) && HasPrev(MergeTop(c, q, dv, dvsize), p)
  {
    assert ChunkOk(c, p) && Apart(c, p, q) && HasPrev(c, p);
    if p in c.prev { assert ChunkOk(c, c.prev[p]); }
  }

  lemma MergeTopApart(c: Core, q: Addr, dv: Addr, dvsize: nat, p: Addr, r: Addr)
    requires CoreOk(c) && IsChunk(c, q)
    ensures Apart(MergeTop(c, q, dv, dvsize), p, r)
  {
    assert Apart(c, p, r);
  }

  // ----- the bins along with the tags -----

  /** A change of tags and limbo that leaves alone what is in the bins. */
  ghost predicate SameInBin(c: Core, limbo: set<Addr>, c': Core, limbo': set<Addr>, p: Addr) {
    && (InBin(c, limbo, p) <==> InBin(c', limbo', p))
    && (InBin(c, limbo, p) && InBin(c', limbo', p) ==> c'.head[p].size == c.head[p].size)
  }

  lemma BinsKept(c: Core, limbo: set<Addr>, c': Core, limbo': set<Addr>, small: map<Addr, nat>, large: map<Addr, nat>)
    requires Binned(c, small, large, limbo)
    requires forall p: Addr :: SameInBin(c, limbo, c', limbo', p)
    ensures Binned(c', small, large, limbo')
  {
    forall p: Addr
      ensures p in small <==> InBin(c', limbo', p) && c'.head[p].size < 256
      ensures p in large <==> InBin(c', limbo', p) && c'.head[p].size >= 256
      ensures p in small ==> p in c'.head && small[p] == c'.head[p].size
      ensures p in large ==> p in c'.head && large[p] == c'.head[p].size
    {
      assert SameInBin(c, limbo, c', limbo', p);
    }
  }

  /** The right neighbour of a free chunk is in use. */
  lemma EndNotFree(c: Core, p: Addr)
    requires CoreOk(c) && IsFree(c, p)
    ensures End(c, p) in Live(c) && c.head[p].pinuse && End(c, p) != p
  {
    assert ChunkOk(c, p);
  }

  lemma BinnedUseWhole(c: Core, small: map<Addr, nat>, large: map<Addr, nat>, p: Addr, dv: Addr, dvsize: nat)
    requires CoreOk(c) && IsFree(c, p) && Binned(c, small, large, {p})
    requires (dv == c.dv && dvsize == c.dvsize && p != c.dv) || (p == c.dv && dv == 0 && dvsize == 0)
    requires p in c.head && End(c, p) in c.head
    ensures Binned(UseWhole(c, p, dv, dvsize), small, large, {})
  {
    hide ChunkOk, Apart, HasPrev, Binned, CoreOk;
    EndNotFree(c, p);
    PositiveStarts(c);
    var c' := UseWhole(c, p, dv, dvsize);
    forall q: Addr
      ensures SameInBin(c, {p}, c', {}, q)
    {
    }
    BinsKept(c, {p}, c', {}, small, large);
  }

  lemma PositiveStarts(c: Core)
    requires CoreOk(c)
    ensures 0 !in c.starts && c.top in c.starts && c.base in c.starts && Placed(c)
  {}

  /** What is left in limbo after a split: the rest, or the old victim when the rest becomes the victim. */
  function SplitLimbo(c: Core, p: Addr, nb: nat, dv: Addr): set<Addr> {
    if dv != p + nb then {p + nb} else if c.dv == 0 || p == c.dv then {} else {c.dv}
  }

  lemma BinnedUseSplit(c: Core, small: map<Addr, nat>, large: map<Addr, nat>, p: Addr, nb: nat, dv: Addr, dvsize: nat)
    requires CoreOk(c) && IsFree(c, p) && Binned(c, small, large, {p}) && nb <= c.head[p].size
    requires p + nb !in c.starts && nb > 0
    requires (dv == c.dv && dvsize == c.dvsize && p != c.dv) || (dv == p + nb && dvsize == c.head[p].size - nb)
    ensures Binned(UseSplit(c, p, nb, dv, dvsize), small, large, SplitLimbo(c, p, nb, dv))
  {
    hide ChunkOk, Apart, HasPrev, Binned, CoreOk;
    PositiveStarts(c);
    VictimStart(c);
    var c' := UseSplit(c, p, nb, dv, dvsize);
    forall q: Addr
      ensures SameInBin(c, {p}, c', SplitLimbo(c, p, nb, dv), q)
    {
    }
    BinsKept(c, {p}, c', SplitLimbo(c, p, nb, dv), small, large);
  }

  lemma VictimStart(c: Core)
    requires CoreOk(c)
    ensures c.dv != 0 ==> IsFree(c, c.dv) && c.head[c.dv].size == c.dvsize
    ensures c.dv == 0 <==> c.dvsize == 0
  {}

  lemma BinnedUseTop(c: Core, small: map<Addr, nat>, large: map<Addr, nat>, nb: nat)
    requires CoreOk(c) && Binned(c, small, large, {}) && 0 < nb < c.topsize
    ensures Binned(UseTop(c, nb), small, large, {})
  {
    hide ChunkOk, Apart, HasPrev, Binned, CoreOk;
    PositiveStarts(c);
    var c' := UseTop(c, nb);
    forall q: Addr
      ensures SameInBin(c, {}, c', {}, q)
    {
    }
    BinsKept(c, {}, c', {}, small, large);
  }

  lemma BinnedCutUsed(c: Core, small: map<Addr, nat>, large: map<Addr, nat>, p: Addr, lead: nat)
    requires CoreOk(c) && p in Live(c) && lead <= c.head[p].size && p + lead !in c.starts && lead > 0
    requires Binned(c, small, large, {})
    ensures Binned(CutUsed(c, p, lead), small, large, {})
  {
    hide ChunkOk, Apart, HasPrev, Binned, CoreOk;
    var c' := CutUsed(c, p, lead);
    forall q: Addr
      ensures SameInBin(c, {}, c', {}, q)
    {
    }
    BinsKept(c, {}, c', {}, small, large);
  }

  lemma BinnedMerge(c: Core, small: map<Addr, nat>, large: map<Addr, nat>, limbo: set<Addr>, q: Addr, e: Addr, dv: Addr,
                    dvsize: nat)
    requires CoreOk(c) && Binned(c, small, large, limbo) && IsChunk(c, q) && IsChunk(c, e) && q < e && c.head[e].cinuse
    requires VictimMoves(c, q, e, dv, dvsize)
    requires forall p: Addr :: p in limbo ==> q <= p < e
    requires forall p: Addr :: Binnable(c, p) && q <= p < e ==> p in limbo
    ensures Binned(Merge(c, q, e, dv, dvsize), small, large, if dv == q then {} else {q})
  {
    hide ChunkOk, Apart, HasPrev, Binned, CoreOk;
    PositiveStarts(c);
    var c' := Merge(c, q, e, dv, dvsize);
    var limbo' := if dv == q then {} else {q};
    forall p: Addr
      ensures SameInBin(c, limbo, c', limbo', p)
    {
      assert Binnable(c, p) && q <= p < e ==> p in limbo;
    }
    BinsKept(c, limbo, c', limbo', small, large);
  }

  lemma BinnedMergeTop(c: Core, small: map<Addr, nat>, large: map<Addr, nat>, limbo: set<Addr>, q: Addr, dv: Addr,
                       dvsize: nat)
    requires CoreOk(c) && Binned(c, small, large, limbo) && IsChunk(c, q)
    requires if q <= c.dv then dv == 0 && dvsize == 0 else dv == c.dv && dvsize == c.dvsize
    requires forall p: Addr :: p in limbo ==> q <= p
    requires forall p: Addr :: Binnable(c, p) && q <= p ==> p in limbo
    ensures Binned(MergeTop(c, q, dv, dvsize), small, large, {})
  {
    hide ChunkOk, Apart, HasPrev, Binned, CoreOk;
    PositiveStarts(c);
    var c' := MergeTop(c, q, dv, dvsize);
    forall p: Addr
      ensures SameInBin(c, limbo, c', {}, p)
    {
      assert Binnable(c, p) && q <= p ==> p in limbo;
    }
    BinsKept(c, limbo, c', {}, small, large);
  }

  /** A chunk in limbo goes to the bin of its size. */
  lemma BinnedInsert(c: Core, small: map<Addr, nat>, large: map<Addr, nat>, p: Addr)
    requires Binned(c, small, large, {p}) && Binnable(c, p)
    ensures p !in small && p !in large
    ensures c.head[p].size < 256 ==> Binned(c, small[p := c.head[p].size], large, {})
    ensures c.head[p].size >= 256 ==> Binned(c, small, large[p := c.head[p].size], {})
  {}

  lemma BinnedUnlink(c: Core, small: map<Addr, nat>, large: map<Addr, nat>, limbo: set<Addr>, p: Addr)
    requires Binned(c, small, large, limbo) && (p in small || p in large)
    ensures Binnable(c, p) && p !in limbo && (p in small <==> c.head[p].size < 256)
    ensures p in large <==> c.head[p].size >= 256
    ensures Binned(c, small - {p}, large - {p}, limbo + {p})
    ensures p in small ==> p !in large && large - {p} == large
    ensures p in large ==> p !in small && small - {p} == small
  {}
}
