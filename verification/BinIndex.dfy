/**
 Which bin holds a free chunk of a given size (src/dl_malloc.c:2574-2582, 2829-2916).
 A tree bin is characterised by the leading bits its sizes share: the level of a bin is
 the number of low bits its tree still has to resolve.
 */
module BinIndex {
  import opened Words

  const MAX_SIZE := 0x1_0000_0000_0000_0000  // one past the largest size_t
  const MIN_LARGE_SIZE := 256
  const NTREEBINS := 32
  const LAST := 31

  /** V & b for a power of two b. */
  function MaskBit(v: nat, b: nat): nat
    requires b > 0
  {
    if v / b % 2 == 1 then b else 0
  }

  /** Unsigned 32-bit subtraction. */
  function Sub32(a: nat, b: nat): nat
    requires a < 0x1_0000_0000 && b < 0x1_0000_0000
  {
    if a >= b then a - b else a + 0x1_0000_0000 - b
  }

  lemma MaskValue(y: nat)
    requires y <= 0xFFFF
    ensures MaskBit(Sub32(y, 0x100) / 0x1_0000, 8) == if y < 0x100 then 8 else 0
    ensures MaskBit(Sub32(y, 0x1000) / 0x1_0000, 4) == if y < 0x1000 then 4 else 0
    ensures MaskBit(Sub32(y, 0x4000) / 0x1_0000, 2) == if y < 0x4000 then 2 else 0
  {}

  /** Y <<= K for the shifts of the bit scan. */
  function ShiftUp(y: nat, k: nat): nat {
    if k == 8 then y * 0x100 else if k == 4 then y * 0x10 else if k == 2 then y * 4 else y
  }

  /** The bit scan of compute_tree_index, portable form (src/dl_malloc.c:2893-2898). */
  function LeadingBit(x: nat): (k: nat)
    requires 0 < x <= 0xFFFF
    ensures k <= 15
  {
    MaskValue(x);
    var k8 := MaskBit(Sub32(x, 0x100) / 0x1_0000, 8);
    var y8 := ShiftUp(x, k8);
    MaskValue(y8);
    var k4 := MaskBit(Sub32(y8, 0x1000) / 0x1_0000, 4);
    var y4 := ShiftUp(y8, k4);
    MaskValue(y4);
    var k2 := MaskBit(Sub32(y4, 0x4000) / 0x1_0000, 2);
    var y2 := ShiftUp(y4, k2);
    14 - (k8 + k4 + k2) + y2 / 0x8000
  }

  lemma LeadingBitFound(x: nat)
    requires 0 < x <= 0xFFFF
    ensures Hi(x, LeadingBit(x)) == 1
  {
    hide Pow2, Hi;
    SmallPowers();
    MaskValue(x);
    var k8 := if x < 0x100 then 8 else 0;
    var y8 := ShiftUp(x, k8);
    MaskValue(y8);
    var k4 := if y8 < 0x1000 then 4 else 0;
    var y4 := ShiftUp(y8, k4);
    MaskValue(y4);
    var k2 := if y4 < 0x4000 then 2 else 0;
    var y2 := ShiftUp(y4, k2);
    ShiftUpPower(x, 0, x, k8);
    ShiftUpPower(x, k8, y8, k4);
    ShiftUpPower(x, k8 + k4, y4, k2);
    ScanResult(x, k8 + k4 + k2, y2);
  }

  lemma ShiftUpPower(x: nat, n: nat, y: nat, k: nat)
    requires k in [0, 2, 4, 8] && y == x * Pow2(n)
    ensures ShiftUp(y, k) == x * Pow2(n + k)
  {
    SmallPowers();
    Pow2Add(n, k);
    hide Pow2;
    Regroup(x, Pow2(n), Pow2(k));
  }

  lemma SmallPowers()
    ensures Pow2(0) == 1 && Pow2(2) == 4 && Pow2(4) == 0x10 && Pow2(8) == 0x100
  {}

  lemma Regroup(x: nat, p: nat, q: nat)
    ensures x * p * q == x * (p * q)
  {}

  lemma ScanResult(x: nat, n: nat, y: nat)
    requires y == x * Pow2(n) && 0x4000 <= y <= 0xFFFF && n <= 14
    ensures Hi(x, 14 - n + y / 0x8000) == 1
  {
    assert Pow2(7) == 128;
    Pow2Add(7, 7);
    assert Pow2(14) == 0x4000 && Pow2(15) == 0x8000;
    HiIsOne(y, 14 + y / 0x8000);
    HiOfProduct(x, n, 14 - n + y / 0x8000);
  }

  lemma {:induction false} HiOfProduct(x: nat, n: nat, m: nat)
    ensures Hi(x * Pow2(n), n + m) == Hi(x, m)
  {
    if n > 0 {
      assert x * Pow2(n) == 2 * (x * Pow2(n - 1));
      HiOfProduct(x, n - 1, m);
    }
  }

  lemma {:induction false} HiIsOne(x: nat, k: nat)
    requires Pow2(k) <= x < 2 * Pow2(k)
    ensures Hi(x, k) == 1
  {
    if k > 0 { HiIsOne(x / 2, k - 1); }
  }

  /** compute_tree_index. */
  function TreeIndex(s: nat): (i: nat)
    ensures i < NTREEBINS
  {
    var x := s / 256;
    if x == 0 then 0
    else if x > 0xFFFF then LAST
    else
      var k := LeadingBit(x);
      2 * k + Hi(s, k + 7) % 2
  }

  /** bit_for_tree_index plus one: how many low bits the tree of bin i resolves. */
  function BinLevel(i: nat): nat
    requires i < NTREEBINS
  {
    if i == LAST then 64 else i / 2 + 7
  }

  /** leftshift_for_tree_index. */
  function LeftShift(i: nat): nat
    requires i < NTREEBINS
  {
    if i == LAST then 0 else 63 - (i / 2 + 6)
  }

  /** minsize_for_tree_index. */
  function MinSize(i: nat): nat
    requires i < NTREEBINS
  {
    Pow2(i / 2 + 8) + (i % 2) * Pow2(i / 2 + 7)
  }

  lemma HiByte(s: nat)
    ensures Hi(s, 8) == s / 256
  {
    HiNibble(s);
    HiNibble(s / 16);
    HiOfHi(s, 4, 4);
  }

  lemma HiNibble(s: nat)
    ensures Hi(s, 4) == s / 16
  {
    HiStep(s, 0);
    HiStep(s, 1);
    HiStep(s, 2);
    HiStep(s, 3);
  }

  /** The sizes of a tree bin are those with its leading bits. */
  lemma TreeIndexBits(s: nat)
    requires MIN_LARGE_SIZE <= s < MAX_SIZE
    ensures var i := TreeIndex(s);
            if i == LAST then Hi(s, 22) >= 3 else Hi(s, i / 2 + 7) == 2 + i % 2
  {
    hide Hi;
    var x := s / 256;
    HiByte(s);
    if x > 0xFFFF {
      WideLead(x);
      HiOfHi(s, 8, 14);
    } else {
      var k := LeadingBit(x);
      LeadingBitFound(x);
      HiOfHi(s, 8, k);
      HiStep(s, k + 7);
    }
  }

  lemma WideLead(x: nat)
    requires x > 0xFFFF
    ensures Hi(x, 14) >= 3
  {
    HiByte(x);
    HiNibble(x / 256);
    HiStep(x / 4096, 0);
    HiStep(x / 4096, 1);
    HiOfHi(x, 8, 4);
    HiOfHi(x, 12, 2);
  }

  /** Every size below 2^64 shares the bits above the level of its bin. */
  lemma SameBinSameLead(a: nat, b: nat)
    requires MIN_LARGE_SIZE <= a < MAX_SIZE && MIN_LARGE_SIZE <= b < MAX_SIZE
    requires TreeIndex(a) == TreeIndex(b)
    ensures Hi(a, BinLevel(TreeIndex(a))) == Hi(b, BinLevel(TreeIndex(a)))
  {
    TreeIndexBits(a);
    TreeIndexBits(b);
    if TreeIndex(a) == LAST {
      NoBits(a);
      NoBits(b);
    }
  }

  lemma NoBits(a: nat)
    requires a < MAX_SIZE
    ensures Hi(a, 64) == 0
  {
    SizeLimit();
    HiBelow(a, 64, 64);
  }

  lemma SizeLimit()
    ensures MAX_SIZE == Pow2(64)
  {
    hide Pow2;
    SmallPowers();
    Pow2Add(8, 8);
    Pow2Add(16, 16);
    Pow2Add(32, 32);
  }

  /** Bins are ordered as their sizes are. */
  lemma BinOrder(a: nat, b: nat)
    requires MIN_LARGE_SIZE <= a < MAX_SIZE && MIN_LARGE_SIZE <= b < MAX_SIZE
    requires TreeIndex(a) < TreeIndex(b)
    ensures a < b
  {
    hide Pow2, Hi, TreeIndex;
    TreeIndexBits(a);
    TreeIndexBits(b);
    var i, j := TreeIndex(a), TreeIndex(b);
    var w := if j == LAST then 22 else j / 2 + 7;
    if i / 2 + 7 < w { LeadVanishes(a, i, w); }
    HiOrderDown(a, b, 0, w);
  }

  lemma LeadVanishes(a: nat, i: nat, w: nat)
    requires Hi(a, i / 2 + 7) <= 3 && i / 2 + 7 < w
    ensures Hi(a, w) <= 1
  {
    var v := i / 2 + 8;
    HiStep(a, i / 2 + 7);
    HiOfHi(a, v, w - v);
    HiMonotone(Hi(a, v), 1, w - v);
    HiMonotone(0, 1, w - v);
    OneShrinks(w - v);
  }

  lemma {:induction false} OneShrinks(n: nat)
    ensures Hi(1, n) <= 1
  {
    if n > 0 { HiZero(n - 1); }
  }

  lemma MinSizeForm(i: nat)
    requires i < NTREEBINS
    ensures MinSize(i) == (2 + i % 2) * Pow2(i / 2 + 7)
    ensures i < LAST ==> MinSize(i + 1) == (3 + i % 2) * Pow2(i / 2 + 7)
  {
    hide Pow2;
    var w := i / 2 + 7;
    var p := Pow2(w);
    Pow2Step(w);
    Pow2Step(w + 1);
    assert MinSize(i) == 2 * p + (i % 2) * p;
    if i % 2 == 0 {
      assert (i + 1) / 2 == i / 2 && (i + 1) % 2 == 1;
    } else {
      assert (i + 1) / 2 == i / 2 + 1 && (i + 1) % 2 == 0;
    }
  }

  /** minsize_for_tree_index is the least size of a bin: the checks of src/dl_malloc.c:3311-3315. */
  lemma TreeIndexRange(s: nat)
    requires MIN_LARGE_SIZE <= s < MAX_SIZE
    ensures var i := TreeIndex(s);
            MinSize(i) <= s && (i == LAST || s < MinSize(i + 1))
  {
    hide Pow2, Hi, MinSize, TreeIndex;
    TreeIndexBits(s);
    var i := TreeIndex(s);
    var w := i / 2 + 7;
    MinSizeForm(i);
    FromHi(s, w);
    if i == LAST { Scale(3, Hi(s, w), Pow2(w)); }
  }

  lemma Scale(a: nat, b: nat, p: nat)
    requires a <= b
    ensures a * p <= b * p
  {}

  lemma {:induction false} FromHi(s: nat, w: nat)
    ensures Hi(s, w) * Pow2(w) <= s < (Hi(s, w) + 1) * Pow2(w)
  {
    if w > 0 {
      FromHi(s / 2, w - 1);
      FromHalf(s, Hi(s / 2, w - 1), Pow2(w - 1));
    }
  }

  lemma FromHalf(s: nat, h: nat, p: nat)
    requires h * p <= s / 2 < (h + 1) * p
    ensures h * (2 * p) <= s < (h + 1) * (2 * p)
  {
    var a, b := h * p, (h + 1) * p;
    assert h * (2 * p) == 2 * a;
    assert (h + 1) * (2 * p) == 2 * b;
  }

  // ----- the shifted size whose sign bit steers a trie walk -----

  /** K <<= 1 on an n-bit word. */
  function Shl(k: nat, n: nat): (r: nat)
    requires k < Pow2(n)
    ensures r < Pow2(n)
  {
    if 2 * k < Pow2(n) then 2 * k else 2 * k - Pow2(n)
  }

  /** S << t on an n-bit word. */
  function ShlBy(k: nat, t: nat, n: nat): (r: nat)
    requires k < Pow2(n)
    ensures r < Pow2(n)
  {
    if t == 0 then k else Shl(ShlBy(k, t - 1, n), n)
  }

  /** K >> (n-1) & 1. */
  predicate SignBit(k: nat, n: nat)
    requires n > 0
  {
    BitAt(k, n - 1)
  }

  /** The sign bits of k, k << 1, ... are the low w bits of s from the top one down. */
  ghost predicate Steers(k: nat, n: nat, s: nat, w: nat)
    requires k < Pow2(n) && n > 0
    decreases w
  {
    w > 0 ==> (SignBit(k, n) <==> BitAt(s, w - 1)) && Steers(Shl(k, n), n, s, w - 1)
  }

  lemma {:induction false} HalfTurn(x: nat, n: nat, j: nat)
    requires Pow2(n) <= x < 2 * Pow2(n) && j < n
    ensures BitAt(x - Pow2(n), j) <==> BitAt(x, j)
  {
    if j > 0 {
      assert (x - Pow2(n)) / 2 == x / 2 - Pow2(n - 1);
      HalfTurn(x / 2, n - 1, j - 1);
    }
  }

  lemma {:induction false} ShlByBits(k: nat, t: nat, n: nat, j: nat)
    requires k < Pow2(n) && j + t < n
    ensures BitAt(ShlBy(k, t, n), j + t) <==> BitAt(k, j)
  {
    if t > 0 {
      ShlByBits(k, t - 1, n, j);
      var x := ShlBy(k, t - 1, n);
      assert 2 * x / 2 == x;
      if 2 * x >= Pow2(n) { HalfTurn(2 * x, n, j + t); }
    }
  }

  lemma {:induction false} ShiftSteers(s: nat, t: nat, n: nat)
    requires s < Pow2(n) && t <= n && n > 0
    ensures Steers(ShlBy(s, t, n), n, s, n - t)
    decreases n - t
  {
    if t < n {
      ShlByBits(s, t, n, n - 1 - t);
      ShiftSteers(s, t + 1, n);
    }
  }

  /** S << leftshift_for_tree_index(i) starts with the bits below the level of the bin. */
  lemma WalkStart(s: nat, i: nat)
    requires i < NTREEBINS && s < Pow2(64)
    ensures Steers(ShlBy(s, LeftShift(i), 64), 64, s, BinLevel(i))
  {
    ShiftSteers(s, LeftShift(i), 64);
  }
}
