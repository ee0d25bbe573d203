/**
 The 32-bit maps that record which bins of a malloc state are non-empty, and the
 bit tricks that search them without looking at the bins (src/dl_malloc.c:2919-2983).
 Each word operation is specified by the set of bins it marks.
 */
module BinMaps {
  import opened Words

  const WORD := 0x1_0000_0000

  /** The bins a map marks. */
  ghost function Marked(m: nat): set<nat> {
    set i: nat | i < 32 && BitAt(m, i)
  }

  lemma WordIsPower()
    ensures WORD == Pow2(32)
  {
    assert Pow2(8) == 0x100;
    Pow2Add(8, 8);
    Pow2Add(16, 16);
  }

  lemma {:induction false} Pow2Less(i: nat, n: nat)
    requires i < n
    ensures 2 * Pow2(i) <= Pow2(n)
    decreases n
  {
    if i < n - 1 { Pow2Less(i, n - 1); }
  }

  /** smallmap_is_marked, treemap_is_marked. */
  method IsMarked(m: nat, i: nat) returns (b: bool)
    requires m < WORD && i < 32
    ensures b <==> i in Marked(m)
  {
    b := And(m, Pow2(i)) != 0;
    AndBits(m, Pow2(i), i);
    PowerBits(i, i);
    if b && !BitAt(m, i) {
      forall j: nat
        ensures BitAt(And(m, Pow2(i)), j) <==> BitAt(0, j)
      {
        AndBits(m, Pow2(i), j);
        PowerBits(i, j);
        HiZero(j);
      }
      SameBits(And(m, Pow2(i)), 0);
    }
    HiZero(i);
  }

  /** mark_smallmap, mark_treemap. */
  method Mark(m: nat, i: nat) returns (r: nat)
    requires m < WORD && i < 32
    ensures r < WORD && Marked(r) == Marked(m) + {i}
  {
    r := Or(m, Pow2(i));
    WordIsPower();
    Pow2Less(i, 32);
    OrBelow(m, Pow2(i), 32);
    forall j: nat
      ensures BitAt(r, j) <==> j == i || BitAt(m, j)
    {
      OrBits(m, Pow2(i), j);
      PowerBits(i, j);
    }
  }

  /** clear_smallmap, clear_treemap. */
  method Clear(m: nat, i: nat) returns (r: nat)
    requires m < WORD && i < 32
    ensures r < WORD && Marked(r) == Marked(m) - {i}
  {
    WordIsPower();
    Pow2Less(i, 32);
    r := And(m, WORD - 1 - Pow2(i));
    AndBelow(m, WORD - 1 - Pow2(i));
    forall j: nat | j < 32
      ensures BitAt(r, j) <==> j != i && BitAt(m, j)
    {
      AndBits(m, WORD - 1 - Pow2(i), j);
      ComplementBits(Pow2(i), 32, j);
      PowerBits(i, j);
    }
  }

  lemma {:induction false} OrBelow(a: nat, b: nat, n: nat)
    requires a < Pow2(n) && b < Pow2(n)
    ensures Or(a, b) < Pow2(n)
  {
    if a != 0 && b != 0 { OrBelow(a / 2, b / 2, n - 1); }
  }

  lemma {:induction false} AndBelow(a: nat, b: nat)
    ensures And(a, b) <= a && And(a, b) <= b
  {
    if a != 0 && b != 0 {
      AndBelow(a / 2, b / 2);
      AndHalf(a, b);
    }
  }

  /** Unsigned negation of an n-bit word. */
  function Neg(x: nat, n: nat): (r: nat)
    requires x < Pow2(n)
    ensures r < Pow2(n)
  {
    if x == 0 then 0 else Pow2(n) - x
  }

  /** least_bit: isolates the least set bit. */
  function LeastBit(x: nat): nat
    requires x < Pow2(32)
  {
    And(x, Neg(x, 32))
  }

  /** left_bits: all bits strictly above the least set bit of x. */
  function LeftBits(x: nat, n: nat): nat
    requires x < Pow2(n)
  {
    var y := if 2 * x < Pow2(n) then 2 * x else 2 * x - Pow2(n);
    Or(y, Neg(y, n))
  }

  /** And of a word with its negation is the power of its least set bit. */
  lemma {:induction false} LeastBitIsPower(x: nat, n: nat) returns (k: nat)
    requires 0 < x < Pow2(n)
    ensures k < n && BitAt(x, k) && And(x, Neg(x, n)) == Pow2(k)
    ensures forall j: nat :: j < k ==> !BitAt(x, j)
  {
    assert n > 0 && Pow2(n) == 2 * Pow2(n - 1);
    hide And, Hi, BitAt, Pow2;
    PowerOfNone();
    if x % 2 == 1 {
      k := 0;
      LowBit(x);
      AndHalf(x, Pow2(n) - x);
      assert (Pow2(n) - x) / 2 == Pow2(n - 1) - 1 - x / 2;
      AndComplement(x / 2, n - 1);
    } else {
      k := LeastBitIsPower(x / 2, n - 1);
      assert (Pow2(n) - x) / 2 == Pow2(n - 1) - x / 2;
      AndHalf(x, Pow2(n) - x);
      forall j: nat | j < k + 1
        ensures !BitAt(x, j)
      {
        LowBit(x);
        if j > 0 { BitOfHalf(x, j - 1); }
      }
      BitOfHalf(x, k);
      Pow2Step(k);
      k := k + 1;
    }
  }

  lemma PowerOfNone()
    ensures Pow2(0) == 1
  {}

  lemma LowBit(x: nat)
    ensures BitAt(x, 0) <==> x % 2 == 1
  {}

  lemma BitOfHalf(x: nat, j: nat)
    ensures BitAt(x, j + 1) <==> BitAt(x / 2, j)
  {}

  lemma {:induction false} AndComplement(x: nat, n: nat)
    requires x < Pow2(n)
    ensures And(x, Pow2(n) - 1 - x) == 0
  {
    if x != 0 && Pow2(n) - 1 - x != 0 {
      AndHalf(x, Pow2(n) - 1 - x);
      assert (Pow2(n) - 1 - x) / 2 == Pow2(n - 1) - 1 - x / 2;
      AndComplement(x / 2, n - 1);
    }
  }

  lemma {:induction false} OrOfPowerAndNeg(a: nat, n: nat)
    requires a < n
    ensures Pow2(a) < Pow2(n) && Or(Pow2(a), Pow2(n) - Pow2(a)) == Pow2(n) - Pow2(a)
  {
    if a == 0 {
      Pow2Less(0, n);
      assert (Pow2(n) - 1) / 2 == Pow2(n - 1) - 1;
      assert Or(0, (Pow2(n) - 1) / 2) == (Pow2(n) - 1) / 2;
    } else {
      OrOfPowerAndNeg(a - 1, n - 1);
      assert (Pow2(n) - Pow2(a)) / 2 == Pow2(n - 1) - Pow2(a - 1);
    }
  }

  /** The word of all bits from a up to n. */
  lemma {:induction false} HighBits(a: nat, n: nat, j: nat)
    requires a <= n && j < n
    ensures Pow2(a) <= Pow2(n)
    ensures BitAt(Pow2(n) - Pow2(a), j) <==> a <= j
  {
    if a > 0 {
      if j > 0 {
        HighBits(a - 1, n - 1, j - 1);
        assert (Pow2(n) - Pow2(a)) / 2 == Pow2(n - 1) - Pow2(a - 1);
      } else {
        HighBitsOrder(a, n);
      }
    } else {
      HighBitsOrder(0, n);
      ComplementBits(0, n, j);
      HiZero(j);
    }
  }

  lemma {:induction false} HighBitsOrder(a: nat, n: nat)
    requires a <= n
    ensures Pow2(a) <= Pow2(n)
  {
    if a < n { Pow2Less(a, n); }
  }

  /** One line of compute_bit2idx: N += K = Y >> (w-lg w) & w; Y >>= K. */
  function HalveIndex(ny: (nat, nat), w: nat): (nat, nat) {
    if BitAt(ny.1, w) then (ny.0 + w, Hi(ny.1, w)) else ny
  }

  /** compute_bit2idx, portable form, from the line that tests bit w on. */
  function Bit2IdxFrom(ny: (nat, nat), w: nat): nat
    decreases w
  {
    if w == 0 then ny.0 + ny.1 else Bit2IdxFrom(HalveIndex(ny, w), w / 2)
  }

  function Bit2Idx(x: nat): nat
    requires x > 0
  {
    Bit2IdxFrom((0, x - 1), 16)
  }

  lemma {:induction false} Ones(r: nat, w: nat)
    ensures BitAt(Pow2(r) - 1, w) <==> w < r
    ensures w <= r ==> Hi(Pow2(r) - 1, w) == Pow2(r - w) - 1
  {
    if r == 0 {
      HiZero(w);
    } else if w > 0 {
      assert (Pow2(r) - 1) / 2 == Pow2(r - 1) - 1;
      Ones(r - 1, w - 1);
    }
  }

  lemma HalveOnes(n: nat, r: nat, w: nat) returns (n': nat, r': nat)
    requires r <= 2 * w
    ensures HalveIndex((n, Pow2(r) - 1), w) == (n', Pow2(r') - 1)
    ensures n' + r' == n + r && r' <= w
  {
    Ones(r, w);
    if w < r { n', r' := n + w, r - w; } else { n', r' := n, r; }
  }

  lemma {:induction false} Bit2IdxOfOnes(n: nat, r: nat, w: nat)
    requires r <= 2 * w && w in [1, 2, 4, 8, 16]
    ensures Bit2IdxFrom((n, Pow2(r) - 1), w) == n + r
    decreases w
  {
    var n', r' := HalveOnes(n, r, w);
    if w > 1 {
      Bit2IdxOfOnes(n', r', w / 2);
    } else {
      assert Pow2(r') - 1 == r';
    }
  }

  /** The first marked bin: compute_bit2idx of least_bit. */
  method FirstMarked(m: nat) returns (i: nat)
    requires 0 < m < WORD
    ensures i in Marked(m)
    ensures forall j :: j in Marked(m) ==> i <= j
  {
    WordIsPower();
    ghost var k := LeastBitIsPower(m, 32);
    Bit2IdxOfOnes(0, k, 16);
    i := Bit2Idx(LeastBit(m));
  }

  /** left_bits(idx2bit(i)) has exactly the bits above i. */
  lemma LeftBitsOfPower(i: nat, n: nat, j: nat)
    requires i < n && j < n && Pow2(i) < Pow2(n)
    ensures BitAt(LeftBits(Pow2(i), n), j) <==> j > i
  {
    if i + 1 < n {
      OrOfPowerAndNeg(i + 1, n);
      HighBits(i + 1, n, j);
    } else {
      HiZero(j);
    }
  }

  /** left_bits(idx2bit(i)) & map: the marked bins above i. */
  method MarkedAbove(m: nat, i: nat) returns (r: nat)
    requires m < WORD && i < 32
    ensures r < WORD && Marked(r) == set j | j in Marked(m) && j > i
    ensures r == 0 <==> Marked(r) == {}
  {
    WordIsPower();
    Pow2Less(i, 32);
    var bits := LeftBits(Pow2(i), 32);
    r := And(bits, m);
    AndBelow(bits, m);
    forall j: nat | j < 32
      ensures BitAt(r, j) <==> j > i && BitAt(m, j)
    {
      AndBits(bits, m, j);
      LeftBitsOfPower(i, 32, j);
    }
    ZeroMap(r);
  }

  /** A map is zero exactly when it marks no bin. */
  lemma ZeroMap(m: nat)
    requires m < WORD
    ensures m == 0 <==> Marked(m) == {}
  {
    WordIsPower();
    if m != 0 {
      var k := LeastBitIsPower(m, 32);
      assert k in Marked(m);
    } else {
      forall j: nat
        ensures !BitAt(0, j)
      {
        HiZero(j);
      }
    }
  }

  /** The low bits of smallbits = smallmap >> idx (src/dl_malloc.c:5518-5534). */
  method LowBits(m: nat, idx: nat) returns (smallbits: nat, fits: bool, idx': nat)
    requires m < WORD && idx < 31
    ensures smallbits == Hi(m, idx)
    ensures fits <==> idx in Marked(m) || idx + 1 in Marked(m)
    ensures idx' == if idx in Marked(m) then idx else idx + 1
    ensures smallbits == 0 <==> forall j :: j in Marked(m) ==> j < idx
  {
    smallbits := Hi(m, idx);
    fits := smallbits % 4 != 0;
    idx' := idx + (1 - smallbits % 2);
    HiStep(m, idx);
    WordIsPower();
    forall j | j in Marked(m) && idx <= j
      ensures smallbits != 0
    {
      BitAbove(m, idx, j);
    }
    if smallbits != 0 {
      ghost var j := SomeBitAbove(m, idx, 32);
      assert j in Marked(m);
    }
  }

  lemma {:induction false} BitAbove(m: nat, i: nat, j: nat)
    requires BitAt(m, j) && i <= j
    ensures Hi(m, i) != 0
  {
    if i > 0 { BitAbove(m / 2, i - 1, j - 1); } else if m == 0 { HiZero(j); }
  }

  lemma {:induction false} SomeBitAbove(m: nat, i: nat, n: nat) returns (j: nat)
    requires m < Pow2(n) && i <= n && Hi(m, i) != 0
    ensures i <= j < n && BitAt(m, j)
  {
    if i > 0 {
      j := SomeBitAbove(m / 2, i - 1, n - 1);
      j := j + 1;
    } else {
      j := LeastBitIsPower(m, n);
    }
  }

  lemma {:induction false} ShiftBackBits(m: nat, i: nat, j: nat)
    ensures BitAt(Hi(m, i) * Pow2(i), j) <==> i <= j && BitAt(m, j)
  {
    if i > 0 {
      var x := Hi(m / 2, i - 1) * Pow2(i - 1);
      assert Hi(m, i) * Pow2(i) == 2 * x;
      if j > 0 { ShiftBackBits(m / 2, i - 1, j - 1); }
    }
  }

  /** (smallbits << idx) & left_bits(idx2bit(idx)) (src/dl_malloc.c:5538). */
  method LeftSmallBits(ghost m: nat, smallbits: nat, idx: nat) returns (r: nat)
    requires m < WORD && idx < 32 && smallbits == Hi(m, idx)
    ensures r < WORD && Marked(r) == set j | j in Marked(m) && j > idx
    ensures r == 0 <==> Marked(r) == {}
  {
    PowerInWord(idx);
    var bits := LeftBits(Pow2(idx), 32);
    r := And(smallbits * Pow2(idx), bits);
    LeftSmallBitsOk(m, smallbits, idx, r);
    ZeroMap(r);
  }

  lemma PowerInWord(i: nat)
    requires i < 32
    ensures Pow2(i) < Pow2(32) == WORD
  {
    WordIsPower();
    Pow2Less(i, 32);
  }

  lemma LeftSmallBitsOk(m: nat, smallbits: nat, idx: nat, r: nat)
    requires m < WORD && idx < 32 && smallbits == Hi(m, idx) && Pow2(idx) < Pow2(32) == WORD
    requires r == And(smallbits * Pow2(idx), LeftBits(Pow2(idx), 32))
    ensures r < WORD && Marked(r) == set j | j in Marked(m) && j > idx
  {
    hide And, Hi, Pow2, LeftBits, BitAt;
    var bits := LeftBits(Pow2(idx), 32);
    AndBelow(smallbits * Pow2(idx), bits);
    LeftBitsBelow(Pow2(idx), 32);
    forall j: nat | j < 32
      ensures BitAt(r, j) <==> j > idx && BitAt(m, j)
    {
      AndBits(smallbits * Pow2(idx), bits, j);
      LeftBitsOfPower(idx, 32, j);
      ShiftBackBits(m, idx, j);
    }
  }

  lemma LeftBitsBelow(x: nat, n: nat)
    requires x < Pow2(n)
    ensures LeftBits(x, n) < Pow2(n)
  {
    var y := if 2 * x < Pow2(n) then 2 * x else 2 * x - Pow2(n);
    OrBelow(y, Neg(y, n), n);
  }
}
