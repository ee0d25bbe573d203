/**
 The alignment arithmetic of internal_memalign: rounding up to a power of two and the
 masks that test and find aligned addresses (src/dl_malloc.c:4896-4902, 4916-4929).
 */
module Alignment {
  import opened Words
  import BI = BinIndex

  const WORD64 := 0x1_0000_0000_0000_0000
  const HALF64 := 0x8000_0000_0000_0000

  ghost predicate IsPower(a: nat) { exists k: nat :: a == Pow2(k) }

  predicate IsMultiple(x: nat, a: nat) { a > 0 && x % a == 0 }

  lemma {:induction false} PowerTest(a: nat)
    requires a > 0
    ensures And(a, a - 1) == 0 <==> IsPower(a)
  {
    if a == 1 {
      assert a == Pow2(0);
    } else if a % 2 == 0 {
      PowerTest(a / 2);
      AndHalf(a, a - 1);
      if IsPower(a) {
        var k: nat :| a == Pow2(k);
        assert a / 2 == Pow2(k - 1);
      }
      if IsPower(a / 2) {
        var k: nat :| a / 2 == Pow2(k);
        assert a == Pow2(k + 1);
      }
    } else {
      AndSelf(a / 2);
      AndHalf(a, a - 1);
    }
  }

  lemma {:induction false} AndSelf(x: nat)
    ensures And(x, x) == x
  {
    if x > 0 { AndSelf(x / 2); AndHalf(x, x); }
  }

  lemma AndSteps(a: nat, b: nat)
    ensures And(a, b) == 2 * And(a / 2, b / 2) + (if a % 2 == 1 && b % 2 == 1 then 1 else 0)
  {
    if a != 0 && b != 0 { AndHalf(a, b); }
  }

  lemma DoubleMod(x: nat, p: nat)
    requires p > 0
    ensures x % (2 * p) == 2 * ((x / 2) % p) + x % 2
  {
    var q, r := (x / 2) / p, (x / 2) % p;
    assert x == (2 * p) * q + (2 * r + x % 2) by { assert x / 2 == p * q + r; }
    ModOf(x, 2 * p, q, 2 * r + x % 2);
  }

  lemma ModOf(x: nat, d: nat, q: nat, r: nat)
    requires x == d * q + r && r < d
    ensures x % d == r && x / d == q
  {
    SameQuotient(d, q, r, x / d, x % d);
  }

  lemma SameQuotient(d: nat, q: nat, r: nat, q': nat, r': nat)
    requires d * q + r == d * q' + r' && r < d && r' < d
    ensures q == q' && r == r'
  {
    if q > q' { Multiple(d, q, q'); }
    if q < q' { Multiple(d, q', q); }
  }

  lemma Multiple(d: nat, a: nat, b: nat)
    requires a > b
    ensures d * a >= d * b + d
  {
    assert d * a == d * (b + 1) + d * (a - b - 1);
  }

  /** Masking with a - 1 gives the remainder by a power of two a. */
  lemma {:induction false} AndMask(x: nat, k: nat)
    ensures And(x, Pow2(k) - 1) == x % Pow2(k)
  {
    if k > 0 {
      AndMask(x / 2, k - 1);
      AndSteps(x, Pow2(k) - 1);
      DoubleMod(x, Pow2(k - 1));
      assert (Pow2(k) - 1) / 2 == Pow2(k - 1) - 1;
    }
  }

  lemma {:induction false} AndAll(x: nat, n: nat)
    requires x < Pow2(n)
    ensures And(x, Pow2(n) - 1) == x
  {
    if n > 0 {
      AndAll(x / 2, n - 1);
      AndSteps(x, Pow2(n) - 1);
      assert (Pow2(n) - 1) / 2 == Pow2(n - 1) - 1;
    }
  }

  /** Masking with -a rounds an n-bit word down to a multiple of a power of two a. */
  lemma {:induction false} AndHigh(x: nat, k: nat, n: nat)
    requires x < Pow2(n) && k <= n
    ensures Pow2(k) <= Pow2(n)
    ensures And(x, Pow2(n) - Pow2(k)) == x - x % Pow2(k)
  {
    if k == 0 {
      AndAll(x, n);
    } else {
      AndHigh(x / 2, k - 1, n - 1);
      AndSteps(x, Pow2(n) - Pow2(k));
      DoubleMod(x, Pow2(k - 1));
      assert (Pow2(n) - Pow2(k)) / 2 == Pow2(n - 1) - Pow2(k - 1);
    }
  }

  lemma {:induction false} Pow2Below(a: nat, b: nat)
    ensures Pow2(a) < Pow2(b) <==> a < b
    decreases b
  {
    if a < b - 1 { Pow2Below(a, b - 1); }
    if b <= a { Pow2AtMost(b, a); }
  }

  lemma {:induction false} Pow2AtMost(a: nat, b: nat)
    requires a <= b
    ensures Pow2(a) <= Pow2(b)
    decreases b
  {
    if a < b { Pow2AtMost(a, b - 1); }
  }

  /** The least power of two that is at least x and 32. */
  ghost predicate RoundedUp(x: nat, a: nat) {
    && IsPower(a) && 32 <= a && x <= a
    && forall k: nat :: 32 <= Pow2(k) && x <= Pow2(k) ==> a <= Pow2(k)
  }

  /** a <<= 1 on a 64-bit size. */
  function Shift(a: nat): nat { 2 * a % WORD64 }

  /**
   Lines 4896-4902. The loop ends for every alignment up to 2^63; ShiftsStayBelow shows that it
   does not end for larger ones that are not themselves powers of two.
   */
  method RoundUp(alignment: nat) returns (a: nat)
    requires alignment <= HALF64
    ensures RoundedUp(alignment, a) && a <= HALF64
  {
    hide And, Pow2;
    a := if alignment < 32 then 32 else alignment;
    PowerTest(a);
    if And(a, a - 1) != 0 {
      a := FirstPower(a);
    }
  }

  /** Shifting 32 up to the first power of two that is large enough. */
  method FirstPower(least: nat) returns (a: nat)
    requires 32 <= least <= HALF64
    ensures IsPower(a) && least <= a <= HALF64 && forall k: nat :: least <= Pow2(k) ==> a <= Pow2(k)
  {
    hide Pow2;
    a := 32;
    ghost var k := 5;
    PowerFive();
    HalfIsPower();
    while a < least
      invariant 5 <= k <= 63 && a == Pow2(k) && (k == 5 || Pow2(k - 1) < least)
      decreases 63 - k
    {
      Pow2Below(k, 63);
      Pow2Step(k);
      Pow2AtMost(k + 1, 63);
      a := Shift(a);
      k := k + 1;
    }
    Pow2AtMost(k, 63);
    forall j: nat | least <= Pow2(j)
      ensures a <= Pow2(j)
    {
      if k > 5 { Pow2Below(k - 1, j); Pow2AtMost(k, j); }
    }
  }

  lemma PowerFive()
    ensures Pow2(5) == 32
  {}

  lemma HalfIsPower()
    ensures Pow2(63) == HALF64
  {
    BI.SizeLimit();
  }

  function Shifts(a: nat, k: nat): nat {
    if k == 0 then a else Shift(Shifts(a, k - 1))
  }

  /** Above 2^63 no number of shifts reaches the alignment: the loop never ends. */
  lemma {:induction false} ShiftsStayBelow(alignment: nat, k: nat)
    requires HALF64 < alignment < WORD64
    ensures Shifts(32, k) <= HALF64 < alignment
  {
    hide Pow2, Shifts;
    HalfIsPower();
    ShiftsArePowers(k);
    if 5 + k <= 63 { Pow2AtMost(5 + k, 63); }
  }

  lemma {:induction false} ShiftsArePowers(k: nat)
    ensures Shifts(32, k) == if 5 + k <= 63 then Pow2(5 + k) else 0
  {
    hide Pow2;
    HalfIsPower();
    if k == 0 {
      PowerFive();
    } else {
      ShiftsArePowers(k - 1);
      Pow2Step(4 + k);
      if 5 + k <= 63 { Pow2AtMost(5 + k, 63); }
    }
  }

  // ----- the masks on a 64-bit size -----

  lemma AndMaskOf(x: nat, a: nat)
    requires IsPower(a)
    ensures a > 0 && And(x, a - 1) == x % a
  {
    var k: nat :| a == Pow2(k);
    AndMask(x, k);
  }

  lemma AndHighOf(x: nat, a: nat)
    requires IsPower(a) && a <= HALF64 && x < WORD64
    ensures a > 0 && And(x, WORD64 - a) == x - x % a
  {
    hide Pow2;
    var k: nat :| a == Pow2(k);
    HalfIsPower();
    BI.SizeLimit();
    if k > 64 { Pow2Below(64, k); }
    AndHigh(x, k, 64);
  }

  lemma PowerAligned(a: nat)
    requires IsPower(a) && a >= 32
    ensures a % 16 == 0
  {
    assert Pow2(4) == 16;
    hide Pow2;
    var k: nat :| a == Pow2(k);
    if k < 4 { Pow2AtMost(k, 4); }
    Pow2Add(k - 4, 4);
  }

  lemma RoundDown(x: nat, a: nat)
    requires a > 0
    ensures x - x % a == x / a * a && x < x / a * a + a && x / a * a % a == 0
  {
    ModOf(x / a * a, a, x / a, 0);
  }

  /** The multiple of a that masking x finds. */
  lemma Masked(x: nat, a: nat) returns (y: nat)
    requires IsPower(a) && 32 <= a <= HALF64 && x < WORD64
    ensures y == And(x, WORD64 - a) && y <= x < y + a
    ensures IsMultiple(y, a) && IsMultiple(y + a, a) && y % 16 == 0 && a % 16 == 0
  {
    AndHighOf(x, a);
    RoundDown(x, a);
    y := x / a * a;
    PowerAligned(a);
    Sixteenths(a, x / a);
    NextMultiple(a, x / a);
  }

  lemma NextMultiple(a: nat, q: nat)
    requires a > 0
    ensures (q * a + a) % a == 0
  {
    ModOf(q * a + a, a, q + 1, 0);
  }

  lemma Sixteenths(a: nat, q: nat)
    requires a % 16 == 0
    ensures q * a % 16 == 0
  {
    var m := a / 16;
    assert q * a == 16 * (q * m);
  }
}
