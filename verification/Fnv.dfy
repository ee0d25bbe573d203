/**
 The 128-bit hash of code segments, computed on four 64-bit limbs of which the top one is never masked
 (src/digest.hpp:41-95, 109-120).
 */
module Fnv {
  import opened Words
  import AL = Alignment

  const PRIME: nat := 0x13B
  const B24: nat := 0x100_0000
  const B32: nat := 0x1_0000_0000
  const B64: nat := 0x1_0000_0000_0000_0000
  const B88: nat := 0x100_0000_0000_0000_0000_0000
  const B96: nat := 0x1_0000_0000_0000_0000_0000_0000
  const B128: nat := 0x1_0000_0000_0000_0000_0000_0000_0000_0000

  function Xor(a: nat, b: nat): nat
    decreases a + b
  {
    if a == 0 then b else if b == 0 then a
    else 2 * Xor(a / 2, b / 2) + (if a % 2 != b % 2 then 1 else 0)
  }

  lemma XorSteps(a: nat, b: nat)
    ensures Xor(a, b) == 2 * Xor(a / 2, b / 2) + (if a % 2 != b % 2 then 1 else 0)
  {}

  /** Fields that do not overlap are combined one by one. */
  lemma {:induction false} XorSplit(a: nat, b: nat, c: nat, d: nat, k: nat)
    requires c < Pow2(k) && d < Pow2(k)
    ensures Xor(c, d) < Pow2(k) && Xor(a * Pow2(k) + c, b * Pow2(k) + d) == Xor(a, b) * Pow2(k) + Xor(c, d)
    decreases k
  {
    hide Xor;
    if k == 0 {
      XorZero(0);
    } else {
      var p := Pow2(k - 1);
      XorSplit(a, b, c / 2, d / 2, k - 1);
      Halves(a, c, k);
      Halves(b, d, k);
      XorSteps(c, d);
      var x, y := a * Pow2(k) + c, b * Pow2(k) + d;
      XorSteps(x, y);
      var z := Xor(a, b) * p;
      assert Xor(x / 2, y / 2) == z + Xor(c / 2, d / 2);
      assert Xor(a, b) * Pow2(k) == 2 * z;
    }
  }

  lemma Halves(a: nat, c: nat, k: nat)
    requires k > 0
    ensures (a * Pow2(k) + c) / 2 == a * Pow2(k - 1) + c / 2 && (a * Pow2(k) + c) % 2 == c % 2
  {
    assert a * Pow2(k) == 2 * (a * Pow2(k - 1));
  }

  lemma PowerB32()
    ensures Pow2(32) == B32
  {
    assert Pow2(8) == 0x100;
    Pow2Add(8, 8);
    Pow2Add(16, 16);
  }

  // ----- limbs -----

  datatype Limbs = Limbs(t0: nat, t1: nat, t2: nat, t3: nat)

  /** Limbs 1 to 3 hold 32 bits; limb 0 is a 64-bit word of which only the low half counts. */
  predicate Masked(t: Limbs) { t.t0 < B64 && t.t1 < B32 && t.t2 < B32 && t.t3 < B32 }

  function Value(t: Limbs): nat { (t.t0 % B32) * B96 + t.t1 * B64 + t.t2 * B32 + t.t3 }

  /** A char is signed: from 0x80 on it is extended with ones. */
  function Extend(b: nat): nat
    requires b < 0x100
  {
    if b < 0x80 then b else B64 - 0x100 + b
  }

  /** round, with every operation modulo 2^64. */
  function Round(t: Limbs, b: nat): Limbs
    requires b < 0x100
  {
    var s0, s1 := t.t2 * B24 % B64, t.t3 * B24 % B64;
    var m3 := Xor(t.t3, Extend(b)) * PRIME % B64;
    var m2, m1, m0 := t.t2 * PRIME % B64, t.t1 * PRIME % B64, t.t0 * PRIME % B64;
    var n1, n0 := (m1 + s1) % B64, (m0 + s0) % B64;
    var n2 := (m2 + m3 / B32) % B64;
    var p1 := (n1 + n2 / B32) % B64;
    Limbs((n0 + p1 / B32) % B64, p1 % B32, n2 % B32, m3 % B32)
  }

  /** What the multiplied low limb is: for a char below 0x80 its product, otherwise the product wrapped once. */
  lemma LowLimb(t3: nat, b: nat)
    requires t3 < B32 && b < 0x100
    ensures b < 0x80 ==> Xor(t3, b) < B32 && Xor(t3, Extend(b)) * PRIME % B64 == Xor(t3, b) * PRIME
    ensures b >= 0x80 ==>
              && Xor(t3, B32 - 0x100 + b) < B32
              && Xor(t3, Extend(b)) * PRIME % B64 == Xor(t3, B32 - 0x100 + b) * PRIME - PRIME * B32 + B64
  {
    hide Xor, Pow2;
    PowerB32();
    if b < 0x80 {
      XorSplit(0, 0, t3, b, 32);
    } else {
      var c := B32 - 0x100 + b;
      XorSplit(0, B32 - 1, t3, c, 32);
      XorZero(B32 - 1);
      assert Extend(b) == (B32 - 1) * B32 + c;
      var y := Xor(t3, c);
      AL.ModOf(((B32 - 1) * B32 + y) * PRIME, B64, PRIME - 1, y * PRIME - PRIME * B32 + B64);
    }
  }

  lemma XorZero(x: nat)
    ensures Xor(0, x) == x && Xor(x, 0) == x
  {}

  /**
   No limb below the top overflows: the sums that go into limbs 1 and 2 stay below 2^64, so the round is
   exact there.
   */
  lemma RoundExact(t: Limbs, b: nat, m3: nat)
    requires Masked(t) && b < 0x100 && m3 == Xor(t.t3, Extend(b)) * PRIME % B64
    ensures var r := Round(t, b);
            var n2 := t.t2 * PRIME + m3 / B32;
            var p1 := t.t1 * PRIME + t.t3 * B24 + n2 / B32;
            && Masked(r) && m3 < B64 && n2 < B64 && p1 < B64
            && r.t3 == m3 % B32 && r.t2 == n2 % B32 && r.t1 == p1 % B32
            && exists q: nat :: PRIME * (t.t0 * B96 + t.t1 * B64 + t.t2 * B32) + m3 + B88 * (t.t2 * B32 + t.t3)
                                == Value(r) + q * B128
  {
    hide Xor, Round, Value;
    var n2 := t.t2 * PRIME + m3 / B32;
    var p1 := t.t1 * PRIME + t.t3 * B24 + n2 / B32;
    var full := t.t0 * PRIME + t.t2 * B24 + p1 / B32;
    RoundLimbs(t, b, m3, n2, p1);
    Assembled(t, m3, n2, p1, full, Round(t, b));
  }

  lemma RoundLimbs(t: Limbs, b: nat, m3: nat, n2: nat, p1: nat)
    requires Masked(t) && b < 0x100 && m3 == Xor(t.t3, Extend(b)) * PRIME % B64
    requires n2 == t.t2 * PRIME + m3 / B32 && p1 == t.t1 * PRIME + t.t3 * B24 + n2 / B32
    ensures var r := Round(t, b);
            && Masked(r) && m3 < B64 && n2 < B64 && p1 < B64 && r.t3 == m3 % B32 && r.t2 == n2 % B32 && r.t1 == p1 % B32
            && r.t0 % B32 == (t.t0 * PRIME + t.t2 * B24 + p1 / B32) % B32
  {
    hide Xor;
    Small(t.t2 * PRIME);
    Small(t.t1 * PRIME);
    Small(t.t2 * B24);
    Small(t.t3 * B24);
    Small(n2);
    Small(t.t1 * PRIME + t.t3 * B24);
    Small(p1);
    TopLimb(t.t0 * PRIME, t.t2 * B24, p1 / B32);
  }

  /** The carries put the limbs together. */
  lemma Assembled(t: Limbs, m3: nat, n2: nat, p1: nat, full: nat, r: Limbs)
    requires n2 == t.t2 * PRIME + m3 / B32 && p1 == t.t1 * PRIME + t.t3 * B24 + n2 / B32
    requires full == t.t0 * PRIME + t.t2 * B24 + p1 / B32
    requires r.t3 == m3 % B32 && r.t2 == n2 % B32 && r.t1 == p1 % B32 && r.t0 % B32 == full % B32
    ensures PRIME * (t.t0 * B96 + t.t1 * B64 + t.t2 * B32) + m3 + B88 * (t.t2 * B32 + t.t3) == Value(r)
            + full / B32 * B128
  {
    Split(m3);
    Split(n2);
    Split(p1);
    Split(full);
  }

  lemma Split(x: nat)
    ensures x == x / B32 * B32 + x % B32
  {}

  lemma Small(x: nat)
    requires x < B64
    ensures x % B64 == x
  {}

  /** The top limb wraps at 2^64 three times, which its low half does not notice. */
  lemma TopLimb(a: nat, s: nat, c: nat)
    requires s < B64
    ensures (((a % B64) + s) % B64 + c) % B64 % B32 == (a + s + c) % B32
  {
    var q1 := a / B64;
    var q2 := (a % B64 + s) / B64;
    var v := (a % B64 + s) % B64 + c;
    var q3 := v / B64;
    assert a + s + c == v % B64 + B32 * (B32 * (q1 + q2 + q3));
    var w := v % B64;
    AL.ModOf(a + s + c, B32, w / B32 + B32 * (q1 + q2 + q3), w % B32);
  }

  // ----- the recurrence -----

  /** One byte: the prime is 2^88 + 0x13B, but the shifted term uses the hash before the byte was mixed in. */
  function Mix(h: nat, b: nat): nat
    requires b < 0x100
  {
    var wrap := 0x1_0000_0000_0000_0000_0000_0000_0000_0000;
    if b < 0x80 then (0x13B * Xor(h, b) + 0x100_0000_0000_0000_0000_0000 * h) % wrap
    else
      (0x13B * Xor(h, 0xFFFF_FF00 + b) + 0x1_0000_0000_0000_0000 + 0x100_0000_0000_0000_0000_0000 * h
       + (wrap - 0x13B_0000_0000)) % wrap
  }

  /** A byte changes only the low limb of the value. */
  lemma XorValue(t: Limbs, x: nat)
    requires Masked(t) && x < B32
    ensures Xor(Value(t), x) == Value(t) - t.t3 + Xor(t.t3, x) && Xor(t.t3, x) < B32
  {
    hide Xor, Pow2;
    PowerB32();
    var hi := (t.t0 % B32) * B64 + t.t1 * B32 + t.t2;
    assert Value(t) == hi * B32 + t.t3;
    XorSplit(hi, 0, t.t3, x, 32);
    XorZero(hi);
  }

  /** The limbs compute the recurrence, and stay masked. */
  lemma RoundMixes(t: Limbs, b: nat)
    requires Masked(t) && b < 0x100
    ensures Masked(Round(t, b)) && Value(Round(t, b)) == Mix(Value(t), b)
  {
    hide Xor, Round, Value;
    var m3 := Xor(t.t3, Extend(b)) * PRIME % B64;
    LowLimb(t.t3, b);
    RoundExact(t, b, m3);
    var r := Round(t, b);
    var q: nat :| PRIME * (t.t0 * B96 + t.t1 * B64 + t.t2 * B32) + m3 + B88 * (t.t2 * B32 + t.t3) == Value(r)
      + q * B128;
    var x := if b < 0x80 then b else B32 - 0x100 + b;
    XorValue(t, x);
    var lost := Expanded(t, Xor(t.t3, x));
    var e := PRIME * Xor(Value(t), x) + B88 * Value(t);
    ValueBound(r);
    if b < 0x80 {
      Modulo(e, q - lost, Value(r));
    } else {
      Modulo(e + B64 + (B128 - PRIME * B32), q - lost + 1, Value(r));
    }
  }

  /** The products of the limbs, but for what leaves the top. */
  lemma Expanded(t: Limbs, x: nat) returns (lost: int)
    ensures PRIME * (Value(t) - t.t3 + x) + B88 * Value(t)
            == PRIME * (t.t0 * B96 + t.t1 * B64 + t.t2 * B32) + PRIME * x + B88 * (t.t2 * B32 + t.t3) - lost * B128
  {
    Split(t.t0);
    lost := PRIME * (t.t0 / B32) - B24 * t.t1 - B24 * B32 * (t.t0 % B32);
  }

  lemma ValueBound(t: Limbs)
    requires Masked(t)
    ensures Value(t) < B128
  {}

  lemma Modulo(e: nat, q: int, v: nat)
    requires e == v + q * B128 && v < B128
    ensures e % B128 == v
  {
    assert q >= 0;
    AL.ModOf(e, B128, q, v);
  }

  function MixAll(h: nat, s: seq<nat>): nat
    requires forall i :: 0 <= i < |s| ==> s[i] < 0x100
  {
    if s == [] then h else Mix(MixAll(h, s[..|s| - 1]), s[|s| - 1])
  }

  /** The code: a state of four 32-bit words and the loop over a block. */
  class Fnv128 {
    var hash: seq<nat>

    ghost predicate Valid()
      reads this
    {
      |hash| == 4 && forall i :: 0 <= i < 4 ==> hash[i] < B32
    }

    ghost function H(): nat
      requires Valid()
      reads this
    {
      Value(Limbs(hash[0], hash[1], hash[2], hash[3]))
    }

    constructor ()
      ensures Valid() && H() == 0x6C62272E_07BB0142_62B82175_6295C58D
    {
      hash := [0x6C62272E, 0x07BB0142, 0x62B82175, 0x6295C58D];
    }

    /** block_in: the words are widened, the bytes mixed in, the words truncated again. */
    method BlockIn(s: seq<nat>)
      requires Valid() && forall i :: 0 <= i < |s| ==> s[i] < 0x100
      modifies this
      ensures Valid() && H() == MixAll(old(H()), s)
    {
      hide Round, Mix, Value, Masked;
      Widened(hash[0], hash[1], hash[2], hash[3]);
      var t := Limbs(hash[0], hash[1], hash[2], hash[3]);
      for i := 0 to |s|
        invariant Masked(t) && Value(t) == MixAll(old(H()), s[..i])
      {
        RoundMixes(t, s[i]);
        t := Round(t, s[i]);
        assert s[..i + 1][..i] == s[..i];
      }
      assert s[..|s|] == s;
      Truncated(t);
      hash := [t.t0 % B32, t.t1, t.t2, t.t3];
    }
  }

  lemma Widened(a: nat, b: nat, c: nat, d: nat)
    requires a < B32 && b < B32 && c < B32 && d < B32
    ensures Masked(Limbs(a, b, c, d))
  {}

  /** Storing the limbs as 32-bit words loses only what did not count. */
  lemma Truncated(t: Limbs)
    requires Masked(t)
    ensures t.t1 < B32 && t.t2 < B32 && t.t3 < B32 && Value(Limbs(t.t0 % B32, t.t1, t.t2, t.t3)) == Value(t)
  {}

  /** Hashing a block in pieces is hashing it whole, although each piece truncates the top limb. */
  lemma {:induction false} InPieces(h: nat, a: seq<nat>, b: seq<nat>)
    requires (forall i :: 0 <= i < |a| ==> a[i] < 0x100) && forall i :: 0 <= i < |b| ==> b[i] < 0x100
    ensures forall i :: 0 <= i < |a + b| ==> (a + b)[i] < 0x100
    ensures MixAll(h, a + b) == MixAll(MixAll(h, a), b)
    decreases |b|
  {
    hide Mix;
    if b == [] {
      assert a + b == a;
    } else {
      var n := |b| - 1;
      InPieces(h, a, b[..n]);
      assert (a + b)[..|a + b| - 1] == a + b[..n];
    }
  }

  /** It is the step of FNV-1a, (h xor b) times the prime, only for a zero byte. */
  lemma IsFnv1aOnlyForZero(h: nat, b: nat)
    requires h < B128 && b < 0x100
    ensures Mix(h, b) == (PRIME + B88) * Xor(h, b) % B128 <==> b == 0
  {
    hide Xor;
    LowXor(h, b);
    if b < 0x80 {
      SmallChange(h, Xor(h, b), Xor(h % B32, b) - h % B32);
    } else {
      LowXor(h, B32 - 0x100 + b);
      SignChange(h, Xor(h, b), Xor(h, B32 - 0x100 + b));
    }
  }

  /** A value below 2^32 changes only the low half, and only if it is not zero. */
  lemma LowXor(h: nat, b: nat)
    requires b < B32
    ensures Xor(h, b) == h - h % B32 + Xor(h % B32, b) && Xor(h % B32, b) < B32
    ensures Xor(h % B32, b) == h % B32 <==> b == 0
  {
    hide Xor, Pow2;
    PowerB32();
    var hi, lo := h / B32, h % B32;
    XorSplit(hi, 0, lo, b, 32);
    XorZero(hi);
    XorZero(lo);
    XorDiffers(lo, b);
  }

  /** Ones in the upper half of a sign-extended byte show up in the low 64 bits of the result. */
  lemma SignChange(h: nat, x: nat, y: nat)
    requires y - x < B32 && x - y < B32
    ensures (PRIME * y + B64 + B88 * h + (B128 - PRIME * B32)) % B128 != (PRIME + B88) * x % B128
  {
    var e1, e2 := PRIME * y + B64 + B88 * h + (B128 - PRIME * B32), (PRIME + B88) * x;
    if e1 % B128 == e2 % B128 {
      var q := EqualRemainders(e1, e2);
      NotMultiple(PRIME * (y - x - B32), B64 * q - 1 - B24 * h - B64 + B24 * x);
    }
  }

  lemma EqualRemainders(e1: nat, e2: nat) returns (q: int)
    requires e1 % B128 == e2 % B128
    ensures e1 - e2 == B128 * q
  {
    q := e1 / B128 - e2 / B128;
  }

  lemma NotMultiple(low: int, high: int)
    requires low < 0 < low + B64
    ensures low != B64 * high
  {}

  lemma SmallChange(h: nat, x: nat, d: int)
    requires x == h + d && d < B32 && -d < B32
    ensures (PRIME * x + B88 * h) % B128 == (PRIME + B88) * x % B128 <==> d == 0
  {
    var e1, e2 := PRIME * x + B88 * h, (PRIME + B88) * x;
    assert e2 - e1 == B88 * d;
    Congruent(e1, e2, d);
  }

  const B40: nat := 0x100_0000_0000

  lemma Congruent(e1: nat, e2: nat, d: int)
    requires e2 - e1 == B88 * d
    ensures e1 % B128 == e2 % B128 ==> d % B40 == 0
  {
    if e1 % B128 == e2 % B128 {
      var q := e2 / B128 - e1 / B128;
      assert B88 * d == B128 * q;
      assert d == B40 * q;
    }
  }

  lemma {:induction false} XorDiffers(a: nat, b: nat)
    ensures b != 0 ==> Xor(a, b) != a
  {
    if a != 0 && b != 0 {
      XorSteps(a, b);
      XorDiffers(a / 2, b / 2);
    }
  }
}
