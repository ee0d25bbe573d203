/**
 Machine words as naturals: powers of two, the bits above a level, and the bitwise
 operators by halving. Everything about bins and tries is stated with these.
 */
module Words {

  function Pow2(n: nat): (p: nat)
    ensures p >= 1
  {
    if n == 0 then 1 else 2 * Pow2(n - 1)
  }

  lemma Pow2Step(n: nat)
    ensures Pow2(n + 1) == 2 * Pow2(n)
  {}

  lemma {:induction false} Pow2Add(a: nat, b: nat)
    ensures Pow2(a + b) == Pow2(a) * Pow2(b)
  {
    if a > 0 {
      Pow2Add(a - 1, b);
      assert Pow2(a + b) == 2 * Pow2(a - 1 + b);
      assert 2 * (Pow2(a - 1) * Pow2(b)) == (2 * Pow2(a - 1)) * Pow2(b);
    }
  }

  /** The value of s without its w low bits, that is s >> w. */
  function Hi(s: nat, w: nat): nat {
    if w == 0 then s else Hi(s / 2, w - 1)
  }

  lemma {:induction false} HiStep(s: nat, w: nat)
    ensures Hi(s, w + 1) == Hi(s, w) / 2
  {
    if w > 0 { HiStep(s / 2, w - 1); }
  }

  lemma {:induction false} HiMonotone(a: nat, b: nat, w: nat)
    requires a <= b
    ensures Hi(a, w) <= Hi(b, w)
  {
    if w > 0 { HiMonotone(a / 2, b / 2, w - 1); }
  }

  /** Words that agree above a level agree above every higher level. */
  lemma {:induction false} HiAgreeUp(a: nat, b: nat, w: nat, v: nat)
    requires w <= v && Hi(a, w) == Hi(b, w)
    ensures Hi(a, v) == Hi(b, v)
    decreases v - w
  {
    if w < v {
      HiStep(a, w);
      HiStep(b, w);
      HiAgreeUp(a, b, w + 1, v);
    }
  }

  /** Words ordered above some level are ordered above every lower level, and as numbers. */
  lemma {:induction false} HiOrderDown(a: nat, b: nat, v: nat, w: nat)
    requires v <= w && Hi(a, w) < Hi(b, w)
    ensures Hi(a, v) < Hi(b, v) && a < b
  {
    if Hi(b, v) <= Hi(a, v) {
      HiOfHi(a, v, w - v);
      HiOfHi(b, v, w - v);
      HiMonotone(Hi(b, v), Hi(a, v), w - v);
    }
    if b <= a { HiMonotone(b, a, w); }
  }

  lemma {:induction false} HiOfHi(a: nat, v: nat, w: nat)
    ensures Hi(Hi(a, v), w) == Hi(a, v + w)
  {
    if v > 0 { HiOfHi(a / 2, v - 1, w); }
  }

  lemma {:induction false} HiBelow(s: nat, w: nat, n: nat)
    requires w <= n && s < Pow2(n)
    ensures Hi(s, w) < Pow2(n - w)
  {
    if w > 0 { HiBelow(s / 2, w - 1, n - 1); }
  }

  // ----- bits -----

  predicate BitAt(m: nat, i: nat) { Hi(m, i) % 2 == 1 }

  function And(a: nat, b: nat): nat {
    if a == 0 || b == 0 then 0 else 2 * And(a / 2, b / 2) + (a % 2) * (b % 2)
  }

  function Or(a: nat, b: nat): nat
    decreases a + b
  {
    if a == 0 then b else if b == 0 then a
    else 2 * Or(a / 2, b / 2) + (if a % 2 == 1 || b % 2 == 1 then 1 else 0)
  }

  lemma {:induction false} HiZero(i: nat)
    ensures Hi(0, i) == 0
  {
    if i > 0 { HiZero(i - 1); }
  }

  lemma {:induction false} AndBits(a: nat, b: nat, i: nat)
    ensures BitAt(And(a, b), i) <==> BitAt(a, i) && BitAt(b, i)
  {
    HiZero(i);
    if a != 0 && b != 0 && i > 0 {
      AndBits(a / 2, b / 2, i - 1);
      assert And(a, b) / 2 == And(a / 2, b / 2) by { AndHalf(a, b); }
    } else if a != 0 && b != 0 {
      AndHalf(a, b);
    }
  }

  lemma AndHalf(a: nat, b: nat)
    requires a != 0 && b != 0
    ensures And(a, b) / 2 == And(a / 2, b / 2)
    ensures And(a, b) % 2 == (if a % 2 == 1 && b % 2 == 1 then 1 else 0)
  {
    assert (a % 2) * (b % 2) == if a % 2 == 1 && b % 2 == 1 then 1 else 0;
  }

  lemma {:induction false} OrBits(a: nat, b: nat, i: nat)
    ensures BitAt(Or(a, b), i) <==> BitAt(a, i) || BitAt(b, i)
  {
    HiZero(i);
    if a != 0 && b != 0 && i > 0 {
      OrBits(a / 2, b / 2, i - 1);
    }
  }

  lemma {:induction false} PowerBits(k: nat, i: nat)
    ensures BitAt(Pow2(k), i) <==> i == k
  {
    if k == 0 {
      if i > 0 { HiZero(i - 1); }
    } else if i > 0 {
      PowerBits(k - 1, i - 1);
    }
  }

  /** The n-bit complement. */
  lemma {:induction false} ComplementBits(x: nat, n: nat, i: nat)
    requires x < Pow2(n) && i < n
    ensures BitAt(Pow2(n) - 1 - x, i) <==> !BitAt(x, i)
  {
    if i > 0 {
      ComplementBits(x / 2, n - 1, i - 1);
      assert (Pow2(n) - 1 - x) / 2 == Pow2(n - 1) - 1 - x / 2;
    }
  }

  lemma {:induction false} BitsBeyond(x: nat, n: nat, i: nat)
    requires x < Pow2(n) && n <= i
    ensures !BitAt(x, i)
  {
    if n == 0 { HiZero(i); } else { BitsBeyond(x / 2, n - 1, i - 1); }
  }

  /** A non-zero word has a bit, and words with the same bits are equal. */
  lemma {:induction false} SameBits(a: nat, b: nat)
    requires forall i: nat :: BitAt(a, i) <==> BitAt(b, i)
    ensures a == b
    decreases a + b
  {
    assert BitAt(a, 0) <==> BitAt(b, 0);
    if a != b {
      forall i: nat
        ensures BitAt(a / 2, i) <==> BitAt(b / 2, i)
      {
        assert BitAt(a, i + 1) <==> BitAt(b, i + 1);
      }
      SameBits(a / 2, b / 2);
    }
  }
}
