/**
 The wire format of function tokens (src/global_fnptr.hpp:116-163): the top bit of a word tells the kinds
 apart, the 15 bits below it carry an index, a hash follows only where there is no index. A hash
 occupies three words, the size of its 20 bytes rounded up to its alignment.
 */
module TokenWire {
  import opened Words
  import opened Alignment
  import opened Segments
  import opened SegmentTable

  const MSB: nat := 0x8000_0000_0000_0000
  const LOW: nat := 0x1_0000_0000_0000
  const WORD: nat := 0x1_0000_0000_0000_0000
  const IDX_BITS: nat := MSB - LOW
  const LOWER_BITS: nat := LOW - 1

  /** What the assertions of serialize demand: offsets fit below the bits used for kind and index. */
  predicate Encodable(t: Token) {
    match t
    case Single(offset) => 0 <= offset < MSB
    case MultiIdx(offset, idx) => 0 <= offset < LOW && 0 < idx < 0x8000
    case Multi(offset, ident) => 0 <= offset < LOW && ident < WORD * WORD * 0x1_0000_0000
  }

  function HashWords(d: Ident): seq<nat> { [d % WORD, d / WORD % WORD, d / WORD / WORD] }

  function HashOf(a: nat, b: nat, c: nat): Ident { a + WORD * (b + WORD * c) }

  function Encode(t: Token): seq<nat>
    requires Encodable(t)
  {
    match t
    case Single(offset) => [offset]
    case MultiIdx(offset, idx) => [Or(Or(offset, idx * LOW), MSB)]
    case Multi(offset, ident) => [Or(offset, MSB)] + HashWords(ident)
  }

  datatype Decoded = Decoded(token: Token, rest: seq<nat>) | Short

  function Decode(s: seq<nat>): Decoded {
    if s == [] then Short
    else
      var w := s[0];
      if And(w, MSB) == 0 then Decoded(Single(w), s[1..])
      else
        var idx := And(w, IDX_BITS) / LOW;
        if idx > 0 then Decoded(MultiIdx(And(w, LOWER_BITS), idx), s[1..])
        else if |s| < 4 then Short
        else Decoded(Multi(And(w, LOWER_BITS), HashOf(s[1], s[2], s[3])), s[4..])
  }

  // ----- the bits -----

  lemma Powers()
    ensures LOW == Pow2(48) && MSB == Pow2(63) && WORD == Pow2(64)
  {
    HalfIsPower();
    BI.SizeLimit();
    assert Pow2(8) == 0x100;
    Pow2Add(8, 8);
    Pow2Add(16, 16);
    Pow2Add(16, 32);
  }

  /** Joining bits that do not overlap is addition. */
  lemma {:induction false} OrDisjoint(a: nat, b: nat, k: nat)
    requires a < Pow2(k)
    ensures Or(a, b * Pow2(k)) == a + b * Pow2(k)
    decreases k
  {
    if k == 0 {
      assert a == 0;
    } else {
      OrDisjoint(a / 2, b, k - 1);
      TwiceProduct(b, Pow2(k - 1));
      OrStep(a, b * Pow2(k));
    }
  }

  lemma TwiceProduct(b: nat, p: nat)
    ensures b * (2 * p) == 2 * (b * p) && (b * (2 * p)) / 2 == b * p && (b * (2 * p)) % 2 == 0
  {
    var c := b * p;
    assert b * (2 * p) == 2 * c;
  }

  lemma OrStep(a: nat, b: nat)
    ensures Or(a, b) == 2 * Or(a / 2, b / 2) + (if a % 2 == 1 || b % 2 == 1 then 1 else 0)
  {}

  lemma {:induction false} AndTrunc(x: nat, m: nat, n: nat)
    requires m < Pow2(n)
    ensures And(x, m) == And(x % Pow2(n), m)
    decreases n
  {
    if n > 0 {
      AndTrunc(x / 2, m / 2, n - 1);
      DoubleMod(x, Pow2(n - 1));
      var y := x % Pow2(n);
      assert y / 2 == (x / 2) % Pow2(n - 1) && y % 2 == x % 2;
      AndSteps(x, m);
      AndSteps(y, m);
    }
  }

  /** Testing the top bit of a word. */
  lemma {:induction false} TopBit(x: nat, n: nat)
    requires x < Pow2(n + 1)
    ensures And(x, Pow2(n)) == if x >= Pow2(n) then Pow2(n) else 0
    decreases n
  {
    AndSteps(x, Pow2(n));
    if n > 0 { TopBit(x / 2, n - 1); } else { assert And(x / 2, 0) == 0; }
  }

  /** What the three masks find in a word made of the three fields. */
  lemma Fields(offset: nat, idx: nat)
    requires offset < LOW && idx < 0x8000
    ensures Or(Or(offset, idx * LOW), MSB) == offset + idx * LOW + MSB
    ensures var w := offset + idx * LOW + MSB;
            And(w, MSB) != 0 && And(w, IDX_BITS) / LOW == idx && And(w, LOWER_BITS) == offset
  {
    hide Pow2, And, Or;
    Powers();
    OrDisjoint(offset, idx, 48);
    var low := offset + idx * LOW;
    assert low < MSB;
    OrDisjoint(low, 1, 63);
    var w := low + MSB;
    TopBit(w, 63);
    ModOf(w, MSB, 1, low);
    AndTrunc(w, IDX_BITS, 63);
    AndHigh(low, 48, 63);
    ModOf(low, LOW, idx, offset);
    ModOf(w, LOW, idx + 0x8000, offset);
    AndMask(w, 48);
    ModOf(idx * LOW, LOW, idx, 0);
  }

  lemma TopBitClear(w: nat)
    requires w < MSB
    ensures And(w, MSB) == 0
  {
    hide Pow2, And;
    Powers();
    TopBit(w, 63);
  }

  lemma HashRoundTrip(d: Ident)
    requires d < WORD * WORD * 0x1_0000_0000
    ensures |HashWords(d)| == 3 && HashOf(HashWords(d)[0], HashWords(d)[1], HashWords(d)[2]) == d
  {
    var q := d / WORD;
    assert d == WORD * q + d % WORD;
    assert q == WORD * (q / WORD) + q % WORD;
  }

  // ----- round trips -----

  /** Reading back what was written, whatever follows. */
  lemma RoundTrip(t: Token, rest: seq<nat>)
    requires Encodable(t)
    ensures Decode(Encode(t) + rest) == Decoded(t, rest)
  {
    hide And, Or, HashOf, HashWords;
    match t
    case Single(offset) =>
      TopBitClear(offset);
      assert ([offset] + rest)[1..] == rest;
    case MultiIdx(offset, idx) =>
      Fields(offset, idx);
      var w := offset + idx * LOW + MSB;
      assert ([w] + rest)[1..] == rest;
    case Multi(offset, ident) =>
      Fields(offset, 0);
      OrZero(offset);
      HashRoundTrip(ident);
      var h := HashWords(ident);
      var s := [Or(offset, MSB)] + h + rest;
      assert s[1] == h[0] && s[2] == h[1] && s[3] == h[2] && s[4..] == rest;
  }

  /**
   The words of each kind of token: an offset with the top bit clear; an offset, an index from bit 48 on and the top
   bit; an offset with the top bit, and the three words of the hash.
   */
  lemma Layout(t: Token)
    requires Encodable(t)
    ensures match t
            case Single(offset) => Encode(t) == [offset] && offset < 0x8000_0000_0000_0000
            case MultiIdx(offset, idx) => Encode(t) == [offset + idx * 0x1_0000_0000_0000 + 0x8000_0000_0000_0000]
            case Multi(offset, ident) =>
              && |Encode(t)| == 4 && Encode(t)[0] == offset + 0x8000_0000_0000_0000
              && (forall i :: 1 <= i < 4 ==> Encode(t)[i] < 0x1_0000_0000_0000_0000)
              && Encode(t)[1] + 0x1_0000_0000_0000_0000 * (Encode(t)[2] + 0x1_0000_0000_0000_0000 * Encode(t)[3]) ==
                ident
  {
    hide And, Or;
    match t
    case Single(_) =>
    case MultiIdx(offset, idx) => Fields(offset, idx);
    case Multi(offset, ident) =>
      Fields(offset, 0);
      OrZero(offset);
      HashRoundTrip(ident);
  }

  lemma OrZero(x: nat)
    ensures Or(x, 0 * LOW) == x
  {}

  function EncodeAll(ts: seq<Token>): seq<nat>
    requires forall i :: 0 <= i < |ts| ==> Encodable(ts[i])
  {
    if ts == [] then [] else Encode(ts[0]) + EncodeAll(ts[1..])
  }

  function DecodeMany(s: seq<nat>, n: nat): seq<Token> {
    if n == 0 then []
    else
      match Decode(s)
      case Short => []
      case Decoded(t, rest) => [t] + DecodeMany(rest, n - 1)
  }

  /** A stream of tokens of mixed kinds, and so of mixed widths, decodes to exactly those tokens. */
  lemma {:induction false} StreamRoundTrip(ts: seq<Token>)
    requires forall i :: 0 <= i < |ts| ==> Encodable(ts[i])
    ensures DecodeMany(EncodeAll(ts), |ts|) == ts
  {
    hide Encode, Decode, Encodable;
    if ts != [] {
      RoundTrip(ts[0], EncodeAll(ts[1..]));
      StreamRoundTrip(ts[1..]);
      assert ts == [ts[0]] + ts[1..];
    }
  }

  // ----- writer and reader -----

  class Writer {
    var words: seq<nat>

    constructor ()
      ensures words == []
    {
      words := [];
    }

    method WriteTrivial(w: nat)
      modifies this
      ensures words == old(words) + [w]
    {
      words := words + [w];
    }

    method Serialize(t: Token)
      requires Encodable(t)
      modifies this
      ensures words == old(words) + Encode(t)
    {
      hide Or;
      match t
      case Single(offset) => WriteTrivial(offset);
      case MultiIdx(offset, idx) => WriteTrivial(Or(Or(offset, idx * LOW), MSB));
      case Multi(offset, ident) =>
        WriteTrivial(Or(offset, MSB));
        var h := HashWords(ident);
        WriteTrivial(h[0]);
        WriteTrivial(h[1]);
        WriteTrivial(h[2]);
    }
  }

  class Reader {
    const words: seq<nat>
    var pos: nat

    constructor (s: seq<nat>)
      ensures words == s && pos == 0
    {
      words, pos := s, 0;
    }

    method ReadTrivial() returns (w: nat)
      requires pos < |words|
      modifies this
      ensures w == words[old(pos)] && pos == old(pos) + 1
    {
      w := words[pos];
      pos := pos + 1;
    }

    /** Reads the token in front and stops right after it. */
    method Deserialize() returns (t: Token)
      requires pos <= |words| && Decode(words[pos..]).Decoded?
      modifies this
      ensures pos <= |words| && Decode(old(words[pos..])) == Decoded(t, words[pos..])
    {
      hide And;
      ghost var s := words[pos..];
      var offset := ReadTrivial();
      if And(offset, MSB) == 0 {
        assert s[1..] == words[pos..];
        return Single(offset);
      }
      var idx := And(offset, IDX_BITS) / LOW;
      if idx > 0 {
        assert s[1..] == words[pos..];
        return MultiIdx(And(offset, LOWER_BITS), idx);
      }
      var a := ReadTrivial();
      var b := ReadTrivial();
      var c := ReadTrivial();
      assert s[4..] == words[pos..] && a == s[1] && b == s[2] && c == s[3];
      t := Multi(And(offset, LOWER_BITS), HashOf(a, b, c));
    }
  }
}
