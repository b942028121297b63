/** The three Bloom summaries of vertex ids.  An array of 64-bit words is modelled as the set of
    its one bits, bit `b` of word `w` being number `64 * w + b`; the hashes keep the 64-bit
    wrap-around of the original. */
module Blooms {
  import opened GraphIds

  type Bits = set<nat>

  /** Exclusive or, bit by bit. */
  function Xor(a: nat, b: nat): nat {
    if a == 0 then b
    else if b == 0 then a
    else (a % 2 + b % 2) % 2 + 2 * Xor(a / 2, b / 2)
  }

  /** Bit `i` of a number. */
  function Bit(n: nat, i: nat): nat {
    if i == 0 then n % 2 else Bit(n / 2, i - 1)
  }

  /** A bit of the exclusive or is set when it is set in exactly one of the two. */
  lemma {:induction false} XorBit(a: nat, b: nat, i: nat)
    ensures Bit(Xor(a, b), i) == if Bit(a, i) == Bit(b, i) then 0 else 1
    decreases i
  {
    hide Xor;
    BitRange(a, i);
    BitRange(b, i);
    XorHalves(a, b);
    if i > 0 {
      XorBit(a / 2, b / 2, i - 1);
    }
  }

  lemma {:induction false} XorHalves(a: nat, b: nat)
    ensures Xor(a, b) % 2 == (a % 2 + b % 2) % 2
    ensures Xor(a, b) / 2 == Xor(a / 2, b / 2)
  {
    hide Xor;
    XorCases(a, b);
    XorCases(a / 2, b / 2);
    if a != 0 && b != 0 {
      HalfOf((a % 2 + b % 2) % 2, Xor(a / 2, b / 2));
    }
  }

  lemma {:induction false} XorCases(a: nat, b: nat)
    ensures a == 0 ==> Xor(a, b) == b
    ensures b == 0 ==> Xor(a, b) == a
    ensures a != 0 && b != 0 ==> Xor(a, b) == (a % 2 + b % 2) % 2 + 2 * Xor(a / 2, b / 2)
  {
  }

  lemma HalfOf(low: nat, high: nat)
    requires low < 2
    ensures (low + 2 * high) / 2 == high && (low + 2 * high) % 2 == low
  {
  }

  lemma {:induction false} BitRange(n: nat, i: nat)
    ensures 0 <= Bit(n, i) <= 1
  {
    if i > 0 {
      BitRange(n / 2, i - 1);
    }
  }

  function VertexMix(v: GraphId): nat {
    var h := Unsigned(v);
    var m1 := Xor(h, h / 0x2_0000_0000);
    var m2 := m1 * 0xff51afd7ed558ccd % TWO_64;
    var m3 := Xor(m2, m2 / 0x2_0000_0000);
    var m4 := m3 * 0xc4ceb9fe1a85ec53 % TWO_64;
    Xor(m4, m4 / 0x2_0000_0000)
  }

  /** The three bits of one 64-bit word. */
  function VertexBits(v: GraphId): Bits {
    var m := VertexMix(v);
    {m % 64, m / 0x40 % 64, m / 0x1000 % 64}
  }

  /** The three bits over four words. */
  function WideVertexBits(v: GraphId): Bits {
    var m := VertexMix(v);
    {m % 4 * 64 + m / 0x4 % 64,
     m / 0x100 % 4 * 64 + m / 0x400 % 64,
     m / 0x1_0000 % 4 * 64 + m / 0x4_0000 % 64}
  }

  /** Rounds `i` to 5 of the value-posting hash over eight words. */
  function ValueRounds(hash: nat, i: nat): (bits: Bits)
    ensures i < 6 ==> bits != {}
    decreases 6 - i
  {
    if i >= 6 then {} else
      var m0 := (hash + 0x9e3779b97f4a7c15 * (i + 1)) % TWO_64;
      var m1 := Xor(m0, m0 / 0x4000_0000) * 0xbf58476d1ce4e5b9 % TWO_64;
      var m2 := Xor(m1, m1 / 0x800_0000) * 0x94d049bb133111eb % TWO_64;
      var m3 := Xor(m2, m2 / 0x8000_0000);
      {m3 % 8 * 64 + m3 / 0x100 % 64} + ValueRounds(m3, i + 1)
  }

  function ValuePostingBits(v: GraphId): Bits {
    ValueRounds(Xor(Unsigned(v), 0x7a6f4d2c9e3779b9), 0)
  }

  /** No bits at all means "no summary", which matches everything. */
  predicate MayContain(bloom: Bits, bits: Bits) {
    bloom == {} || bits <= bloom
  }

  predicate MayIntersect(left: Bits, right: Bits) {
    left * right != {} || left == {} || right == {}
  }

  /** What pruning rests on: every id sets at least one bit in each summary. */
  lemma BitsNonEmpty(v: GraphId)
    ensures VertexBits(v) != {} && WideVertexBits(v) != {} && ValuePostingBits(v) != {}
  {
    var m := VertexMix(v);
    assert m % 64 in VertexBits(v);
    assert m % 4 * 64 + m / 0x4 % 64 in WideVertexBits(v);
  }
}
