/** 8-bit and 16-bit values as bounded integers, with the machine's wrap-around
    and bitwise operations written out. */
module Words {

  type byte = x: int | 0 <= x < 0x100
  type word = x: int | 0 <= x < 0x1_0000
  type int8 = x: int | -0x80 <= x < 0x80

  function Inc8(b: byte): byte {
    if b == 0xFF then 0 else b + 1
  }

  function Dec8(b: byte): byte {
    if b == 0 then 0xFF else b - 1
  }

  function Inc16(w: word): word {
    if w == 0xFFFF then 0 else w + 1
  }

  /** Sum of a 16-bit base and an unsigned or signed 8-bit displacement, mod 65536. */
  function Offset(base: word, delta: int): word
    requires -0x100 < delta < 0x100
  {
    if base + delta >= 0x1_0000 then base + delta - 0x1_0000
    else if base + delta < 0 then base + delta + 0x1_0000
    else base + delta
  }

  function Lo(w: word): byte { w % 0x100 }

  function Hi(w: word): byte { w / 0x100 }

  function Word(lo: byte, hi: byte): word { lo + 0x100 * hi }

  lemma HalvesOf(low: byte, high: byte)
    ensures Lo(Word(low, high)) == low && Hi(Word(low, high)) == high
  {
  }

  lemma WordOfHalves(w: word)
    ensures Word(Lo(w), Hi(w)) == w
  {
  }

  function Signed(b: byte): int8 {
    if b >= 0x80 then b - 0x100 else b
  }

  function Bit(flag: bool): byte {
    if flag then 1 else 0
  }

  function Negative(b: byte): bool { b >= 0x80 }

  function Not8(b: byte): byte { 0xFF - b }

  // ---------- bitwise operations, one bit at a time ----------

  function And(a: nat, b: nat): (r: nat)
    ensures r <= a && r <= b
  {
    if a == 0 || b == 0 then 0
    else 2 * And(a / 2, b / 2) + (if a % 2 == 1 && b % 2 == 1 then 1 else 0)
  }

  function Or(a: nat, b: nat): nat {
    if a == 0 then b
    else if b == 0 then a
    else 2 * Or(a / 2, b / 2) + (if a % 2 == 1 || b % 2 == 1 then 1 else 0)
  }

  function Xor(a: nat, b: nat): nat {
    if a == 0 then b
    else if b == 0 then a
    else 2 * Xor(a / 2, b / 2) + (if a % 2 != b % 2 then 1 else 0)
  }

  function Pow2(k: nat): (p: nat)
    ensures p > 0
  {
    if k == 0 then 1 else 2 * Pow2(k - 1)
  }

  lemma {:induction false} OrBound(a: nat, b: nat, k: nat)
    requires a < Pow2(k) && b < Pow2(k)
    ensures Or(a, b) < Pow2(k)
  {
    if a != 0 && b != 0 {
      OrBound(a / 2, b / 2, k - 1);
    }
  }

  lemma {:induction false} XorBound(a: nat, b: nat, k: nat)
    requires a < Pow2(k) && b < Pow2(k)
    ensures Xor(a, b) < Pow2(k)
  {
    if a != 0 && b != 0 {
      XorBound(a / 2, b / 2, k - 1);
    }
  }

  lemma Pow2Of8()
    ensures Pow2(8) == 0x100
  {
    assert Pow2(4) == 16;
  }

  function And8(a: byte, b: byte): byte { And(a, b) }

  function Or8(a: byte, b: byte): byte {
    Pow2Of8();
    OrBound(a, b, 8);
    Or(a, b)
  }

  function Xor8(a: byte, b: byte): byte {
    Pow2Of8();
    XorBound(a, b, 8);
    Xor(a, b)
  }

  // ---------- what they do to each bit ----------

  lemma LowBitFirst(n: nat, p: nat)
    requires p > 0
    ensures n / (2 * p) == n / 2 / p
  {
    var q, r := n / 2 / p, n / 2 % p;
    assert n / 2 == q * p + r;
    assert n == q * (2 * p) + (2 * r + n % 2);
    DivisionUnique(n, 2 * p, q, 2 * r + n % 2);
  }

  lemma DivisionUnique(n: nat, d: nat, q: nat, r: nat)
    requires d > 0 && n == q * d + r && r < d
    ensures n / d == q && n % d == r
  {
    var k := n / d - q;
    assert k * d == r - n % d;
    assert k >= 1 ==> k * d >= d;
    assert k <= -1 ==> k * d + d <= 0;
  }

  /** Bit `k`: the lowest bit of the k-fold half. */
  predicate BitSet(n: nat, k: nat) { n / Pow2(k) % 2 == 1 }

  lemma BitOfHalf(n: nat, k: nat)
    ensures BitSet(n, 0) <==> n % 2 == 1
    ensures BitSet(n, k + 1) <==> BitSet(n / 2, k)
  {
    LowBitFirst(n, Pow2(k));
  }

  lemma {:induction false} AndBits(a: nat, b: nat, k: nat)
    ensures BitSet(And(a, b), k) <==> BitSet(a, k) && BitSet(b, k)
  {
    hide BitSet;
    HalfOfAnd(a, b);
    var j := if k == 0 then 0 else k - 1;
    BitOfHalf(And(a, b), j);
    BitOfHalf(a, j);
    BitOfHalf(b, j);
    if k > 0 {
      AndBits(a / 2, b / 2, k - 1);
    }
  }

  lemma HalfOfAnd(a: nat, b: nat)
    ensures And(a, b) / 2 == And(a / 2, b / 2) && (And(a, b) % 2 == 1 <==> a % 2 == 1 && b % 2 == 1)
  {
  }

  lemma {:induction false} OrBits(a: nat, b: nat, k: nat)
    ensures BitSet(Or(a, b), k) <==> BitSet(a, k) || BitSet(b, k)
  {
    hide BitSet;
    HalfOfOr(a, b);
    var j := if k == 0 then 0 else k - 1;
    BitOfHalf(Or(a, b), j);
    BitOfHalf(a, j);
    BitOfHalf(b, j);
    if k > 0 {
      OrBits(a / 2, b / 2, k - 1);
    }
  }

  lemma HalfOfOr(a: nat, b: nat)
    ensures Or(a, b) / 2 == Or(a / 2, b / 2) && (Or(a, b) % 2 == 1 <==> a % 2 == 1 || b % 2 == 1)
  {
  }

  lemma {:induction false} XorBits(a: nat, b: nat, k: nat)
    ensures BitSet(Xor(a, b), k) <==> BitSet(a, k) != BitSet(b, k)
  {
    hide BitSet;
    HalfOfXor(a, b);
    var j := if k == 0 then 0 else k - 1;
    BitOfHalf(Xor(a, b), j);
    BitOfHalf(a, j);
    BitOfHalf(b, j);
    if k > 0 {
      XorBits(a / 2, b / 2, k - 1);
    }
  }

  lemma HalfOfXor(a: nat, b: nat)
    ensures Xor(a, b) / 2 == Xor(a / 2, b / 2) && (Xor(a, b) % 2 == 1 <==> a % 2 != b % 2)
  {
  }

  /** The complement has exactly the other bits. */
  lemma {:induction false} NotBits(b: nat, n: nat, k: nat)
    requires b < Pow2(n) && k < n
    ensures BitSet(Pow2(n) - 1 - b, k) <==> !BitSet(b, k)
  {
    hide BitSet;
    var c := Pow2(n) - 1 - b;
    assert c / 2 == Pow2(n - 1) - 1 - b / 2 && (c % 2 == 1 <==> b % 2 == 0);
    var j := if k == 0 then 0 else k - 1;
    BitOfHalf(c, j);
    BitOfHalf(b, j);
    if k > 0 {
      NotBits(b / 2, n - 1, k - 1);
    }
  }

  /** The four operations on bytes, bit by bit. */
  lemma BytesBitwise(a: byte, b: byte, k: nat)
    ensures And8(a, b) / Pow2(k) % 2 == 1 <==> a / Pow2(k) % 2 == 1 && b / Pow2(k) % 2 == 1
    ensures Or8(a, b) / Pow2(k) % 2 == 1 <==> a / Pow2(k) % 2 == 1 || b / Pow2(k) % 2 == 1
    ensures Xor8(a, b) / Pow2(k) % 2 == 1 <==> a / Pow2(k) % 2 != b / Pow2(k) % 2
    ensures k < 8 ==> (Not8(a) / Pow2(k) % 2 == 1 <==> a / Pow2(k) % 2 == 0)
  {
    hide And, Or, Xor, Pow2;
    AndBits(a, b, k);
    OrBits(a, b, k);
    XorBits(a, b, k);
    Pow2Of8();
    if k < 8 {
      NotBits(a, 8, k);
    }
  }

  /** The latch idiom `latch |= byte << 8`. */
  function OrHigh(latch: word, high: byte): word {
    Word(Lo(latch), Or8(Hi(latch), high))
  }
}
