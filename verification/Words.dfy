/**
 The 32-bit words of the digests, as FIPS 180-4 has them (section 3.1): strings of bits, the most significant one
 first, which stand for numbers.
 */
module Words {

  type Bits = seq<bool>

  type Word = x: Bits | |x| == 32 witness BitsOf(32, 0)

  type Byte = x: nat | x < 0x100

  type Bytes = seq<Byte>

  /** The lowest `n` bits of a number. */
  function BitsOf(n: nat, v: nat): (x: Bits)
    ensures |x| == n
  {
    if n == 0 then [] else BitsOf(n - 1, v / 2) + [v % 2 == 1]
  }

  function Value(x: Bits): nat {
    if x == [] then 0 else 2 * Value(x[..|x| - 1]) + if x[|x| - 1] then 1 else 0
  }

  function ToWord(v: nat): Word { BitsOf(32, v) }

  // ----- addition, which wraps

  function Plus(x: Word, y: Word): Word { ToWord(Value(x) + Value(y)) }

  /** Cutting a summand down to `n` bits does not change the sum modulo 2^n. */
  lemma {:induction false} SumOfLowBits(n: nat, u: nat, c: nat)
    ensures BitsOf(n, Value(BitsOf(n, u)) + c) == BitsOf(n, u + c)
  {
    hide *;
    if n == 0 {
      NoBits(Value(BitsOf(n, u)) + c);
      NoBits(u + c);
    } else {
      var half, bit := u / 2, u % 2;
      assert u == 2 * half + bit;
      SumOfLowBits(n - 1, half, (bit + c) / 2);
      ValueOfBits(n, u);
      AddToBits(n, Value(BitsOf(n - 1, half)), bit, c);
      AddToBits(n, half, bit, c);
    }
  }

  lemma NoBits(u: nat)
    ensures BitsOf(0, u) == []
  {
  }

  lemma AddToBits(n: nat, half: nat, bit: nat, c: nat)
    requires n > 0 && bit < 2
    ensures BitsOf(n, 2 * half + bit + c) == BitsOf(n - 1, half + (bit + c) / 2) + [(bit + c) % 2 == 1]
  {
    Carry(half, bit, c);
    NextBits(n, 2 * half + bit + c);
    hide *;
  }

  lemma ValueOfBits(n: nat, u: nat)
    requires n > 0
    ensures Value(BitsOf(n, u)) == 2 * Value(BitsOf(n - 1, u / 2)) + u % 2
  {
    assert BitsOf(n, u)[..n - 1] == BitsOf(n - 1, u / 2);
  }

  lemma NextBits(n: nat, u: nat)
    requires n > 0
    ensures BitsOf(n, u) == BitsOf(n - 1, u / 2) + [u % 2 == 1]
  {
  }

  lemma Carry(half: nat, bit: nat, c: nat)
    requires bit < 2
    ensures (2 * half + bit + c) / 2 == half + (bit + c) / 2 && (2 * half + bit + c) % 2 == (bit + c) % 2
  {
  }

  lemma PlusRegroup(x: Word, y: Word, z: Word)
    ensures Plus(Plus(x, y), z) == Plus(x, Plus(y, z))
  {
    SumOfLowBits(32, Value(x) + Value(y), Value(z));
    SumOfLowBits(32, Value(y) + Value(z), Value(x));
    hide Value, BitsOf;
  }

  lemma PlusSwap(x: Word, y: Word)
    ensures Plus(x, y) == Plus(y, x)
  {
  }

  // ----- operations on bits

  function And(x: Word, y: Word): Word { seq(32, i requires 0 <= i < 32 => x[i] && y[i]) }

  function Or(x: Word, y: Word): Word { seq(32, i requires 0 <= i < 32 => x[i] || y[i]) }

  function Xor(x: Word, y: Word): Word { seq(32, i requires 0 <= i < 32 => x[i] != y[i]) }

  function Not(x: Word): Word { seq(32, i requires 0 <= i < 32 => !x[i]) }

  function ShiftRight(x: Word, n: nat): Word
    requires n <= 32
  {
    seq(n, i => false) + x[..32 - n]
  }

  function RotateRight(x: Word, n: nat): Word
    requires n <= 32
  {
    x[32 - n..] + x[..32 - n]
  }

  function RotateLeft(x: Word, n: nat): Word
    requires n <= 32
  {
    x[n..] + x[..n]
  }

  function ShiftLeft(x: Word, n: nat): Word
    requires n <= 32
  {
    x[n..] + seq(n, i => false)
  }

  /** The `rotate` of the code, to the right or to the left. */
  lemma RotateIsRight(x: Word, n: nat)
    requires n <= 32
    ensures Or(ShiftRight(x, n), ShiftLeft(x, 32 - n)) == RotateRight(x, n)
  {
  }

  lemma RotateIsLeft(x: Word, n: nat)
    requires n <= 32
    ensures Or(ShiftLeft(x, n), ShiftRight(x, 32 - n)) == RotateLeft(x, n)
  {
  }

  /** The two forms of the majority function. */
  lemma MajForms(x: Word, y: Word, z: Word)
    ensures Or(And(Or(x, y), z), And(x, y)) == Xor(Xor(And(x, y), And(x, z)), And(y, z))
  {
  }

  // ----- what these operations do to a bit, and to a number

  lemma ShiftBit(x: Word, n: nat, i: nat)
    requires n <= 32 && i < 32
    ensures ShiftRight(x, n)[i] == (i >= n && x[i - n])
    ensures ShiftLeft(x, n)[i] == (i + n < 32 && x[i + n])
  {
  }

  lemma RotateBit(x: Word, n: nat, i: nat)
    requires n <= 32 && i < 32
    ensures RotateRight(x, n)[i] == x[(i + 32 - n) % 32] && RotateLeft(x, n)[i] == x[(i + n) % 32]
  {
    var j, k := if i < n then i + 32 - n else i - n, if i + n < 32 then i + n else i + n - 32;
    assert (i + 32 - n) % 32 == j && (i + n) % 32 == k;
    assert RotateRight(x, n)[i] == x[j] && RotateLeft(x, n)[i] == x[k];
  }

  lemma LogicBit(x: Word, y: Word, i: nat)
    requires i < 32
    ensures And(x, y)[i] == (x[i] && y[i]) && Or(x, y)[i] == (x[i] || y[i])
    ensures Xor(x, y)[i] == (x[i] != y[i]) && Not(x)[i] == !x[i]
  {
  }

  function Power2(n: nat): nat {
    if n == 0 then 1 else 2 * Power2(n - 1)
  }

  /** The number that the lowest `n` bits stand for. */
  lemma {:induction false} ValueOfLowBits(n: nat, v: nat)
    ensures Power2(n) > 0 && Value(BitsOf(n, v)) == v % Power2(n)
  {
    if n == 0 {
      NoBits(v);
    } else {
      ValueOfLowBits(n - 1, v / 2);
      ValueOfBits(n, v);
      hide Value, BitsOf;
      HalfAndBit(v, Power2(n - 1));
    }
  }

  lemma HalfAndBit(v: nat, p: nat)
    requires p > 0
    ensures 2 * (v / 2 % p) + v % 2 == v % (2 * p)
  {
    var h, b := v / 2, v % 2;
    var q, r := h / p, h % p;
    Division(h, p);
    assert v == 2 * (q * p + r) + b;
    assert 2 * (q * p) == q * (2 * p);
    Remainder(q, 2 * p, 2 * r + b);
  }

  lemma Division(v: nat, d: nat)
    requires d > 0
    ensures v == v / d * d + v % d && v % d < d
  {
  }

  lemma Times(x: nat, y: nat, d: nat)
    requires x <= y
    ensures x * d <= y * d
  {
    assert y * d == x * d + (y - x) * d;
  }

  lemma Remainder(q: nat, d: nat, r: nat)
    requires r < d
    ensures (q * d + r) % d == r
  {
    var v := q * d + r;
    var e := v / d;
    Division(v, d);
    if e > q {
      Times(q + 1, e, d);
    } else if e < q {
      Times(e + 1, q, d);
    }
  }

  lemma Power2Of32()
    ensures Power2(32) == 0x1_0000_0000 && Power2(8) == 0x100
  {
    assert Power2(8) == 0x100;
    assert Power2(16) == 0x1_0000;
    assert Power2(24) == 0x100_0000;
  }

  /** Words are numbers modulo 2^32, and are added as such. */
  lemma WordValue(v: nat)
    ensures Value(ToWord(v)) == v % 0x1_0000_0000
  {
    ValueOfLowBits(32, v);
    Power2Of32();
  }

  lemma PlusValue(x: Word, y: Word)
    ensures Value(Plus(x, y)) == (Value(x) + Value(y)) % 0x1_0000_0000
  {
    WordValue(Value(x) + Value(y));
    hide Value;
  }

  /** One more summand. */
  lemma SumMore(s: nat, x: Word, y: Word)
    requires Value(x) == s % 0x1_0000_0000
    ensures Value(Plus(x, y)) == (s + Value(y)) % 0x1_0000_0000
  {
    PlusValue(x, y);
    hide Value, Plus;
    var v := Value(y);
    assert (s % 0x1_0000_0000 + v) % 0x1_0000_0000 == (s + v) % 0x1_0000_0000;
  }

  lemma SumOfFour(a: Word, b: Word, c: Word, d: Word)
    ensures Value(Plus(Plus(Plus(a, b), c), d)) == (Value(a) + Value(b) + Value(c) + Value(d)) % 0x1_0000_0000
  {
    PlusValue(a, b);
    SumMore(Value(a) + Value(b), Plus(a, b), c);
    SumMore(Value(a) + Value(b) + Value(c), Plus(Plus(a, b), c), d);
  }

  lemma SumOfFive(a: Word, b: Word, c: Word, d: Word, e: Word)
    ensures Value(Plus(Plus(Plus(Plus(a, b), c), d), e)) == (Value(a) + Value(b) + Value(c) + Value(d) + Value(e)) % 0x1_0000_0000
  {
    SumOfFour(a, b, c, d);
    SumMore(Value(a) + Value(b) + Value(c) + Value(d), Plus(Plus(Plus(a, b), c), d), e);
  }

  lemma {:induction false} ValueConcat(x: Bits, y: Bits)
    ensures Value(x + y) == Value(x) * Power2(|y|) + Value(y)
    decreases |y|
  {
    if y == [] {
      assert x + y == x;
    } else {
      var z, b := y[..|y| - 1], y[|y| - 1];
      assert (x + y)[..|x + y| - 1] == x + z;
      ValueConcat(x, z);
      hide Value;
      assert Power2(|y|) == 2 * Power2(|z|);
      assert 2 * (Value(x) * Power2(|z|)) == Value(x) * (2 * Power2(|z|));
      LastBit(x + y);
      LastBit(y);
    }
  }

  lemma LastBit(x: Bits)
    requires x != []
    ensures Value(x) == 2 * Value(x[..|x| - 1]) + if x[|x| - 1] then 1 else 0
  {
  }

  /** The first of the four bytes weighs most. */
  lemma BigEndianValue(b: Bytes)
    requires |b| == 4
    ensures Value(BigEndian(b)) == 0x100_0000 * b[0] as int + 0x1_0000 * b[1] as int + 0x100 * b[2] as int + b[3] as int
  {
    var x, y, z := BitsOf(8, b[0]), BitsOf(8, b[1]), BitsOf(8, b[2]);
    ByteValue(b[0]);
    AppendByte(x, b[1]);
    AppendByte(x + y, b[2]);
    AppendByte(x + y + z, b[3]);
    hide Value, BitsOf;
  }

  lemma ByteValue(b: Byte)
    ensures Value(BitsOf(8, b)) == b
  {
    ValueOfLowBits(8, b);
    Power2Of32();
    hide Value, BitsOf, Power2;
  }

  lemma AppendByte(x: Bits, b: Byte)
    ensures Value(x + BitsOf(8, b)) == 0x100 * Value(x) + b
  {
    ByteValue(b);
    ValueConcat(x, BitsOf(8, b));
    Power2Of32();
    hide Value, BitsOf, Power2;
  }

  // ----- words in memory

  /** Four bytes of memory as a little-endian machine reads them. */
  function ReadWord(b: Bytes): Word
    requires |b| == 4
  {
    BitsOf(8, b[3]) + BitsOf(8, b[2]) + BitsOf(8, b[1]) + BitsOf(8, b[0])
  }

  /** Four bytes, the most significant first. */
  function BigEndian(b: Bytes): Word
    requires |b| == 4
  {
    BitsOf(8, b[0]) + BitsOf(8, b[1]) + BitsOf(8, b[2]) + BitsOf(8, b[3])
  }

  /** `swap`: the bytes of a word in reverse order. */
  function Swap(x: Word): Word {
    x[24..] + x[16..24] + x[8..16] + x[..8]
  }

  lemma SwapIsBigEndian(b: Bytes)
    requires |b| == 4
    ensures Swap(ReadWord(b)) == BigEndian(b)
  {
    hide BitsOf;
  }
}
