/**
 The constants and functions of the digests, pinned by what FIPS 180-4 says they are: fractional parts of roots of
 primes, and functions given bit by bit.
 */
module DigestTables {
  import opened Words
  import Sha256Block
  import Sha256
  import Sha1Block

  // ----- the constants of SHA-256

  /** The first sixty-four primes. */
  function Prime(t: nat): nat
    requires t < 64
  {
    match t
    case 0 => 2 case 1 => 3 case 2 => 5 case 3 => 7 case 4 => 11 case 5 => 13 case 6 => 17 case 7 => 19
    case 8 => 23 case 9 => 29 case 10 => 31 case 11 => 37 case 12 => 41 case 13 => 43 case 14 => 47 case 15 => 53
    case 16 => 59 case 17 => 61 case 18 => 67 case 19 => 71 case 20 => 73 case 21 => 79 case 22 => 83 case 23 => 89
    case 24 => 97 case 25 => 101 case 26 => 103 case 27 => 107 case 28 => 109 case 29 => 113 case 30 => 127 case 31 => 131
    case 32 => 137 case 33 => 139 case 34 => 149 case 35 => 151 case 36 => 157 case 37 => 163 case 38 => 167 case 39 => 173
    case 40 => 179 case 41 => 181 case 42 => 191 case 43 => 193 case 44 => 197 case 45 => 199 case 46 => 211 case 47 => 223
    case 48 => 227 case 49 => 229 case 50 => 233 case 51 => 239 case 52 => 241 case 53 => 251 case 54 => 257 case 55 => 263
    case 56 => 269 case 57 => 271 case 58 => 277 case 59 => 281 case 60 => 283 case 61 => 293 case 62 => 307 case _ => 311
  }

  /** `k` holds the first 32 bits of the fractional part of the cube root of `p`, whose whole part is `w`. */
  predicate CubeRoot(p: nat, k: nat, w: nat) {
    var n := w * 0x1_0000_0000 + k;
    && k < 0x1_0000_0000 && w * w * w <= p < (w + 1) * (w + 1) * (w + 1)
    && n * n * n <= p * 0x1_0000_0000_0000_0000_0000_0000 < (n + 1) * (n + 1) * (n + 1)
  }

  /** The same of the square root. */
  predicate SquareRoot(p: nat, k: nat, w: nat) {
    var n := w * 0x1_0000_0000 + k;
    && k < 0x1_0000_0000 && w * w <= p < (w + 1) * (w + 1)
    && n * n <= p * 0x1_0000_0000_0000_0000 < (n + 1) * (n + 1)
  }

  function Whole(t: nat): nat {
    if t < 4 then 1 else if t < 9 then 2 else if t < 18 then 3 else if t < 30 then 4 else if t < 47 then 5 else 6
  }

  /** Section 4.2.2: the constants are the cube roots of these primes. */
  lemma ConstantsAreRoots(t: nat)
    requires t < 64
    ensures CubeRoot(Prime(t), Value(Sha256Block.Constant(t)), Whole(t))
  {
    WordValue(Sha256Block.K(t));
    hide Value, ToWord, CubeRoot;
    assert 0 <= Sha256Block.K(t) < 0x1_0000_0000 by { Bounded(t); }
    if t < 16 {
      RootsTo16(t);
    } else if t < 32 {
      RootsTo32(t);
    } else if t < 48 {
      RootsTo48(t);
    } else {
      RootsTo64(t);
    }
  }

  lemma Bounded(t: nat)
    requires t < 64
    ensures Sha256Block.K(t) < 0x1_0000_0000
  {
  }

  lemma RootsTo16(t: nat)
    requires t < 16
    ensures CubeRoot(Prime(t), Sha256Block.K(t), Whole(t))
  {
  }

  lemma RootsTo32(t: nat)
    requires 16 <= t < 32
    ensures CubeRoot(Prime(t), Sha256Block.K(t), Whole(t))
  {
  }

  lemma RootsTo48(t: nat)
    requires 32 <= t < 48
    ensures CubeRoot(Prime(t), Sha256Block.K(t), Whole(t))
  {
  }

  lemma RootsTo64(t: nat)
    requires 48 <= t < 64
    ensures CubeRoot(Prime(t), Sha256Block.K(t), Whole(t))
  {
  }

  /** Section 5.3.3: the initial hash value, from the square roots of the first eight. */
  lemma InitialAreRoots()
    ensures var h := Sha256.Initial();
      && SquareRoot(2, Value(h.a), 1) && SquareRoot(3, Value(h.b), 1) && SquareRoot(5, Value(h.c), 2)
      && SquareRoot(7, Value(h.d), 2) && SquareRoot(11, Value(h.e), 3) && SquareRoot(13, Value(h.f), 3)
      && SquareRoot(17, Value(h.g), 4) && SquareRoot(19, Value(h.h), 4)
  {
    InitialNumbers();
    hide *;
    RootWord(2, 0x6A09_E667, 1);
    RootWord(3, 0xBB67_AE85, 1);
    RootWord(5, 0x3C6E_F372, 2);
    RootWord(7, 0xA54F_F53A, 2);
    RootWord(11, 0x510E_527F, 3);
    RootWord(13, 0x9B05_688C, 3);
    RootWord(17, 0x1F83_D9AB, 4);
    RootWord(19, 0x5BE0_CD19, 4);
  }

  lemma InitialNumbers()
    ensures Sha256.Initial() == Sha256Block.Registers(
      ToWord(0x6A09_E667), ToWord(0xBB67_AE85), ToWord(0x3C6E_F372), ToWord(0xA54F_F53A),
      ToWord(0x510E_527F), ToWord(0x9B05_688C), ToWord(0x1F83_D9AB), ToWord(0x5BE0_CD19))
    ensures SquareRoot(2, 0x6A09_E667, 1) && SquareRoot(3, 0xBB67_AE85, 1) && SquareRoot(5, 0x3C6E_F372, 2)
      && SquareRoot(7, 0xA54F_F53A, 2) && SquareRoot(11, 0x510E_527F, 3) && SquareRoot(13, 0x9B05_688C, 3)
      && SquareRoot(17, 0x1F83_D9AB, 4) && SquareRoot(19, 0x5BE0_CD19, 4)
  {
    hide ToWord;
  }

  lemma RootWord(p: nat, k: nat, w: nat)
    requires SquareRoot(p, k, w)
    ensures SquareRoot(p, Value(ToWord(k)), w)
  {
    WordValue(k);
    hide Value, ToWord;
  }

  // ----- its functions, bit by bit; bit 0 is the most significant one

  /** Section 4.1.2. */
  lemma SigmaBits(x: Word, i: nat)
    requires i < 32
    ensures Sha256Block.Sigma0(x)[i] == ((x[(i + 30) % 32] != x[(i + 19) % 32]) != x[(i + 10) % 32])
    ensures Sha256Block.Sigma1(x)[i] == ((x[(i + 26) % 32] != x[(i + 21) % 32]) != x[(i + 7) % 32])
    ensures Sha256Block.SmallSigma0(x)[i] == ((x[(i + 25) % 32] != x[(i + 14) % 32]) != (i >= 3 && x[i - 3]))
    ensures Sha256Block.SmallSigma1(x)[i] == ((x[(i + 15) % 32] != x[(i + 13) % 32]) != (i >= 10 && x[i - 10]))
  {
    RotateBit(x, 2, i);
    RotateBit(x, 13, i);
    RotateBit(x, 22, i);
    RotateBit(x, 6, i);
    RotateBit(x, 11, i);
    RotateBit(x, 25, i);
    RotateBit(x, 7, i);
    RotateBit(x, 18, i);
    RotateBit(x, 17, i);
    RotateBit(x, 19, i);
    ShiftBit(x, 3, i);
    ShiftBit(x, 10, i);
    hide RotateRight, ShiftRight, Xor;
    ParityBit(RotateRight(x, 2), RotateRight(x, 13), RotateRight(x, 22), i);
    ParityBit(RotateRight(x, 6), RotateRight(x, 11), RotateRight(x, 25), i);
    ParityBit(RotateRight(x, 7), RotateRight(x, 18), ShiftRight(x, 3), i);
    ParityBit(RotateRight(x, 17), RotateRight(x, 19), ShiftRight(x, 10), i);
  }

  lemma ParityBit(x: Word, y: Word, z: Word, i: nat)
    requires i < 32
    ensures Xor(Xor(x, y), z)[i] == ((x[i] != y[i]) != z[i])
  {
  }

  /** A choice between `y` and `z`, and a vote of three. */
  lemma ChoiceBits(x: Word, y: Word, z: Word, i: nat)
    requires i < 32
    ensures Sha256Block.Ch(x, y, z)[i] == if x[i] then y[i] else z[i]
    ensures Sha256Block.Maj(x, y, z)[i] == if x[i] == y[i] then x[i] else z[i]
  {
  }

  /** Section 6.2.2, step 3, as numbers. */
  lemma RoundValues(r: Sha256Block.Registers, k: Word, w: Word)
    ensures var n := Sha256Block.Round(r, k, w);
      && n.b == r.a && n.c == r.b && n.d == r.c && n.f == r.e && n.g == r.f && n.h == r.g
    ensures var n := Sha256Block.Round(r, k, w);
      var t1 := Value(r.h) + Value(Sha256Block.Sigma1(r.e)) + Value(Sha256Block.Ch(r.e, r.f, r.g)) + Value(k) + Value(w);
      && Value(n.e) == (Value(r.d) + t1) % 0x1_0000_0000
      && Value(n.a) == (t1 + Value(Sha256Block.Sigma0(r.a)) + Value(Sha256Block.Maj(r.a, r.b, r.c))) % 0x1_0000_0000
  {
    hide Plus, Value, Sha256Block.Sigma0, Sha256Block.Sigma1, Sha256Block.Ch, Sha256Block.Maj;
    var s1, c, s0, m := Sha256Block.Sigma1(r.e), Sha256Block.Ch(r.e, r.f, r.g), Sha256Block.Sigma0(r.a), Sha256Block.Maj(r.a, r.b, r.c);
    var t1, t := Plus(Plus(Plus(Plus(r.h, s1), c), k), w), Value(r.h) + Value(s1) + Value(c) + Value(k) + Value(w);
    SumOfFive(r.h, s1, c, k, w);
    SumMore(t, t1, r.d);
    PlusSwap(t1, r.d);
    SumMore(t, t1, s0);
    SumMore(t + Value(s0), Plus(t1, s0), m);
    PlusRegroup(t1, s0, m);
  }

  /** The message comes first in the schedule, four bytes to a word. */
  lemma MessageValues(block: Bytes, t: nat)
    requires |block| == 64 && t < 16
    ensures Sha256Block.W(block, t) == Sha1Block.W(block, t)
    ensures Value(Sha256Block.W(block, t)) ==
      0x100_0000 * block[4 * t] as int + 0x1_0000 * block[4 * t + 1] as int + 0x100 * block[4 * t + 2] as int + block[4 * t + 3] as int
  {
    BigEndianValue(block[4 * t..4 * t + 4]);
    hide BigEndian, Value;
  }

  /** Then come sums of four. */
  lemma ScheduleValues(block: Bytes, t: nat)
    requires |block| == 64 && t >= 16
    ensures Value(Sha256Block.W(block, t)) ==
      (Value(Sha256Block.SmallSigma1(Sha256Block.W(block, t - 2))) + Value(Sha256Block.W(block, t - 7))
       + Value(Sha256Block.SmallSigma0(Sha256Block.W(block, t - 15))) + Value(Sha256Block.W(block, t - 16))) % 0x1_0000_0000
  {
    ScheduleSum(block, t);
    hide *;
    SumOfFour(Sha256Block.SmallSigma1(Sha256Block.W(block, t - 2)), Sha256Block.W(block, t - 7),
              Sha256Block.SmallSigma0(Sha256Block.W(block, t - 15)), Sha256Block.W(block, t - 16));
  }

  lemma ScheduleSum(block: Bytes, t: nat)
    requires |block| == 64 && t >= 16
    ensures Sha256Block.W(block, t) ==
      Plus(Plus(Plus(Sha256Block.SmallSigma1(Sha256Block.W(block, t - 2)), Sha256Block.W(block, t - 7)),
                Sha256Block.SmallSigma0(Sha256Block.W(block, t - 15))), Sha256Block.W(block, t - 16))
  {
    hide Plus, Sha256Block.SmallSigma0, Sha256Block.SmallSigma1;
  }

  // ----- SHA-1

  /** `k` is the square root of `p`, scaled by 2^30. */
  predicate ScaledRoot(p: nat, k: nat) {
    k < 0x1_0000_0000 && k * k <= p * 0x1000_0000_0000_0000 < (k + 1) * (k + 1)
  }

  /** Section 4.2.1: the constants are the square roots of 2, 3, 5 and 10. */
  lemma Sha1ConstantsAreRoots()
    ensures ScaledRoot(2, Value(Sha1Block.Constant(0))) && ScaledRoot(3, Value(Sha1Block.Constant(1)))
    ensures ScaledRoot(5, Value(Sha1Block.Constant(2))) && ScaledRoot(10, Value(Sha1Block.Constant(3)))
  {
    ScaledWord(2, 0x5A82_7999);
    ScaledWord(3, 0x6ED9_EBA1);
    ScaledWord(5, 0x8F1B_BCDC);
    ScaledWord(10, 0xCA62_C1D6);
    hide Value, ToWord, ScaledRoot;
  }

  lemma ScaledWord(p: nat, k: nat)
    requires ScaledRoot(p, k)
    ensures ScaledRoot(p, Value(ToWord(k)))
  {
    WordValue(k);
    hide Value, ToWord;
  }

  /** Section 4.1.1: in the first twenty steps a choice, in the third a vote, otherwise the parity. */
  lemma MixBits(q: nat, x: Word, y: Word, z: Word, i: nat)
    requires i < 32
    ensures Sha1Block.Mix(q, x, y, z)[i] ==
      if q == 0 then if x[i] then y[i] else z[i]
      else if q == 2 then if x[i] == y[i] then x[i] else z[i]
      else (x[i] != y[i]) != z[i]
  {
  }

  /** The schedule rotates by one bit to the left. */
  lemma Sha1ScheduleBits(block: Bytes, t: nat, i: nat)
    requires |block| == 64 && t >= 16 && i < 32
    ensures var j := (i + 1) % 32;
      Sha1Block.W(block, t)[i] ==
        (((Sha1Block.W(block, t - 3)[j] != Sha1Block.W(block, t - 8)[j]) != Sha1Block.W(block, t - 14)[j]) != Sha1Block.W(block, t - 16)[j])
  {
    var x := Xor(Xor(Xor(Sha1Block.W(block, t - 3), Sha1Block.W(block, t - 8)), Sha1Block.W(block, t - 14)), Sha1Block.W(block, t - 16));
    RotateBit(x, 1, i);
    assert Sha1Block.W(block, t) == RotateLeft(x, 1);
    hide Sha1Block.W, RotateLeft;
  }

  /** Section 6.1.2, step 3, as numbers; the second register is rotated by thirty bits, the first by five. */
  lemma Sha1RoundValues(r: Sha1Block.Registers, q: nat, w: Word, i: nat)
    requires i < 32
    ensures var n := Sha1Block.Round(r, q, w);
      && n.b == r.a && n.c[i] == r.b[(i + 30) % 32] && n.d == r.c && n.e == r.d
      && Value(n.a) == (Value(RotateLeft(r.a, 5)) + Value(Sha1Block.Mix(q, r.b, r.c, r.d)) + Value(r.e)
                        + Value(Sha1Block.Constant(q)) + Value(w)) % 0x1_0000_0000
    ensures RotateLeft(r.a, 5)[i] == r.a[(i + 5) % 32]
  {
    hide Plus, Value, RotateLeft, Sha1Block.Mix, Sha1Block.Constant;
    RotateBit(r.a, 5, i);
    RotateBit(r.b, 30, i);
    SumOfFive(RotateLeft(r.a, 5), Sha1Block.Mix(q, r.b, r.c, r.d), r.e, Sha1Block.Constant(q), w);
  }
}
