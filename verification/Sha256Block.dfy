/** `SHA256::processBlock`: the unrolled compression refines the loop of section 6.2.2 of FIPS 180-4. */
module Sha256Block {
  import opened Words

  // ----- the standard

  datatype Registers = Registers(a: Word, b: Word, c: Word, d: Word, e: Word, f: Word, g: Word, h: Word)

  /** Section 4.2.2. */
  function K(t: nat): nat
    requires t < 64
  {
    match t
    case 0 => 0x428A_2F98 case 1 => 0x7137_4491 case 2 => 0xB5C0_FBCF case 3 => 0xE9B5_DBA5
    case 4 => 0x3956_C25B case 5 => 0x59F1_11F1 case 6 => 0x923F_82A4 case 7 => 0xAB1C_5ED5
    case 8 => 0xD807_AA98 case 9 => 0x1283_5B01 case 10 => 0x2431_85BE case 11 => 0x550C_7DC3
    case 12 => 0x72BE_5D74 case 13 => 0x80DE_B1FE case 14 => 0x9BDC_06A7 case 15 => 0xC19B_F174
    case 16 => 0xE49B_69C1 case 17 => 0xEFBE_4786 case 18 => 0x0FC1_9DC6 case 19 => 0x240C_A1CC
    case 20 => 0x2DE9_2C6F case 21 => 0x4A74_84AA case 22 => 0x5CB0_A9DC case 23 => 0x76F9_88DA
    case 24 => 0x983E_5152 case 25 => 0xA831_C66D case 26 => 0xB003_27C8 case 27 => 0xBF59_7FC7
    case 28 => 0xC6E0_0BF3 case 29 => 0xD5A7_9147 case 30 => 0x06CA_6351 case 31 => 0x1429_2967
    case 32 => 0x27B7_0A85 case 33 => 0x2E1B_2138 case 34 => 0x4D2C_6DFC case 35 => 0x5338_0D13
    case 36 => 0x650A_7354 case 37 => 0x766A_0ABB case 38 => 0x81C2_C92E case 39 => 0x9272_2C85
    case 40 => 0xA2BF_E8A1 case 41 => 0xA81A_664B case 42 => 0xC24B_8B70 case 43 => 0xC76C_51A3
    case 44 => 0xD192_E819 case 45 => 0xD699_0624 case 46 => 0xF40E_3585 case 47 => 0x106A_A070
    case 48 => 0x19A4_C116 case 49 => 0x1E37_6C08 case 50 => 0x2748_774C case 51 => 0x34B0_BCB5
    case 52 => 0x391C_0CB3 case 53 => 0x4ED8_AA4A case 54 => 0x5B9C_CA4F case 55 => 0x682E_6FF3
    case 56 => 0x748F_82EE case 57 => 0x78A5_636F case 58 => 0x84C8_7814 case 59 => 0x8CC7_0208
    case 60 => 0x90BE_FFFA case 61 => 0xA450_6CEB case 62 => 0xBEF9_A3F7 case _ => 0xC671_78F2
  }

  function Constant(t: nat): Word
    requires t < 64
  {
    ToWord(K(t))
  }

  /** Section 4.1.2: the functions, upper and lower case sigma. */
  function Ch(x: Word, y: Word, z: Word): Word { Xor(And(x, y), And(Not(x), z)) }

  function Maj(x: Word, y: Word, z: Word): Word { Xor(Xor(And(x, y), And(x, z)), And(y, z)) }

  function Sigma0(x: Word): Word { Xor(Xor(RotateRight(x, 2), RotateRight(x, 13)), RotateRight(x, 22)) }

  function Sigma1(x: Word): Word { Xor(Xor(RotateRight(x, 6), RotateRight(x, 11)), RotateRight(x, 25)) }

  function SmallSigma0(x: Word): Word { Xor(Xor(RotateRight(x, 7), RotateRight(x, 18)), ShiftRight(x, 3)) }

  function SmallSigma1(x: Word): Word { Xor(Xor(RotateRight(x, 17), RotateRight(x, 19)), ShiftRight(x, 10)) }

  /** The message schedule W. */
  function W(block: Bytes, t: nat): Word
    requires |block| == 64
  {
    if t < 16 then BigEndian(block[4 * t..4 * t + 4])
    else Plus(Plus(Plus(SmallSigma1(W(block, t - 2)), W(block, t - 7)), SmallSigma0(W(block, t - 15))), W(block, t - 16))
  }

  /** One pass through the loop. */
  function Round(r: Registers, k: Word, w: Word): Registers {
    var t1 := Plus(Plus(Plus(Plus(r.h, Sigma1(r.e)), Ch(r.e, r.f, r.g)), k), w);
    var t2 := Plus(Sigma0(r.a), Maj(r.a, r.b, r.c));
    Registers(Plus(t1, t2), r.a, r.b, r.c, Plus(r.d, t1), r.e, r.f, r.g)
  }

  function Rounds(r: Registers, block: Bytes, t: nat): Registers
    requires |block| == 64 && t <= 64
  {
    if t == 0 then r else Round(Rounds(r, block, t - 1), Constant(t - 1), W(block, t - 1))
  }

  function Compress(hash: Registers, block: Bytes): Registers
    requires |block| == 64
  {
    var r := Rounds(hash, block, 64);
    Registers(Plus(hash.a, r.a), Plus(hash.b, r.b), Plus(hash.c, r.c), Plus(hash.d, r.d),
              Plus(hash.e, r.e), Plus(hash.f, r.f), Plus(hash.g, r.g), Plus(hash.h, r.h))
  }

  // ----- the code

  /** `rotate`: (a >> c) | (a << (32 - c)). */
  function Rotate(a: Word, c: nat): Word
    requires c <= 32
  {
    Or(ShiftRight(a, c), ShiftLeft(a, 32 - c))
  }

  /** `f1`: the second and third summand of T1 at once. */
  function F1(e: Word, f: Word, g: Word): Word {
    var term1 := Xor(Xor(Rotate(e, 6), Rotate(e, 11)), Rotate(e, 25));
    var term2 := Xor(And(e, f), And(Not(e), g));
    Plus(term1, term2)
  }

  /** `f2`: T2, with another form of Maj. */
  function F2(a: Word, b: Word, c: Word): Word {
    var term1 := Xor(Xor(Rotate(a, 2), Rotate(a, 13)), Rotate(a, 22));
    var term2 := Or(And(Or(a, b), c), And(a, b));
    Plus(term1, term2)
  }

  /** One line of the code with its registers in the order of the standard. */
  lemma OneStep(r: Registers, k: Word, w: Word)
    ensures var x := Plus(Plus(Plus(r.h, F1(r.e, r.f, r.g)), k), w);
      var y := F2(r.a, r.b, r.c);
      Round(r, k, w) == Registers(Plus(x, y), r.a, r.b, r.c, Plus(r.d, x), r.e, r.f, r.g)
  {
    MajForms(r.a, r.b, r.c);
    Rotations(r.a, 2, 13, 22);
    Rotations(r.e, 6, 11, 25);
    PlusRegroup(r.h, Sigma1(r.e), Ch(r.e, r.f, r.g));
    hide Plus, RotateRight, Rotate, Xor, Or, And, Not;
  }

  lemma Rotations(x: Word, i: nat, j: nat, k: nat)
    requires i <= 32 && j <= 32 && k <= 32
    ensures Rotate(x, i) == RotateRight(x, i) && Rotate(x, j) == RotateRight(x, j) && Rotate(x, k) == RotateRight(x, k)
  {
    RotateIsRight(x, i);
    RotateIsRight(x, j);
    RotateIsRight(x, k);
  }

  /** What the code adds for sigma 0 and sigma 1. */
  lemma ExtensionForms(x: Word)
    ensures Xor(Xor(Rotate(x, 7), Rotate(x, 18)), ShiftRight(x, 3)) == SmallSigma0(x)
    ensures Xor(Xor(Rotate(x, 17), Rotate(x, 19)), ShiftRight(x, 10)) == SmallSigma1(x)
  {
    Rotations(x, 7, 18, 17);
    Rotations(x, 19, 19, 19);
    hide Rotate, RotateRight, ShiftRight, Xor;
  }

  /** The order in which the code adds up a word of the schedule. */
  lemma ScheduleForms(a: Word, b: Word, c: Word, d: Word)
    ensures Plus(Plus(Plus(a, b), c), d) == Plus(Plus(Plus(d, c), b), a)
  {
    var ab := Plus(a, b);
    PlusSwap(a, b);
    PlusSwap(Plus(ab, c), d);
    PlusSwap(ab, c);
    PlusRegroup(d, c, ab);
    PlusRegroup(Plus(d, c), b, a);
    hide Plus;
  }

  lemma EightRounds(r: Registers, block: Bytes, t: nat)
    requires |block| == 64 && t + 8 <= 64
    ensures Rounds(r, block, t + 8) == Round(Round(Round(Round(Round(Round(Round(Round(Rounds(r, block, t),
      Constant(t), W(block, t)), Constant(t + 1), W(block, t + 1)), Constant(t + 2), W(block, t + 2)),
      Constant(t + 3), W(block, t + 3)), Constant(t + 4), W(block, t + 4)), Constant(t + 5), W(block, t + 5)),
      Constant(t + 6), W(block, t + 6)), Constant(t + 7), W(block, t + 7))
  {
    hide Round, Constant, W;
    assert forall k :: t <= k < t + 8 ==>
      Rounds(r, block, k + 1) == Round(Rounds(r, block, k), Constant(k), W(block, k));
  }

  lemma NoRounds(r: Registers, block: Bytes)
    requires |block| == 64
    ensures Rounds(r, block, 0) == r
  {
  }

  /** The array holds the first `i` words of the schedule. */
  ghost predicate Scheduled(words: array<Word>, block: Bytes, i: nat)
    requires |block| == 64
    reads words
  {
    words.Length == 64 && i <= 64 && forall k :: 0 <= k < i ==> words[k] == W(block, k)
  }

  /** The loops that extend the schedule by eight words between the rounds. */
  method Extend(words: array<Word>, from: nat, to: nat, ghost block: Bytes)
    requires |block| == 64 && 16 <= from <= to <= 64 && Scheduled(words, block, from)
    modifies words
    ensures Scheduled(words, block, to)
  {
    hide Plus, SmallSigma0, SmallSigma1, Rotate, ShiftRight, Xor;
    var i := from;
    while i < to
      invariant from <= i <= to && Scheduled(words, block, i)
    {
      ScheduleForms(words[i - 16], SmallSigma0(words[i - 15]), words[i - 7], SmallSigma1(words[i - 2]));
      ExtensionForms(words[i - 15]);
      ExtensionForms(words[i - 2]);
      var s := Xor(Xor(Rotate(words[i - 15], 7), Rotate(words[i - 15], 18)), ShiftRight(words[i - 15], 3));
      var t := Xor(Xor(Rotate(words[i - 2], 17), Rotate(words[i - 2], 19)), ShiftRight(words[i - 2], 10));
      words[i] := Plus(Plus(Plus(words[i - 16], s), words[i - 7]), t);
      i := i + 1;
    }
  }

  /** Eight lines: the registers change roles instead of contents, and are back in place after eight. */
  method EightSteps(r: Registers, words: array<Word>, i: nat, ghost hash: Registers, ghost block: Bytes)
      returns (r': Registers)
    requires |block| == 64 && i + 8 <= 64 && Scheduled(words, block, i + 8) && r == Rounds(hash, block, i)
    ensures r' == Rounds(hash, block, i + 8)
  {
    EightRounds(hash, block, i);
    hide Round, Rounds, Constant, F1, F2, Plus, W;
    var a, b, c, d, e, f, g, h := r.a, r.b, r.c, r.d, r.e, r.f, r.g, r.h;
    var x, y;
    OneStep(Registers(a, b, c, d, e, f, g, h), Constant(i), words[i]);
    x := Plus(Plus(Plus(h, F1(e, f, g)), Constant(i)), words[i]); y := F2(a, b, c); d := Plus(d, x); h := Plus(x, y);
    OneStep(Registers(h, a, b, c, d, e, f, g), Constant(i + 1), words[i + 1]);
    x := Plus(Plus(Plus(g, F1(d, e, f)), Constant(i + 1)), words[i + 1]); y := F2(h, a, b); c := Plus(c, x); g := Plus(x, y);
    OneStep(Registers(g, h, a, b, c, d, e, f), Constant(i + 2), words[i + 2]);
    x := Plus(Plus(Plus(f, F1(c, d, e)), Constant(i + 2)), words[i + 2]); y := F2(g, h, a); b := Plus(b, x); f := Plus(x, y);
    OneStep(Registers(f, g, h, a, b, c, d, e), Constant(i + 3), words[i + 3]);
    x := Plus(Plus(Plus(e, F1(b, c, d)), Constant(i + 3)), words[i + 3]); y := F2(f, g, h); a := Plus(a, x); e := Plus(x, y);
    OneStep(Registers(e, f, g, h, a, b, c, d), Constant(i + 4), words[i + 4]);
    x := Plus(Plus(Plus(d, F1(a, b, c)), Constant(i + 4)), words[i + 4]); y := F2(e, f, g); h := Plus(h, x); d := Plus(x, y);
    OneStep(Registers(d, e, f, g, h, a, b, c), Constant(i + 5), words[i + 5]);
    x := Plus(Plus(Plus(c, F1(h, a, b)), Constant(i + 5)), words[i + 5]); y := F2(d, e, f); g := Plus(g, x); c := Plus(x, y);
    OneStep(Registers(c, d, e, f, g, h, a, b), Constant(i + 6), words[i + 6]);
    x := Plus(Plus(Plus(b, F1(g, h, a)), Constant(i + 6)), words[i + 6]); y := F2(c, d, e); f := Plus(f, x); b := Plus(x, y);
    OneStep(Registers(b, c, d, e, f, g, h, a), Constant(i + 7), words[i + 7]);
    x := Plus(Plus(Plus(a, F1(f, g, h)), Constant(i + 7)), words[i + 7]); y := F2(b, c, d); e := Plus(e, x); a := Plus(x, y);
    r' := Registers(a, b, c, d, e, f, g, h);
  }

  /** `SHA256::processBlock`. */
  method ProcessBlock(hash: Registers, data: Bytes) returns (hash': Registers)
    requires |data| == 64
    ensures hash' == Compress(hash, data)
  {
    hide Round, Rounds, Constant, W, Plus, Swap, ReadWord, BigEndian;
    var words := new Word[64](_ => ToWord(0));
    var i := 0;
    while i < 16
      invariant 0 <= i <= 16 && Scheduled(words, data, i)
    {
      SwapIsBigEndian(data[4 * i..4 * i + 4]);
      FirstWords(data, i);
      words[i] := Swap(ReadWord(data[4 * i..4 * i + 4]));
      i := i + 1;
    }
    var r := hash;
    NoRounds(hash, data);
    r := EightSteps(r, words, 0, hash, data);
    r := EightSteps(r, words, 8, hash, data);
    Extend(words, 16, 24, data);
    r := EightSteps(r, words, 16, hash, data);
    Extend(words, 24, 32, data);
    r := EightSteps(r, words, 24, hash, data);
    Extend(words, 32, 40, data);
    r := EightSteps(r, words, 32, hash, data);
    Extend(words, 40, 48, data);
    r := EightSteps(r, words, 40, hash, data);
    Extend(words, 48, 56, data);
    r := EightSteps(r, words, 48, hash, data);
    Extend(words, 56, 64, data);
    r := EightSteps(r, words, 56, hash, data);
    hash' := Registers(Plus(hash.a, r.a), Plus(hash.b, r.b), Plus(hash.c, r.c), Plus(hash.d, r.d),
                       Plus(hash.e, r.e), Plus(hash.f, r.f), Plus(hash.g, r.g), Plus(hash.h, r.h));
  }

  lemma FirstWords(block: Bytes, t: nat)
    requires |block| == 64 && t < 16
    ensures W(block, t) == BigEndian(block[4 * t..4 * t + 4])
  {
  }
}
