/** `SHA1::processBlock`: the compression with renamed registers refines the loop of section 6.1.2 of FIPS 180-4. */
module Sha1Block {
  import opened Words

  // ----- the standard

  datatype Registers = Registers(a: Word, b: Word, c: Word, d: Word, e: Word)

  /** Section 4.2.1; `q` is which twenty of the eighty steps. */
  function Constant(q: nat): Word {
    if q == 0 then ToWord(0x5A82_7999)
    else if q == 1 then ToWord(0x6ED9_EBA1)
    else if q == 2 then ToWord(0x8F1B_BCDC)
    else ToWord(0xCA62_C1D6)
  }

  /** Section 4.1.1. */
  function Ch(x: Word, y: Word, z: Word): Word { Xor(And(x, y), And(Not(x), z)) }

  function Parity(x: Word, y: Word, z: Word): Word { Xor(Xor(x, y), z) }

  function Maj(x: Word, y: Word, z: Word): Word { Xor(Xor(And(x, y), And(x, z)), And(y, z)) }

  function Mix(q: nat, x: Word, y: Word, z: Word): Word {
    if q == 0 then Ch(x, y, z) else if q == 2 then Maj(x, y, z) else Parity(x, y, z)
  }

  /** The message schedule W. */
  function W(block: Bytes, t: nat): Word
    requires |block| == 64
  {
    if t < 16 then BigEndian(block[4 * t..4 * t + 4])
    else RotateLeft(Xor(Xor(Xor(W(block, t - 3), W(block, t - 8)), W(block, t - 14)), W(block, t - 16)), 1)
  }

  /** One pass through the loop. */
  function Round(r: Registers, q: nat, w: Word): Registers {
    var t := Plus(Plus(Plus(Plus(RotateLeft(r.a, 5), Mix(q, r.b, r.c, r.d)), r.e), Constant(q)), w);
    Registers(t, r.a, RotateLeft(r.b, 30), r.c, r.d)
  }

  function Rounds(r: Registers, block: Bytes, t: nat): Registers
    requires |block| == 64
  {
    if t == 0 then r else Round(Rounds(r, block, t - 1), (t - 1) / 20, W(block, t - 1))
  }

  function Compress(hash: Registers, block: Bytes): Registers
    requires |block| == 64
  {
    var r := Rounds(hash, block, 80);
    Registers(Plus(hash.a, r.a), Plus(hash.b, r.b), Plus(hash.c, r.c), Plus(hash.d, r.d), Plus(hash.e, r.e))
  }

  // ----- the code

  /** `rotate`: (a << c) | (a >> (32 - c)). */
  function Rotate(a: Word, c: nat): Word
    requires c <= 32
  {
    Or(ShiftLeft(a, c), ShiftRight(a, 32 - c))
  }

  function F1(b: Word, c: Word, d: Word): Word { Xor(d, And(b, Xor(c, d))) }

  function F2(b: Word, c: Word, d: Word): Word { Xor(Xor(b, c), d) }

  function F3(b: Word, c: Word, d: Word): Word { Or(Or(And(b, c), And(b, d)), And(c, d)) }

  /** The mix function each of the four loops uses. */
  function F(q: nat, b: Word, c: Word, d: Word): Word {
    if q == 0 then F1(b, c, d) else if q == 2 then F3(b, c, d) else F2(b, c, d)
  }

  lemma MixForms(q: nat, b: Word, c: Word, d: Word)
    ensures F(q, b, c, d) == Mix(q, b, c, d)
  {
    ChForms(b, c, d);
    MajorityForms(b, c, d);
    hide Ch, Maj, F1, F3;
  }

  lemma ChForms(b: Word, c: Word, d: Word)
    ensures F1(b, c, d) == Ch(b, c, d)
  {
  }

  lemma MajorityForms(b: Word, c: Word, d: Word)
    ensures F3(b, c, d) == Maj(b, c, d)
  {
  }

  lemma SumForms(e: Word, r: Word, f: Word, w: Word, k: Word)
    ensures Plus(e, Plus(Plus(Plus(r, f), w), k)) == Plus(Plus(Plus(Plus(r, f), e), k), w)
  {
    var s := Plus(r, f);
    PlusRegroup(s, w, k);
    PlusSwap(w, k);
    PlusRegroup(e, s, Plus(k, w));
    PlusSwap(e, s);
    PlusRegroup(Plus(s, e), k, w);
    hide Plus;
  }

  /** One line of the code with its registers in the order of the standard. */
  lemma OneStep(r: Registers, q: nat, w: Word)
    ensures Round(r, q, w) == Registers(
      Plus(r.e, Plus(Plus(Plus(Rotate(r.a, 5), F(q, r.b, r.c, r.d)), w), Constant(q))),
      r.a, Rotate(r.b, 30), r.c, r.d)
  {
    RotateIsLeft(r.a, 5);
    RotateIsLeft(r.b, 30);
    MixForms(q, r.b, r.c, r.d);
    SumForms(r.e, RotateLeft(r.a, 5), Mix(q, r.b, r.c, r.d), w, Constant(q));
    hide Plus, RotateLeft, Mix, F, Constant;
  }

  lemma FiveRounds(r: Registers, block: Bytes, t: nat, q: nat)
    requires |block| == 64 && 20 * q <= t && t + 5 <= 20 * q + 20
    ensures Rounds(r, block, t + 5) == Round(Round(Round(Round(Round(Rounds(r, block, t), q, W(block, t)),
      q, W(block, t + 1)), q, W(block, t + 2)), q, W(block, t + 3)), q, W(block, t + 4))
  {
    hide Round, W;
    assert forall k :: t <= k < t + 5 ==> Rounds(r, block, k + 1) == Round(Rounds(r, block, k), q, W(block, k)) by {
      assert forall k :: t <= k < t + 5 ==> k / 20 == q;
    }
  }

  lemma NoRounds(r: Registers, block: Bytes)
    requires |block| == 64
    ensures Rounds(r, block, 0) == r
  {
  }

  /** The array holds the first `i` words of the schedule. */
  ghost predicate Scheduled(words: array<Word>, block: Bytes, i: nat)
    requires |block| == 64
    reads words
  {
    words.Length == 80 && i <= 80 && forall k :: 0 <= k < i ==> words[k] == W(block, k)
  }

  /** The body of the loops: five lines, after which the registers are back in place. */
  method FiveSteps(r: Registers, words: array<Word>, q: nat, offset: nat, ghost hash: Registers, ghost block: Bytes)
      returns (r': Registers)
    requires |block| == 64 && Scheduled(words, block, 80) && r == Rounds(hash, block, offset)
    requires 20 * q <= offset && offset + 5 <= 20 * q + 20 <= 80
    ensures r' == Rounds(hash, block, offset + 5)
  {
    FiveRounds(hash, block, offset, q);
    hide Round, Rounds, W, Constant, F, Plus, Rotate;
    var a, b, c, d, e, k := r.a, r.b, r.c, r.d, r.e, Constant(q);
    OneStep(Registers(a, b, c, d, e), q, words[offset]);
    e := Plus(e, Plus(Plus(Plus(Rotate(a, 5), F(q, b, c, d)), words[offset]), k)); b := Rotate(b, 30);
    OneStep(Registers(e, a, b, c, d), q, words[offset + 1]);
    d := Plus(d, Plus(Plus(Plus(Rotate(e, 5), F(q, a, b, c)), words[offset + 1]), k)); a := Rotate(a, 30);
    OneStep(Registers(d, e, a, b, c), q, words[offset + 2]);
    c := Plus(c, Plus(Plus(Plus(Rotate(d, 5), F(q, e, a, b)), words[offset + 2]), k)); e := Rotate(e, 30);
    OneStep(Registers(c, d, e, a, b), q, words[offset + 3]);
    b := Plus(b, Plus(Plus(Plus(Rotate(c, 5), F(q, d, e, a)), words[offset + 3]), k)); d := Rotate(d, 30);
    OneStep(Registers(b, c, d, e, a), q, words[offset + 4]);
    a := Plus(a, Plus(Plus(Plus(Rotate(b, 5), F(q, c, d, e)), words[offset + 4]), k)); c := Rotate(c, 30);
    r' := Registers(a, b, c, d, e);
  }

  /** One of the four loops over five lines. */
  method TwentySteps(r: Registers, words: array<Word>, q: nat, ghost hash: Registers, ghost block: Bytes)
      returns (r': Registers)
    requires |block| == 64 && Scheduled(words, block, 80) && q < 4 && r == Rounds(hash, block, 20 * q)
    ensures r' == Rounds(hash, block, 20 * q + 20)
  {
    hide Rounds, W;
    r' := r;
    var i := 4 * q;
    while i < 4 * q + 4
      invariant 4 * q <= i <= 4 * q + 4 && r' == Rounds(hash, block, 5 * i)
    {
      r' := FiveSteps(r', words, q, 5 * i, hash, block);
      i := i + 1;
    }
  }

  lemma RotateForms(x: Word)
    ensures Rotate(x, 1) == RotateLeft(x, 1)
  {
    RotateIsLeft(x, 1);
  }

  /** `SHA1::processBlock`. */
  method ProcessBlock(hash: Registers, data: Bytes) returns (hash': Registers)
    requires |data| == 64
    ensures hash' == Compress(hash, data)
  {
    hide Rounds, Plus, Swap, ReadWord, BigEndian, RotateLeft, Rotate, Xor;
    var words := new Word[80](_ => ToWord(0));
    var i := 0;
    while i < 16
      invariant 0 <= i <= 16 && Scheduled(words, data, i)
    {
      SwapIsBigEndian(data[4 * i..4 * i + 4]);
      words[i] := Swap(ReadWord(data[4 * i..4 * i + 4]));
      i := i + 1;
    }
    while i < 80
      invariant 16 <= i <= 80 && Scheduled(words, data, i)
    {
      RotateForms(Xor(Xor(Xor(words[i - 3], words[i - 8]), words[i - 14]), words[i - 16]));
      words[i] := Rotate(Xor(Xor(Xor(words[i - 3], words[i - 8]), words[i - 14]), words[i - 16]), 1);
      i := i + 1;
    }
    NoRounds(hash, data);
    var r := TwentySteps(hash, words, 0, hash, data);
    r := TwentySteps(r, words, 1, hash, data);
    r := TwentySteps(r, words, 2, hash, data);
    r := TwentySteps(r, words, 3, hash, data);
    hash' := Registers(Plus(hash.a, r.a), Plus(hash.b, r.b), Plus(hash.c, r.c), Plus(hash.d, r.d), Plus(hash.e, r.e));
  }
}
