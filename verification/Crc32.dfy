/**
 CRC-32 by slicing-by-8 (`CRC32::add`) refines the bit-at-a-time reflected CRC-32 of section 8 of RFC 1952.

 Registers are kept in a one-field datatype, so that proofs about many steps reason with the laws of `Xor` and
 not with 32 bits at a time; only the one-step laws look inside.
 */
module Crc32 {

  datatype Word = Word(bits: bv32)

  const ZERO := Word(0)

  function Xor(x: Word, y: Word): Word { Word(x.bits ^ y.bits) }

  function Not(x: Word): Word { Word(!x.bits) }

  function LowByte(x: Word): Word { Word(x.bits & 0xFF) }

  /** x >> 8. */
  function Down(x: Word): Word { Word(x.bits >> 8) }

  function Byte(b: bv8): Word { Word(b as bv32) }

  /** x >> 1. */
  function Half(x: Word): Word { Word(x.bits >> 1) }

  /** The reflected polynomial, if the bit shifted out is set. */
  function Feedback(x: Word): Word { Word((x.bits & 1) * 0xEDB8_8320) }

  /** One bit of the table generator. */
  function Shift(crc: Word): Word { Xor(Half(crc), Feedback(crc)) }

  /** Eight bits. */
  function Eight(crc: Word): Word {
    Shift(Shift(Shift(Shift(Shift(Shift(Shift(Shift(crc))))))))
  }

  function EightTimes(n: nat, crc: Word): Word {
    if n == 0 then crc else Eight(EightTimes(n - 1, crc))
  }

  /** The specification: one byte, one bit at a time. */
  function AddByte(crc: Word, b: bv8): Word {
    Eight(Xor(crc, Byte(b)))
  }

  function AddBytes(crc: Word, data: seq<bv8>): Word
    decreases |data|
  {
    if data == [] then crc else AddBytes(AddByte(crc, data[0]), data[1..])
  }

  /** What `add` does to `m_hash`, which holds the complement of the register. */
  function Update(hash: Word, data: seq<bv8>): Word {
    Not(AddBytes(Not(hash), data))
  }

  /** The table `crc32Lookup[k]`, by its generator recurrence. */
  function Lookup(k: nat, i: Word): Word {
    if k == 0 then Eight(i)
    else Xor(Down(Lookup(k - 1, i)), Lookup(0, LowByte(Lookup(k - 1, i))))
  }

  // ----- laws of Xor

  lemma Swap(x: Word, y: Word)
    ensures Xor(x, y) == Xor(y, x)
  {
  }

  lemma Regroup(x: Word, y: Word, z: Word)
    ensures Xor(Xor(x, y), z) == Xor(x, Xor(y, z))
  {
  }

  lemma NotTwice(x: Word)
    ensures Not(Not(x)) == x
  {
  }

  // ----- linearity over GF(2)

  lemma HalfLinear(x: Word, y: Word)
    ensures Half(Xor(x, y)) == Xor(Half(x), Half(y))
  {
  }

  lemma FeedbackLinear(x: Word, y: Word)
    ensures Feedback(Xor(x, y)) == Xor(Feedback(x), Feedback(y))
  {
  }

  lemma Interchange(a: Word, b: Word, c: Word, d: Word)
    ensures Xor(Xor(a, c), Xor(b, d)) == Xor(Xor(a, b), Xor(c, d))
  {
    hide Xor;
    Regroup(a, c, Xor(b, d));
    Regroup(c, b, d);
    Swap(c, b);
    Regroup(b, c, d);
    Regroup(a, b, Xor(c, d));
  }

  lemma ShiftLinear(x: Word, y: Word)
    ensures Shift(Xor(x, y)) == Xor(Shift(x), Shift(y))
  {
    hide Xor, Half, Feedback;
    HalfLinear(x, y);
    FeedbackLinear(x, y);
    Interchange(Half(x), Feedback(x), Half(y), Feedback(y));
  }

  lemma EightLinear(x: Word, y: Word)
    ensures Eight(Xor(x, y)) == Xor(Eight(x), Eight(y))
  {
    hide Shift, Xor;
    var x1, y1 := Shift(x), Shift(y);
    var x2, y2 := Shift(x1), Shift(y1);
    var x3, y3 := Shift(x2), Shift(y2);
    var x4, y4 := Shift(x3), Shift(y3);
    var x5, y5 := Shift(x4), Shift(y4);
    var x6, y6 := Shift(x5), Shift(y5);
    var x7, y7 := Shift(x6), Shift(y6);
    ShiftLinear(x, y);
    ShiftLinear(x1, y1);
    ShiftLinear(x2, y2);
    ShiftLinear(x3, y3);
    ShiftLinear(x4, y4);
    ShiftLinear(x5, y5);
    ShiftLinear(x6, y6);
    ShiftLinear(x7, y7);
  }

  lemma {:induction false} EightTimesLinear(n: nat, x: Word, y: Word)
    ensures EightTimes(n, Xor(x, y)) == Xor(EightTimes(n, x), EightTimes(n, y))
  {
    hide Eight, Xor;
    if n > 0 {
      EightTimesLinear(n - 1, x, y);
      EightLinear(EightTimes(n - 1, x), EightTimes(n - 1, y));
    }
  }

  lemma {:induction false} EightTimesAdd(m: nat, n: nat, x: Word)
    ensures EightTimes(m + n, x) == EightTimes(m, EightTimes(n, x))
    decreases m
  {
    hide Eight;
    if m > 0 {
      EightTimesAdd(m - 1, n, x);
    }
  }

  // ----- bits that are not yet at the bottom only move down

  predicate Even(x: Word) { x.bits & 1 == 0 }

  lemma EvenShifts(x: Word)
    requires Even(x)
    ensures Shift(x) == Half(x)
  {
  }

  lemma HalvesEven(x: Word)
    requires LowByte(x) == ZERO
    ensures Even(x) && Even(Half(x)) && Even(Half(Half(x))) && Even(Half(Half(Half(x))))
  {
  }

  lemma HalvesEven2(x: Word)
    requires LowByte(x) == ZERO
    ensures Even(Half(Half(Half(Half(x)))))
    ensures Even(Half(Half(Half(Half(Half(x))))))
    ensures Even(Half(Half(Half(Half(Half(Half(x)))))))
    ensures Even(Half(Half(Half(Half(Half(Half(Half(x))))))))
  {
  }

  lemma HalvesDown(x: Word)
    ensures Half(Half(Half(Half(Half(Half(Half(Half(x)))))))) == Down(x)
  {
  }

  lemma EightMoves(x: Word)
    requires LowByte(x) == ZERO
    ensures Eight(x) == Down(x)
  {
    hide Shift, Half, Even, LowByte;
    HalvesEven(x);
    HalvesEven2(x);
    HalvesDown(x);
    var h1 := Half(x);
    var h2 := Half(h1);
    var h3 := Half(h2);
    var h4 := Half(h3);
    var h5 := Half(h4);
    var h6 := Half(h5);
    EvenShifts(x);
    EvenShifts(h1);
    EvenShifts(h2);
    EvenShifts(h3);
    EvenShifts(h4);
    EvenShifts(h5);
    EvenShifts(h6);
    EvenShifts(Half(h6));
  }

  // ----- tables

  /** x << 8. */
  function Up(x: Word): Word { Word(x.bits << 8) }

  predicate Fits(x: Word) { x.bits >> 24 == 0 }

  lemma UpDown(x: Word)
    requires Fits(x)
    ensures LowByte(Up(x)) == ZERO && Down(Up(x)) == x
  {
  }

  lemma SplitLowByte(x: Word)
    ensures Xor(Up(Down(x)), LowByte(x)) == x && Fits(Down(x))
  {
  }

  /** The table-driven byte step equals eight bit steps. */
  lemma TableStep(x: Word)
    ensures Xor(Down(x), Eight(LowByte(x))) == Eight(x)
  {
    hide Eight, Xor, Down, LowByte, Up, Fits;
    SplitLowByte(x);
    UpDown(Down(x));
    EightLinear(Up(Down(x)), LowByte(x));
    EightMoves(Up(Down(x)));
  }

  lemma {:induction false} LookupIsIterated(k: nat, i: Word)
    ensures Lookup(k, i) == EightTimes(k + 1, i)
    decreases k
  {
    hide Eight, Xor, Down, LowByte;
    if k == 0 {
      assert EightTimes(1, i) == Eight(EightTimes(0, i));
    } else {
      LookupIsIterated(k - 1, i);
      TableStep(Lookup(k - 1, i));
    }
  }

  /** The tables are linear, which is what slicing rests on. */
  lemma LookupLinear(k: nat, x: Word, y: Word)
    ensures Lookup(k, Xor(x, y)) == Xor(Lookup(k, x), Lookup(k, y))
  {
    hide Lookup, EightTimes, Xor;
    LookupIsIterated(k, x);
    LookupIsIterated(k, y);
    LookupIsIterated(k, Xor(x, y));
    EightTimesLinear(k + 1, x, y);
  }

  /** The eight entries of the source's first table that, by linearity, determine the other 248. */
  lemma TableBasis()
    ensures Lookup(0, Word(0x01)) == Word(0x7707_3096) && Lookup(0, Word(0x02)) == Word(0xEE0E_612C)
    ensures Lookup(0, Word(0x04)) == Word(0x076D_C419) && Lookup(0, Word(0x08)) == Word(0x0EDB_8832)
    ensures Lookup(0, Word(0x10)) == Word(0x1DB7_1064) && Lookup(0, Word(0x20)) == Word(0x3B6E_20C8)
    ensures Lookup(0, Word(0x40)) == Word(0x76DC_4190) && Lookup(0, Word(0x80)) == Word(0xEDB8_8320)
  {
  }

  lemma ByteUnderXor(crc: Word, b: bv8)
    ensures Down(Xor(crc, Byte(b))) == Down(crc)
    ensures LowByte(Xor(crc, Byte(b))) == Xor(LowByte(crc), Byte(b))
  {
  }

  /** The step of the tail loop. */
  lemma TableByteStep(crc: Word, b: bv8)
    ensures Xor(Down(crc), Lookup(0, Xor(LowByte(crc), Byte(b)))) == AddByte(crc, b)
  {
    hide Eight, Xor, Down, LowByte, Byte;
    ByteUnderXor(crc, b);
    TableStep(Xor(crc, Byte(b)));
  }

  // ----- eight bytes at once

  lemma EightUp(x: Word)
    requires Fits(x)
    ensures Eight(Up(x)) == x
  {
    hide Eight, Up, Down, LowByte, Fits;
    UpDown(x);
    EightMoves(Up(x));
  }

  predicate IsByte(x: Word) { x.bits >> 8 == 0 }

  lemma BytesFit(x: Word)
    requires IsByte(x)
    ensures Fits(x) && Fits(Up(x)) && Fits(Up(Up(x)))
  {
  }

  /** The little-endian word with these bytes. */
  function Pack(b0: Word, b1: Word, b2: Word, b3: Word): Word {
    Xor(Xor(Xor(b0, Up(b1)), Up(Up(b2))), Up(Up(Up(b3))))
  }

  function Second(x: Word): Word { Word((x.bits >> 8) & 0xFF) }

  function Third(x: Word): Word { Word((x.bits >> 16) & 0xFF) }

  function Fourth(x: Word): Word { Word(x.bits >> 24) }

  lemma Unpack(x: Word)
    ensures x == Pack(LowByte(x), Second(x), Third(x), Fourth(x))
    ensures IsByte(LowByte(x)) && IsByte(Second(x)) && IsByte(Third(x)) && IsByte(Fourth(x))
  {
  }

  lemma ByteIsByte(b: bv8)
    ensures IsByte(Byte(b))
  {
  }

  lemma {:induction false} EightTimesUp(n: nat, x: Word)
    requires Fits(x)
    ensures EightTimes(n + 1, Up(x)) == EightTimes(n, x)
  {
    hide Eight, Up, Fits;
    EightUp(x);
    EightTimesAdd(n, 1, Up(x));
    assert EightTimes(1, Up(x)) == Eight(EightTimes(0, Up(x)));
  }

  /** A byte higher up in the word has that many fewer rounds to go. */
  lemma Spread(n: nat, b0: Word, b1: Word, b2: Word, b3: Word)
    requires IsByte(b0) && IsByte(b1) && IsByte(b2) && IsByte(b3)
    ensures EightTimes(n + 4, Pack(b0, b1, b2, b3))
         == Xor(Xor(Xor(EightTimes(n + 4, b0), EightTimes(n + 3, b1)), EightTimes(n + 2, b2)), EightTimes(n + 1, b3))
  {
    hide EightTimes, Xor, Up, Fits, IsByte;
    BytesFit(b1);
    BytesFit(b2);
    BytesFit(b3);
    EightTimesUp(n + 3, b1);
    EightTimesUp(n + 3, Up(b2));
    EightTimesUp(n + 2, b2);
    EightTimesUp(n + 3, Up(Up(b3)));
    EightTimesUp(n + 2, Up(b3));
    EightTimesUp(n + 1, b3);
    EightTimesLinear(n + 4, b0, Up(b1));
    EightTimesLinear(n + 4, Xor(b0, Up(b1)), Up(Up(b2)));
    EightTimesLinear(n + 4, Xor(Xor(b0, Up(b1)), Up(Up(b2))), Up(Up(Up(b3))));
  }

  /** Adding a byte after `n` rounds is adding it `n` bytes higher up before them. */
  lemma AddLater(n: nat, x: Word, b: Word, up: Word)
    requires EightTimes(n, up) == b
    ensures Eight(Xor(EightTimes(n, x), b)) == EightTimes(n + 1, Xor(x, up))
  {
    hide Eight, Xor;
    EightTimesLinear(n, x, up);
  }

  lemma FourBytes(crc: Word, b0: Word, b1: Word, b2: Word, b3: Word)
    requires IsByte(b0) && IsByte(b1) && IsByte(b2) && IsByte(b3)
    ensures Eight(Xor(Eight(Xor(Eight(Xor(Eight(Xor(crc, b0)), b1)), b2)), b3))
         == EightTimes(4, Xor(crc, Pack(b0, b1, b2, b3)))
  {
    hide Eight, Xor, Up, Fits, IsByte;
    BytesFit(b1);
    BytesFit(b2);
    BytesFit(b3);
    var x0 := Xor(crc, b0);
    var x1 := Xor(x0, Up(b1));
    var x2 := Xor(x1, Up(Up(b2)));
    EightTimesUp(0, b1);
    EightTimesUp(1, Up(b2));
    EightTimesUp(0, b2);
    EightTimesUp(2, Up(Up(b3)));
    EightTimesUp(1, Up(b3));
    EightTimesUp(0, b3);
    assert Eight(x0) == EightTimes(1, x0) by { assert EightTimes(1, x0) == Eight(EightTimes(0, x0)); }
    AddLater(1, x0, b1, Up(b1));
    AddLater(2, x1, b2, Up(Up(b2)));
    AddLater(3, x2, b3, Up(Up(Up(b3))));
    Regroup(crc, b0, Up(b1));
    Regroup(crc, Xor(b0, Up(b1)), Up(Up(b2)));
    Regroup(crc, Xor(Xor(b0, Up(b1)), Up(Up(b2))), Up(Up(Up(b3))));
  }

  /** The eight table look-ups of one pass of the main loop. */
  function Slice8(one: Word, two: Word): Word {
    Xor(Xor(Xor(Xor(Xor(Xor(Xor(
      Lookup(7, LowByte(one)),
      Lookup(6, Second(one))),
      Lookup(5, Third(one))),
      Lookup(4, Fourth(one))),
      Lookup(3, LowByte(two))),
      Lookup(2, Second(two))),
      Lookup(1, Third(two))),
      Lookup(0, Fourth(two)))
  }

  lemma SliceIsIterated(one: Word, two: Word)
    ensures Slice8(one, two) == Xor(EightTimes(8, one), EightTimes(4, two))
  {
    hide EightTimes, Xor, Lookup, Pack, IsByte, LowByte, Second, Third, Fourth;
    Unpack(one);
    Unpack(two);
    Spread(4, LowByte(one), Second(one), Third(one), Fourth(one));
    Spread(0, LowByte(two), Second(two), Third(two), Fourth(two));
    LookupIsIterated(7, LowByte(one));
    LookupIsIterated(6, Second(one));
    LookupIsIterated(5, Third(one));
    LookupIsIterated(4, Fourth(one));
    LookupIsIterated(3, LowByte(two));
    LookupIsIterated(2, Second(two));
    LookupIsIterated(1, Third(two));
    LookupIsIterated(0, Fourth(two));
    var a := Xor(Xor(Xor(Lookup(7, LowByte(one)), Lookup(6, Second(one))), Lookup(5, Third(one))), Lookup(4, Fourth(one)));
    var t3, t2, t1 := Lookup(3, LowByte(two)), Lookup(2, Second(two)), Lookup(1, Third(two));
    Regroup(a, t3, t2);
    Regroup(a, Xor(t3, t2), t1);
    Regroup(a, Xor(Xor(t3, t2), t1), Lookup(0, Fourth(two)));
  }

  /** A little-endian 32-bit load. */
  function Load(d: seq<bv8>): Word
    requires |d| == 4
  {
    Word((d[0] as bv32) | ((d[1] as bv32) << 8) | ((d[2] as bv32) << 16) | ((d[3] as bv32) << 24))
  }

  lemma LoadBits(a: bv8, b: bv8, c: bv8, d: bv8)
    ensures Word((a as bv32) | ((b as bv32) << 8) | ((c as bv32) << 16) | ((d as bv32) << 24))
         == Pack(Byte(a), Byte(b), Byte(c), Byte(d))
  {
  }

  lemma LoadIsPack(d: seq<bv8>)
    requires |d| == 4
    ensures Load(d) == Pack(Byte(d[0]), Byte(d[1]), Byte(d[2]), Byte(d[3]))
  {
    LoadBits(d[0], d[1], d[2], d[3]);
    hide Pack, Byte;
  }

  lemma AddFour(crc: Word, d: seq<bv8>)
    requires |d| == 4
    ensures AddBytes(crc, d) == EightTimes(4, Xor(crc, Load(d)))
  {
    hide Eight, Xor, Byte, IsByte, Pack, Load, EightTimes;
    LoadIsPack(d);
    ByteIsByte(d[0]);
    ByteIsByte(d[1]);
    ByteIsByte(d[2]);
    ByteIsByte(d[3]);
    FourBytes(crc, Byte(d[0]), Byte(d[1]), Byte(d[2]), Byte(d[3]));
    var d1 := d[1..];
    var d2 := d1[1..];
    var d3 := d2[1..];
    assert d3[1..] == [];
    var c1 := AddByte(crc, d[0]);
    var c2 := AddByte(c1, d1[0]);
    var c3 := AddByte(c2, d2[0]);
    assert AddBytes(crc, d) == AddBytes(c2, d2);
    assert AddBytes(c2, d2) == AddBytes(c3, d3);
    assert AddBytes(c3, d3) == AddBytes(AddByte(c3, d3[0]), []);
  }

  lemma {:induction false} AddBytesConcat(crc: Word, a: seq<bv8>, b: seq<bv8>)
    ensures AddBytes(crc, a + b) == AddBytes(AddBytes(crc, a), b)
    decreases |a|
  {
    hide AddByte;
    if a == [] {
      assert a + b == b;
    } else {
      assert (a + b)[0] == a[0] && (a + b)[1..] == a[1..] + b;
      AddBytesConcat(AddByte(crc, a[0]), a[1..], b);
    }
  }

  /** One pass of the main loop equals eight byte steps of eight bits each. */
  lemma SlicingStep(crc: Word, d: seq<bv8>)
    requires |d| == 8
    ensures Slice8(Xor(Load(d[..4]), crc), Load(d[4..])) == AddBytes(crc, d)
  {
    hide AddBytes, Xor, Load, EightTimes, Slice8;
    var one, two := Load(d[..4]), Load(d[4..]);
    Swap(one, crc);
    SliceIsIterated(Xor(one, crc), two);
    assert d == d[..4] + d[4..];
    AddBytesConcat(crc, d[..4], d[4..]);
    AddFour(crc, d[..4]);
    var mid := EightTimes(4, Xor(crc, one));
    AddFour(mid, d[4..]);
    EightTimesLinear(4, mid, two);
    EightTimesAdd(4, 4, Xor(crc, one));
  }

  /** The checksum does not depend on how the bytes are split over calls of `add`. */
  lemma UpdatesConcatenate(hash: Word, a: seq<bv8>, b: seq<bv8>)
    ensures Update(Update(hash, a), b) == Update(hash, a + b)
  {
    hide AddBytes, Not;
    NotTwice(AddBytes(Not(hash), a));
    AddBytesConcat(Not(hash), a, b);
  }

  class CRC32 {
    /** `m_hash`. */
    var hash: Word

    constructor ()
      ensures hash == ZERO
    {
      hash := ZERO;
    }

    method Reset()
      modifies this
      ensures hash == ZERO
    {
      hash := ZERO;
    }

    method Add(data: seq<bv8>)
      modifies this
      ensures hash == Update(old(hash), data)
    {
      hide Slice8, Lookup, Xor, Not, Down, LowByte, Byte, Load, AddByte;
      var crc := Not(hash);
      var i := 0;
      assert data[0..] == data;
      while |data| - i >= 8
        invariant 0 <= i <= |data|
        invariant AddBytes(crc, data[i..]) == AddBytes(Not(old(hash)), data)
      {
        var one := Xor(Load(data[i..i + 4]), crc);
        var two := Load(data[i + 4..i + 8]);
        ghost var d := data[i..i + 8];
        assert d[..4] == data[i..i + 4] && d[4..] == data[i + 4..i + 8];
        SlicingStep(crc, d);
        AddBytesConcat(crc, d, data[i + 8..]);
        assert d + data[i + 8..] == data[i..];
        crc := Slice8(one, two);
        i := i + 8;
      }
      while i < |data|
        invariant 0 <= i <= |data|
        invariant AddBytes(crc, data[i..]) == AddBytes(Not(old(hash)), data)
      {
        TableByteStep(crc, data[i]);
        assert data[i..][0] == data[i] && data[i..][1..] == data[i + 1..];
        crc := Xor(Down(crc), Lookup(0, Xor(LowByte(crc), Byte(data[i]))));
        i := i + 1;
      }
      assert data[i..] == [];
      hash := Not(crc);
    }
  }

  /** The object as it is used: any sequence of `add` calls after a reset. */
  method AddAll(crc: CRC32, pieces: seq<seq<bv8>>)
    modifies crc
    ensures crc.hash == Update(old(crc.hash), Joined(pieces))
  {
    hide Update;
    EmptyUpdate(crc.hash);
    for i := 0 to |pieces|
      invariant crc.hash == Update(old(crc.hash), Joined(pieces[..i]))
    {
      crc.Add(pieces[i]);
      UpdatesConcatenate(old(crc.hash), Joined(pieces[..i]), pieces[i]);
      assert pieces[..i + 1][..i] == pieces[..i];
    }
    assert pieces[..|pieces|] == pieces;
  }

  lemma EmptyUpdate(hash: Word)
    ensures Update(hash, []) == hash
  {
    NotTwice(hash);
    hide Not;
  }

  function Joined(pieces: seq<seq<bv8>>): seq<bv8>
    decreases |pieces|
  {
    if pieces == [] then [] else Joined(pieces[..|pieces| - 1]) + pieces[|pieces| - 1]
  }

  // ----- the complement, the polynomial, and the check value

  /** One step of section 8 of RFC 1952, on the number. */
  lemma ShiftIs(v: bv32)
    ensures Shift(Word(v)).bits == if v & 1 == 1 then (v >> 1) ^ 0xEDB8_8320 else v >> 1
  {
    FeedbackIs(v & 1);
    LowestBit(v);
    Unchanged(v >> 1);
  }

  lemma LowestBit(v: bv32)
    ensures v & 1 == 1 || v & 1 == 0
  {
  }

  lemma FeedbackIs(b: bv32)
    ensures b == 1 ==> b * 0xEDB8_8320 == 0xEDB8_8320
    ensures b == 0 ==> b * 0xEDB8_8320 == 0
  {
    if b == 1 {
      assert (1 as bv32) * 0xEDB8_8320 == 0xEDB8_8320;
    }
  }

  lemma Unchanged(v: bv32)
    ensures v ^ 0 == v
  {
  }

  /** The register starts and ends complemented. */
  lemma UpdateComplements(data: seq<bv8>)
    ensures Update(ZERO, data).bits == AddBytes(Word(0xFFFF_FFFF), data).bits ^ 0xFFFF_FFFF
  {
    assert Not(ZERO) == Word(0xFFFF_FFFF);
    hide AddBytes;
    ComplementIs(AddBytes(Word(0xFFFF_FFFF), data).bits);
  }

  lemma ComplementIs(v: bv32)
    ensures Not(Word(v)).bits == v ^ 0xFFFF_FFFF
  {
  }

  /** The check value of CRC-32: that of the digits from 1 to 9. */
  lemma CheckValue()
    ensures Update(ZERO, [0x31, 0x32, 0x33, 0x34, 0x35, 0x36, 0x37, 0x38, 0x39]) == Word(0xCBF4_3926)
  {
    var data: seq<bv8> := [0x31, 0x32, 0x33, 0x34, 0x35, 0x36, 0x37, 0x38, 0x39];
    CheckRegisters();
    hide AddByte, AddBytes;
    FirstByte(Word(0xFFFF_FFFF), data, 0);
    FirstByte(Word(0x7C23_1048), data, 1);
    FirstByte(Word(0xB0AC_BB32), data, 2);
    FirstByte(Word(0x77B7_9C2D), data, 3);
    FirstByte(Word(0x641C_1F5C), data, 4);
    FirstByte(Word(0x340A_C5E3), data, 5);
    FirstByte(Word(0xF68D_2C9E), data, 6);
    FirstByte(Word(0xAFFC_9660), data, 7);
    FirstByte(Word(0x651F_2550), data, 8);
    NoBytes(Word(0x340B_C6D9));
    assert data[0..] == data && data[9..] == [];
    UpdateComplements(data);
    CheckedComplement();
  }

  lemma FirstByte(crc: Word, data: seq<bv8>, i: nat)
    requires i < |data|
    ensures AddBytes(crc, data[i..]) == AddBytes(AddByte(crc, data[i]), data[i + 1..])
  {
    assert data[i..][1..] == data[i + 1..];
  }

  lemma CheckedComplement()
    ensures 0x340B_C6D9 as bv32 ^ 0xFFFF_FFFF == 0xCBF4_3926
  {
  }

  lemma NoBytes(crc: Word)
    ensures AddBytes(crc, []) == crc
  {
  }

  lemma CheckRegisters()
    ensures AddByte(Word(0xFFFF_FFFF), 0x31) == Word(0x7C23_1048)
    ensures AddByte(Word(0x7C23_1048), 0x32) == Word(0xB0AC_BB32)
    ensures AddByte(Word(0xB0AC_BB32), 0x33) == Word(0x77B7_9C2D)
    ensures AddByte(Word(0x77B7_9C2D), 0x34) == Word(0x641C_1F5C)
    ensures AddByte(Word(0x641C_1F5C), 0x35) == Word(0x340A_C5E3)
    ensures AddByte(Word(0x340A_C5E3), 0x36) == Word(0xF68D_2C9E)
    ensures AddByte(Word(0xF68D_2C9E), 0x37) == Word(0xAFFC_9660)
    ensures AddByte(Word(0xAFFC_9660), 0x38) == Word(0x651F_2550)
    ensures AddByte(Word(0x651F_2550), 0x39) == Word(0x340B_C6D9)
  {
  }
}
