/** `SHA256`: the streaming digest is the digest of everything added since the last reset. */
module Sha256 {
  import opened Words
  import opened Sha256Block

  const SIZE: nat := 64

  const WRAP: nat := 0x1_0000_0000_0000_0000

  // ----- the standard

  /** Section 5.3.3. */
  function Initial(): Registers {
    Registers(ToWord(0x6A09_E667), ToWord(0xBB67_AE85), ToWord(0x3C6E_F372), ToWord(0xA54F_F53A),
              ToWord(0x510E_527F), ToWord(0x9B05_688C), ToWord(0x1F83_D9AB), ToWord(0x5BE0_CD19))
  }

  function Blocks(hash: Registers, data: Bytes): Registers
    requires |data| % SIZE == 0
    decreases |data|
  {
    if data == [] then hash
    else
      OneBlockLess(|data|);
      Blocks(Compress(hash, data[..SIZE]), data[SIZE..])
  }

  lemma OneBlockLess(n: nat)
    requires n > 0 && n % SIZE == 0
    ensures n >= SIZE && (n - SIZE) % SIZE == 0
  {
  }

  /** The lowest `k` bytes of a number, the most significant first. */
  function BytesOf(k: nat, n: nat): (b: Bytes)
    ensures |b| == k
  {
    if k == 0 then [] else BytesOf(k - 1, n / 0x100) + [n % 0x100]
  }

  /** A length in bits as a 64-bit number. */
  function Length(n: nat): (b: Bytes)
    ensures |b| == 8
  {
    BytesOf(8, n)
  }

  function Zeros(n: nat): Bytes { seq(n, i => 0) }

  /** The fewest zero bytes that make room for the length at the end of a block. */
  function ZerosAfter(length: nat): (n: nat)
    ensures (length + 1 + n + 8) % SIZE == 0 && n < SIZE
  {
    (119 - length % SIZE) % SIZE
  }

  /** Section 5.1.1. */
  function Padding(length: nat): (p: Bytes)
    ensures (length + |p|) % SIZE == 0
  {
    [128] + Zeros(ZerosAfter(length)) + Length(8 * length)
  }

  /** The digest of a message. */
  function Digest(message: Bytes): Registers {
    PaddingFits(message);
    Blocks(Initial(), message + Padding(|message|))
  }

  lemma PaddingFits(message: Bytes)
    ensures |message + Padding(|message|)| % SIZE == 0
  {
    hide *;
    var p := Padding(|message|);
    assert |message + p| == |message| + |p|;
  }

  // ----- laws

  lemma {:induction false} BlocksConcat(hash: Registers, a: Bytes, b: Bytes)
    requires |a| % SIZE == 0 && |b| % SIZE == 0
    ensures Blocks(hash, a + b) == Blocks(Blocks(hash, a), b)
    decreases |a|
  {
    hide Compress;
    if a == [] {
      assert a + b == b;
    } else {
      assert (a + b)[..SIZE] == a[..SIZE] && (a + b)[SIZE..] == a[SIZE..] + b;
      BlocksConcat(Compress(hash, a[..SIZE]), a[SIZE..], b);
    }
  }

  lemma OneBlock(hash: Registers, a: Bytes, b: Bytes)
    requires |a| % SIZE == 0 && |b| == SIZE
    ensures Blocks(hash, a + b) == Compress(Blocks(hash, a), b)
  {
    hide Compress;
    BlocksConcat(hash, a, b);
    assert b[..SIZE] == b && b[SIZE..] == [];
  }

  function Power(k: nat): nat {
    if k == 0 then 1 else 0x100 * Power(k - 1)
  }

  lemma {:induction false} BytesWrap(k: nat, n: nat, c: nat)
    ensures BytesOf(k, n + c * Power(k)) == BytesOf(k, n)
  {
    if k > 0 {
      var x := c * Power(k - 1);
      TimesPower(k, c);
      BytesWrap(k - 1, n / 0x100, c);
      hide Power;
      OneByteMore(n, x);
    }
  }

  lemma TimesPower(k: nat, c: nat)
    requires k > 0
    ensures c * Power(k) == 0x100 * (c * Power(k - 1))
  {
    var p := Power(k - 1);
    assert c * (0x100 * p) == 0x100 * (c * p);
  }

  lemma OneByteMore(n: nat, x: nat)
    ensures (n + 0x100 * x) / 0x100 == n / 0x100 + x && (n + 0x100 * x) % 0x100 == n % 0x100
  {
  }

  /** Only the length modulo 2^64 matters. */
  lemma LengthWraps(n: nat)
    ensures Length(n % WRAP) == Length(n)
  {
    assert Power(8) == WRAP by { assert Power(4) == 0x1_0000_0000; }
    hide Power;
    BytesWrap(8, n % WRAP, n / WRAP);
    assert n == n % WRAP + n / WRAP * WRAP by { hide *; }
  }

  /** The bytes of a length are what shifting and masking yields. */
  lemma LengthBytes(n: nat)
    ensures Length(n)[7] == n % 0x100 && Length(n)[6] == n / 0x100 % 0x100
    ensures Length(n)[5] == n / 0x1_0000 % 0x100 && Length(n)[4] == n / 0x100_0000 % 0x100
    ensures Length(n)[3] == n / 0x1_0000_0000 % 0x100 && Length(n)[2] == n / 0x100_0000_0000 % 0x100
    ensures Length(n)[1] == n / 0x1_0000_0000_0000 % 0x100 && Length(n)[0] == n / 0x100_0000_0000_0000 % 0x100
  {
    var a := n / 0x100;
    var b := a / 0x100;
    var c := b / 0x100;
    var d := c / 0x100;
    var e := d / 0x100;
    var f := e / 0x100;
    var g := f / 0x100;
    assert b == n / 0x1_0000;
    assert c == n / 0x100_0000;
    assert d == n / 0x1_0000_0000;
    assert e == n / 0x100_0000_0000;
    assert f == n / 0x1_0000_0000_0000;
    assert g == n / 0x100_0000_0000_0000;
    LastByte(7, n);
    LastByte(6, a);
    LastByte(5, b);
    LastByte(4, c);
    LastByte(3, d);
    LastByte(2, e);
    LastByte(1, f);
    LastByte(0, g);
    hide BytesOf;
  }

  lemma LastByte(k: nat, n: nat)
    ensures BytesOf(k + 1, n)[k] == n % 0x100
    ensures forall i :: 0 <= i < k ==> BytesOf(k + 1, n)[i] == BytesOf(k, n / 0x100)[i]
  {
  }

  /** Counting up by a block, which wraps at 64 bits. */
  lemma OneMoreBlock(n: nat)
    ensures (n % WRAP + SIZE) % WRAP == (n + SIZE) % WRAP
    ensures n % SIZE == 0 ==> (n + SIZE) % SIZE == 0
  {
    WholeBlocks(n);
    var q, m := n / WRAP, n % WRAP;
    assert n + SIZE == q * WRAP + (m + SIZE);
  }

  lemma WholeBlocks(n: nat)
    ensures n % SIZE == 0 ==> (n + SIZE) % SIZE == 0
  {
  }

  // ----- the code

  class SHA256 {
    /** Bytes in the blocks processed so far, as a 64-bit number. */
    var numBytes: nat
    var bufferSize: nat
    const buffer: array<Byte>
    var hash: Registers
    /** Everything added since the last reset. */
    ghost var total: Bytes

    /** How much of it has gone into `hash`; the rest is in the buffer. */
    ghost function Done(): int
      reads this
    {
      |total| - bufferSize
    }

    ghost predicate Buffered()
      reads this, buffer
    {
      && buffer.Length == SIZE && bufferSize <= SIZE && bufferSize <= |total| && Done() % SIZE == 0
      && numBytes == Done() % WRAP
      && buffer[..bufferSize] == total[Done()..]
    }

    ghost predicate Valid()
      reads this, buffer
    {
      Buffered() && bufferSize < SIZE && hash == Blocks(Initial(), total[..Done()])
    }

    constructor ()
      ensures Valid() && total == [] && fresh(buffer)
    {
      hide Initial, Compress;
      numBytes, bufferSize, total := 0, 0, [];
      hash := Initial();
      buffer := new Byte[SIZE](_ => 0);
    }

    method Reset()
      requires buffer.Length == SIZE
      modifies this
      ensures Valid() && total == []
    {
      hide Initial, Compress;
      numBytes, bufferSize, total := 0, 0, [];
      hash := Initial();
    }

    method Block(data: Bytes)
      requires |data| == SIZE
      modifies this`hash
      ensures hash == Compress(old(hash), data)
    {
      hide Compress;
      hash := ProcessBlock(hash, data);
    }

    /** `m_buffer[m_bufferSize++] = b`. */
    method Keep(b: Byte)
      requires Buffered() && bufferSize < SIZE
      modifies this`bufferSize, this`total, buffer
      ensures Buffered() && bufferSize == old(bufferSize) + 1 && total == old(total) + [b]
      ensures total[..Done()] == old(total[..Done()])
    {
      buffer[bufferSize] := b;
      bufferSize, total := bufferSize + 1, total + [b];
    }

    /** Processes a full block of the data. */
    method Take(data: Bytes)
      requires Valid() && bufferSize == 0 && |data| == SIZE
      modifies this`numBytes, this`hash, this`total
      ensures Valid() && total == old(total) + data
    {
      hide Initial, Compress, Blocks;
      OneMoreBlock(|total|);
      OneBlock(Initial(), total, data);
      assert total == total[..Done()] && total[Done()..] == buffer[..0] == [];
      Block(data);
      total := total + data;
      numBytes := (numBytes + SIZE) % WRAP;
      assert total == total[..Done()] && total[Done()..] == [];
    }

    /** Processes the buffer once it is full. */
    method Empty()
      requires Buffered() && bufferSize == SIZE && hash == Blocks(Initial(), total[..Done()])
      modifies this`numBytes, this`hash, this`bufferSize
      ensures Valid() && bufferSize == 0
    {
      hide Initial, Compress, Blocks;
      OneMoreBlock(Done());
      OneBlock(Initial(), total[..Done()], buffer[..]);
      assert total[..Done()] + buffer[..] == total;
      Block(buffer[..]);
      numBytes := (numBytes + SIZE) % WRAP;
      bufferSize := 0;
      assert total == total[..Done()];
    }

    static lemma OneMore(s: Bytes, data: Bytes, from: nat, current: nat)
      requires from <= current < |data|
      ensures s + data[from..current] + [data[current]] == s + data[from..current + 1]
    {
    }

    /** The bytes of `data` from `from` on that fit into the buffer. */
    method Fill(data: Bytes, from: nat) returns (current: nat)
      requires Buffered() && from <= |data|
      modifies this`bufferSize, this`total, buffer
      ensures Buffered() && from <= current <= |data| && (current == |data| || bufferSize == SIZE)
      ensures bufferSize == old(bufferSize) + (current - from)
      ensures total == old(total) + data[from..current] && total[..Done()] == old(total[..Done()])
    {
      current := from;
      ghost var was, done := total, total[..Done()];
      hide Initial, Compress, Blocks;
      while current < |data| && bufferSize < SIZE
        invariant from <= current <= |data| && Buffered() && total == was + data[from..current]
        invariant total[..Done()] == done && bufferSize == old(bufferSize) + (current - from)
      {
        OneMore(was, data, from, current);
        Keep(data[current]);
        current := current + 1;
      }
    }

    /** The full blocks of `data` from `from` on. */
    method TakeBlocks(data: Bytes, from: nat) returns (current: nat)
      requires Valid() && bufferSize == 0 && from <= |data|
      modifies this`numBytes, this`hash, this`total
      ensures Valid() && bufferSize == 0 && from <= current <= |data| && |data| - current < SIZE
      ensures total == old(total) + data[from..current]
    {
      hide Initial, Compress, Blocks;
      current := from;
      while |data| - current >= SIZE
        invariant from <= current <= |data| && Valid() && bufferSize == 0 && total == old(total) + data[from..current]
      {
        Take(data[current..current + SIZE]);
        assert data[from..current] + data[current..current + SIZE] == data[from..current + SIZE];
        current := current + SIZE;
      }
    }

    /** Completes a block that has been begun. */
    method Complete(data: Bytes) returns (current: nat)
      requires Valid()
      modifies this, buffer
      ensures Valid() && current <= |data| && (current == |data| || bufferSize == 0) && total == old(total) + data[..current]
    {
      hide Initial, Compress, Blocks;
      current := 0;
      if bufferSize > 0 {
        current := Fill(data, 0);
        assert data[0..current] == data[..current];
      } else {
        assert total == total + data[..0];
      }
      if bufferSize == SIZE {
        Empty();
      }
    }

    /** `SHA256::add`. */
    method Add(data: Bytes)
      requires Valid()
      modifies this, buffer
      ensures Valid() && total == old(total) + data
    {
      hide Initial, Compress, Blocks, Buffered;
      var current := Complete(data);
      if current == |data| {
        assert data[..current] == data;
        return;
      }
      var rest := TakeBlocks(data, current);
      assert data[..current] + data[current..rest] == data[..rest];
      var end := Fill(data, rest);
      assert data[..rest] + data[rest..end] == data;
    }

    /** `SHA256::processBuffer`: hashes the padded rest; only the buffer behind the kept bytes is overwritten. */
    method ProcessBuffer()
      requires Valid()
      modifies this`hash, buffer
      ensures hash == Digest(total) && buffer[..bufferSize] == old(buffer[..bufferSize])
    {
      hide Initial, Compress, Blocks, Length, Digest, ZerosAfter, Filled;
      var paddedLength := bufferSize * 8;
      paddedLength := paddedLength + 1;
      var lower11Bits := paddedLength % 512;
      if lower11Bits <= 448 {
        paddedLength := paddedLength + 448 - lower11Bits;
      } else {
        paddedLength := paddedLength + 512 + 448 - lower11Bits;
      }
      paddedLength := paddedLength / 8;
      PaddedLength(bufferSize);
      var msgBits := 8 * ((numBytes + bufferSize) % WRAP) % WRAP;
      SamePadding(|total|, bufferSize, numBytes);
      var extra := new Byte[SIZE](_ => 0);
      Pad(paddedLength, extra, msgBits);
      assert total == total[..Done()] + total[Done()..];
      PaddedBlocks(total[..Done()], total[Done()..], buffer[..], extra[..]);
      Block(buffer[..]);
      if paddedLength > SIZE {
        Block(extra[..]);
      }
    }

    /** The part of `processBuffer` that fills up the buffer and, if it does not suffice, the extra block. */
    method Pad(paddedLength: nat, extra: array<Byte>, msgBits: nat)
      requires buffer.Length == extra.Length == SIZE && extra != buffer && bufferSize < SIZE
      requires paddedLength == bufferSize + 1 + ZerosAfter(bufferSize) && paddedLength == if bufferSize < 56 then 56 else 120
      modifies buffer, extra
      ensures buffer[..bufferSize] == old(buffer[..bufferSize])
      ensures Filled(buffer[..], extra[..], old(buffer[..bufferSize]), Length(msgBits))
    {
      hide Length, ZerosAfter;
      // a full buffer has been processed, so the marker never goes into the extra block
      buffer[bufferSize] := 128;
      var i := bufferSize + 1;
      while i < SIZE
        invariant bufferSize + 1 <= i <= SIZE
        invariant buffer[..bufferSize] == old(buffer[..bufferSize]) && buffer[bufferSize] == 128
        invariant forall k :: bufferSize < k < i ==> buffer[k] == 0
      {
        buffer[i] := 0;
        i := i + 1;
      }
      ghost var filled := buffer[..];
      while i < paddedLength
        invariant buffer[..] == filled
        invariant SIZE <= i && (i <= paddedLength || i == SIZE)
        invariant forall k :: 0 <= k < i - SIZE ==> extra[k] == 0
      {
        extra[i - SIZE] := 0;
        i := i + 1;
      }
      if paddedLength < SIZE {
        StoreLength(buffer, paddedLength, msgBits);
      } else {
        StoreLength(extra, paddedLength - SIZE, msgBits);
      }
    }

    /** The eight byte-wise stores of the length. */
    static method StoreLength(to: array<Byte>, at: nat, msgBits: nat)
      requires at + 8 <= to.Length
      modifies to
      ensures forall k :: 0 <= k < 8 ==> to[at + k] == Length(msgBits)[k]
      ensures forall k :: 0 <= k < to.Length && !(at <= k < at + 8) ==> to[k] == old(to[k])
    {
      hide Length;
      LengthBytes(msgBits);
      to[at] := msgBits / 0x100_0000_0000_0000 % 0x100;
      to[at + 1] := msgBits / 0x1_0000_0000_0000 % 0x100;
      to[at + 2] := msgBits / 0x100_0000_0000 % 0x100;
      to[at + 3] := msgBits / 0x1_0000_0000 % 0x100;
      to[at + 4] := msgBits / 0x100_0000 % 0x100;
      to[at + 5] := msgBits / 0x1_0000 % 0x100;
      to[at + 6] := msgBits / 0x100 % 0x100;
      to[at + 7] := msgBits % 0x100;
    }

    /** `SHA256::getHash`: the digest so far; more may be added afterwards. */
    method GetHash() returns (digest: Registers)
      requires Valid()
      modifies this`hash, buffer
      ensures Valid() && digest == Digest(total)
    {
      hide Initial, Compress, Blocks, Digest;
      var oldHash := hash;
      ProcessBuffer();
      digest := hash;
      hash := oldHash;
    }
  }

  /** The message fills up to 56 bytes modulo 64. */
  lemma PaddedLength(size: nat)
    requires size < SIZE
    ensures var bits := size * 8 + 1;
      (if bits % 512 <= 448 then bits + 448 - bits % 512 else bits + 512 + 448 - bits % 512) / 8 == size + 1 + ZerosAfter(size)
    ensures size + 1 + ZerosAfter(size) == if size < 56 then 56 else 120
  {
    assert (size * 8 + 1) % 512 == size * 8 + 1;
    if size < 56 {
      assert (119 - size) % SIZE == 55 - size;
    } else {
      assert (119 - size) % SIZE == 119 - size;
    }
  }

  lemma BitsWrap(total: nat, size: nat)
    requires size <= total
    ensures 8 * (((total - size) % WRAP + size) % WRAP) % WRAP == 8 * total % WRAP
  {
    var a := total - size;
    var b := a % WRAP + size;
    var m, q := b % WRAP, b / WRAP + a / WRAP;
    assert a == a / WRAP * WRAP + a % WRAP;
    assert b == b / WRAP * WRAP + m;
    assert 8 * total == 8 * m + 8 * q * WRAP;
    ModWrap(8 * m, 8 * q);
  }

  lemma ModWrap(a: nat, k: nat)
    ensures (a + k * WRAP) % WRAP == a % WRAP
  {
  }

  /** Padding depends on the length of the kept rest only, and the length stored is right although it wraps. */
  lemma SamePadding(total: nat, size: nat, numBytes: nat)
    requires size < SIZE && size <= total && (total - size) % SIZE == 0 && numBytes == (total - size) % WRAP
    ensures ZerosAfter(total) == ZerosAfter(size)
    ensures Length(8 * ((numBytes + size) % WRAP) % WRAP) == Length(8 * total)
  {
    SameZeros(total, size);
    hide Length, ZerosAfter;
    BitsWrap(total, size);
    LengthWraps(8 * total);
  }

  lemma SameZeros(total: nat, size: nat)
    requires size < SIZE && size <= total && (total - size) % SIZE == 0
    ensures ZerosAfter(total) == ZerosAfter(size)
  {
    var q := (total - size) / SIZE;
    assert total == q * SIZE + size;
    assert total % SIZE == size;
  }

  /** The two blocks hold the rest of the message, the padding and the length, as far as that reaches. */
  ghost predicate Filled(first: Bytes, second: Bytes, rest: Bytes, length: Bytes) {
    var size, padded := |rest|, |rest| + 1 + ZerosAfter(|rest|);
    && |first| == |second| == SIZE && size < SIZE && |length| == 8
    && first[..size] == rest && first[size] == 128
    && if padded < SIZE then
         && (forall k :: size < k < padded ==> first[k] == 0)
         && (forall k :: 0 <= k < 8 && padded + k < SIZE ==> first[padded + k] == length[k])
       else
         && (forall k :: size < k < SIZE ==> first[k] == 0)
         && (forall k :: 0 <= k < padded - SIZE < SIZE ==> second[k] == 0)
         && (forall k :: 0 <= k < 8 && padded - SIZE + k < SIZE ==> second[padded - SIZE + k] == length[k])
  }

  lemma FilledBlocks(first: Bytes, second: Bytes, rest: Bytes, length: Bytes)
    requires Filled(first, second, rest, length)
    ensures rest + [128] + Zeros(ZerosAfter(|rest|)) + length ==
      if |rest| + 1 + ZerosAfter(|rest|) < SIZE then first else first + second
  {
    PaddedLength(|rest|);
    hide ZerosAfter;
    var p := rest + [128] + Zeros(ZerosAfter(|rest|)) + length;
    if |rest| + 1 + ZerosAfter(|rest|) < SIZE {
      assert |p| == SIZE && forall k :: 0 <= k < SIZE ==> p[k] == first[k];
    } else {
      assert |p| == 2 * SIZE;
      assert forall k :: 0 <= k < SIZE ==> p[k] == first[k];
      assert forall k :: 0 <= k < SIZE ==> p[SIZE + k] == second[k];
      assert p == first + second;
    }
  }

  /** They are the last blocks of the padded message. */
  lemma PaddedBlocks(done: Bytes, rest: Bytes, first: Bytes, second: Bytes)
    requires |rest| < SIZE && |done| % SIZE == 0 && ZerosAfter(|done + rest|) == ZerosAfter(|rest|)
    requires Filled(first, second, rest, Length(8 * |done + rest|))
    ensures |first| == |second| == SIZE
    ensures Digest(done + rest) ==
      var hash := Compress(Blocks(Initial(), done), first);
      if |rest| + 1 + ZerosAfter(|rest|) < SIZE then hash else Compress(hash, second)
  {
    hide Initial, Compress, Blocks, Length, ZerosAfter, Zeros, Digest;
    FilledBlocks(first, second, rest, Length(8 * |done + rest|));
    PaddedMessage(done, rest);
    if |rest| + 1 + ZerosAfter(|rest|) < SIZE {
      OneBlock(Initial(), done, first);
    } else {
      TwoBlocks(Initial(), done, first, second);
    }
  }

  lemma TwoBlocks(hash: Registers, done: Bytes, first: Bytes, second: Bytes)
    requires |done| % SIZE == 0 && |first| == |second| == SIZE
    ensures Blocks(hash, done + (first + second)) == Compress(Compress(Blocks(hash, done), first), second)
  {
    hide Blocks, Compress;
    assert done + (first + second) == done + first + second;
    assert |done + first| % SIZE == 0;
    OneBlock(hash, done, first);
    OneBlock(hash, done + first, second);
  }

  lemma PaddedMessage(done: Bytes, rest: Bytes)
    requires ZerosAfter(|done + rest|) == ZerosAfter(|rest|)
    requires |done| % SIZE == 0
    ensures var last := rest + [128] + Zeros(ZerosAfter(|rest|)) + Length(8 * |done + rest|);
      |done + last| % SIZE == 0 && Digest(done + rest) == Blocks(Initial(), done + last)
  {
    hide Length, ZerosAfter, Zeros, Blocks, Initial;
    var message := done + rest;
    var last := rest + [128] + Zeros(ZerosAfter(|rest|)) + Length(8 * |message|);
    assert message + Padding(|message|) == done + last;
  }
}
