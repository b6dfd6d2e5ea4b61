/** Chunked bodies (section 3.6.1 of RFC 2616): decoding inverts encoding. */
module HttpChunked {
  import opened HttpTypes
  import opened HttpStep
  import opened HttpRun
  import opened HttpInvariant
  import opened HttpNames

  predicate AllHex(h: string) { forall i :: 0 <= i < |h| ==> Unhex(h[i]) >= 0 }

  function HexValue(h: string): nat
    requires AllHex(h)
    decreases |h|
  {
    if h == "" then 0 else 16 * HexValue(h[..|h| - 1]) + Unhex(h[|h| - 1])
  }

  lemma HexDigit(c: char)
    requires Unhex(c) >= 0
    ensures Unhex(c) < 16 && c != CR
  {
  }

  lemma SizeFirst(q: Parser, ch: char)
    requires q.state.ChunkSizeStart? && Room(q, 1) && Unhex(ch) >= 0 && q.errno == OK
    ensures var o := Step(q, ch);
      !o.stop && o.events == [] && o.ps == q.(length := Unhex(ch), state := ChunkSize, nread := q.nread + 1)
  {
  }

  lemma SizeStep(q: Parser, ch: char)
    requires q.state.ChunkSize? && Room(q, 1) && Unhex(ch) >= 0 && q.errno == OK
    ensures var o := Step(q, ch);
      var t := AppendDigit(q.length, 16, Unhex(ch));
      if Overflows(q.length, t) then o.stop && o.ps.errno == INVALID_CONTENT_LENGTH
      else !o.stop && o.events == [] && o.ps == q.(length := t, nread := q.nread + 1)
  {
    HexDigit(ch);
    hide AppendDigit, Overflows, Unhex;
  }

  /** A chunk size line is read exactly if and only if its value is below 2^64 - 1. */
  lemma {:induction false} ChunkSizeIsExact(ps: Parser, tr: seq<Event>, h: string)
    requires ps.state.ChunkSizeStart? && ps.errno == OK && Room(ps, |h|) && h != "" && AllHex(h)
    ensures var r := Run(ps, tr, h);
      && (!r.stopped && r.ps.length == HexValue(h) <==> HexValue(h) < NO_LENGTH)
      && (!r.stopped ==>
            r.ps == ps.(state := ChunkSize, length := r.ps.length, nread := ps.nread + |h|)
            && r.ps.length < NO_LENGTH && r.trace == tr && r.consumed == |h|)
    decreases |h|
  {
    hide Step, AppendDigit, Overflows, Unhex, Run;
    if |h| == 1 {
      assert h == [h[0]] && h[..0] == "";
      assert HexValue(h) == 16 * HexValue(h[..0]) + Unhex(h[0]);
      HexDigit(h[0]);
      SizeFirst(ps, h[0]);
      RunOne(ps, tr, h[0]);
      PushNone(tr);
    } else {
      var u, ch := h[..|h| - 1], h[|h| - 1];
      assert h == u + [ch];
      ChunkSizeIsExact(ps, tr, u);
      RunConcat(ps, tr, u, [ch]);
      var r := Run(ps, tr, u);
      HexDigit(ch);
      if !r.stopped {
        SizeMore(r.ps, r.trace, ch);
      }
    }
  }

  /** One more digit. */
  lemma SizeMore(q: Parser, tr: seq<Event>, ch: char)
    requires q.state.ChunkSize? && Room(q, 1) && Unhex(ch) >= 0 && q.errno == OK && q.length < NO_LENGTH
    ensures var r, t := Run(q, tr, [ch]), 16 * q.length + Unhex(ch);
      && (!r.stopped && r.ps.length == t <==> t < NO_LENGTH)
      && (!r.stopped ==>
            r.ps == q.(length := r.ps.length, nread := q.nread + 1) && r.ps.length < NO_LENGTH && r.trace == tr && r.consumed == 1)
  {
    HexDigit(ch);
    SizeStep(q, ch);
    AppendExact(q.length, 16, Unhex(ch));
    hide Step, AppendDigit, Overflows, Unhex, Room;
    RunOne(q, tr, ch);
    PushNone(tr);
  }

  lemma HexSnoc(h: string, c: char)
    requires AllHex(h) && Unhex(c) >= 0
    ensures AllHex(h + [c]) && HexValue(h + [c]) == 16 * HexValue(h) + Unhex(c)
  {
    assert (h + [c])[..|h|] == h;
  }

  /** The overflow test strikes at the digit `h[k]`. */
  predicate HexStrikesAt(h: string, k: nat)
    requires AllHex(h) && k < |h|
  {
    Overflows(HexValue(h[..k]) % TWO_64, HexValue(h[..k + 1]) % TWO_64)
  }

  predicate HexStrikes(h: string)
    requires AllHex(h)
  {
    exists k :: 1 <= k < |h| && HexStrikesAt(h, k)
  }

  lemma HexStrikesSnoc(u: string, c: char)
    requires AllHex(u) && Unhex(c) >= 0
    ensures AllHex(u + [c]) && (HexStrikes(u + [c]) <==> HexStrikes(u) || (u != "" && HexStrikesAt(u + [c], |u|)))
  {
    hide HexValue, Unhex;
    var h := u + [c];
    forall k | 0 <= k < |u| ensures HexStrikesAt(h, k) <==> HexStrikesAt(u, k) {
      assert h[..k] == u[..k] && h[..k + 1] == u[..k + 1];
    }
  }

  /** What becomes of any chunk size: rejected exactly when the test strikes, stored modulo 2^64 otherwise. */
  lemma {:induction false} ChunkSizeIsModular(ps: Parser, tr: seq<Event>, h: string)
    requires ps.state.ChunkSizeStart? && ps.errno == OK && Room(ps, |h|) && h != "" && AllHex(h)
    ensures var r := Run(ps, tr, h);
      && (r.stopped <==> HexStrikes(h))
      && (if r.stopped then r.ps.errno == INVALID_CONTENT_LENGTH
          else r == Result(ps.(state := ChunkSize, length := HexValue(h) % TWO_64, nread := ps.nread + |h|), tr, |h|, false))
    decreases |h|
  {
    hide Step, AppendDigit, Overflows, Unhex, Run, HexStrikes;
    if |h| == 1 {
      OneHexDigit(h[0]);
      assert h == [h[0]];
      SizeFirst(ps, h[0]);
      RunOne(ps, tr, h[0]);
      PushNone(tr);
    } else {
      hide HexValue;
      var u, ch := h[..|h| - 1], h[|h| - 1];
      assert h == u + [ch];
      ChunkSizeIsModular(ps, tr, u);
      HexStrikesSnoc(u, ch);
      HexSnoc(u, ch);
      HexDigit(ch);
      RunConcat(ps, tr, u, [ch]);
      var r := Run(ps, tr, u);
      if !r.stopped {
        SizeStep(r.ps, ch);
        RunOne(r.ps, tr, ch);
        PushNone(tr);
        AppendWraps(HexValue(u), 16, Unhex(ch));
        assert h[..|u|] == u && h[..|u| + 1] == h;
      }
    }
  }

  lemma OneHexDigit(c: char)
    requires Unhex(c) >= 0
    ensures HexValue([c]) == Unhex(c) < TWO_64 && !HexStrikes([c])
  {
    HexDigit(c);
    assert [c][..0] == "";
  }

  /** So every size from 2^64 - 1 up to a fifteenth above 2^64 is rejected. */
  lemma SlightExcessIsRejected(ps: Parser, tr: seq<Event>, h: string)
    requires ps.state.ChunkSizeStart? && ps.errno == OK && Room(ps, |h|)
    requires AllHex(h) && NO_LENGTH <= HexValue(h) && 15 * HexValue(h) < 16 * NO_LENGTH
    ensures Run(ps, tr, h).stopped && Run(ps, tr, h).ps.errno == INVALID_CONTENT_LENGTH
  {
    var u, ch := h[..|h| - 1], h[|h| - 1];
    assert h == u + [ch];
    HexDigit(ch);
    HexSnoc(u, ch);
    hide Unhex, AllHex;
    StrikesInTime(HexValue(u), 16, Unhex(ch));
    assert u != "" && h[..|u|] == u && h[..|u| + 1] == h;
    assert HexValue(u) % TWO_64 == HexValue(u);
    assert HexStrikesAt(h, |u|);
    ChunkSizeIsModular(ps, tr, h);
  }

  /** Bytes from 0x80 on are digits 0: one of them alone is the size of a last chunk. */
  lemma HighBytesAreZeros(ps: Parser, tr: seq<Event>, h: string)
    requires ps.state.ChunkSizeStart? && ps.errno == OK && Room(ps, |h|) && h != ""
    requires forall i :: 0 <= i < |h| ==> 0x80 <= h[i] as int < 0x100
    ensures Run(ps, tr, h) == Result(ps.(state := ChunkSize, length := 0, nread := ps.nread + |h|), tr, |h|, false)
  {
    HighBytesMeanZero(h);
    hide Run, HexValue, AllHex;
    ChunkSizeIsExact(ps, tr, h);
  }

  lemma {:induction false} HighBytesMeanZero(h: string)
    requires forall i :: 0 <= i < |h| ==> 0x80 <= h[i] as int < 0x100
    ensures AllHex(h) && HexValue(h) == 0
    decreases |h|
  {
    if h != "" {
      HighBytesMeanZero(h[..|h| - 1]);
    }
  }

  /** `n` digits 'F'. */
  function Effs(n: nat): (s: string)
    ensures |s| == n && AllHex(s)
  {
    if n == 0 then "" else Effs(n - 1) + "F"
  }

  lemma EffIsFifteen()
    ensures Unhex('F') == 15
  {
  }

  lemma {:induction false} EffsValue(n: nat)
    ensures AllHex("1" + Effs(n)) && HexValue("1" + Effs(n)) == 2 * Power16(n) - 1
  {
    if n == 0 {
      HexSnoc("", '1');
      assert "1" + Effs(0) == "" + ['1'];
    } else {
      EffsValue(n - 1);
      HexSnoc("1" + Effs(n - 1), 'F');
      hide Unhex, AllHex, HexValue;
      assert Unhex('F') == 15 by { EffIsFifteen(); }
      assert "1" + Effs(n) == "1" + Effs(n - 1) + ['F'];
    }
  }

  /** A larger one is not always rejected: "1", fifteen times 'F' and "0" are accepted as a size of 2^64 - 16. */
  lemma ChunkSizeMayWrap(ps: Parser, tr: seq<Event>)
    requires ps.state.ChunkSizeStart? && ps.errno == OK && Room(ps, 17)
    ensures var h := "1" + Effs(15) + "0";
      var r := Run(ps, tr, h);
      && AllHex(h) && HexValue(h) == 0x1_FFFF_FFFF_FFFF_FFF0 && !r.stopped && r.ps.length == 0xFFFF_FFFF_FFFF_FFF0
  {
    hide Step, Run, HexValue, AllHex, Effs;
    var u := "1" + Effs(15);
    EffsValue(15);
    assert Power16(15) == 0x1000_0000_0000_0000 by {
      assert Power16(5) == 0x10_0000;
      assert Power16(10) == 0x10_0000 * 0x10_0000;
    }
    ChunkSizeIsExact(ps, tr, u);
    var q := Run(ps, tr, u).ps;
    SizeStep(q, '0');
    HexSnoc(u, '0');
    RunSnoc(ps, tr, u, '0');
  }

  /** One chunk as it may appear on the wire. */
  datatype Chunk = Chunk(size: string, extension: string, data: string)

  predicate GoodExtension(e: string) {
    e != "" ==> (e[0] == ';' || e[0] == ' ') && CR !in e
  }

  predicate GoodChunk(c: Chunk) {
    && c.size != "" && AllHex(c.size) && GoodExtension(c.extension)
    && |c.size| + |c.extension| + 2 <= MAX_HEADER_SIZE
    && c.data != "" && HexValue(c.size) == |c.data| < NO_LENGTH
  }

  function Wire(c: Chunk): string {
    c.size + c.extension + "\r\n" + c.data + "\r\n"
  }

  lemma ExtensionStep(q: Parser, ch: char)
    requires Room(q, 1) && q.errno == OK && ch != CR
    requires q.state.ChunkParameters? || (q.state.ChunkSize? && (ch == ';' || ch == ' '))
    ensures var o := Step(q, ch);
      !o.stop && o.events == [] && o.ps == q.(state := ChunkParameters, nread := q.nread + 1)
  {
  }

  lemma {:induction false} ExtensionRun(q: Parser, tr: seq<Event>, e: string)
    requires Room(q, |e|) && q.errno == OK && q.state.ChunkParameters? && CR !in e
    ensures Run(q, tr, e) == Result(q.(nread := q.nread + |e|), tr, |e|, false)
    decreases |e|
  {
    hide Step;
    if e != "" {
      ExtensionStep(q, e[0]);
      PushNone(tr);
      ExtensionRun(q.(nread := q.nread + 1), tr, e[1..]);
    }
  }

  lemma LineEnd(q: Parser)
    requires Room(q, 2) && q.errno == OK && (q.state.ChunkSize? || q.state.ChunkParameters?)
    ensures var o := Step(q, CR);
      && !o.stop && o.events == []
      && var o' := Step(o.ps, LF);
         !o'.stop && o'.events == []
         && o'.ps == if q.length == 0 then q.(nread := 0, flags := q.flags.(trailing := true), state := HeaderFieldStart)
                     else q.(nread := 0, state := ChunkData)
  {
    assert Step(q, CR).ps == q.(nread := q.nread + 1, state := ChunkSizeAlmostDone);
  }

  /** The line before the data: size, extension, line break. */
  lemma SizeLine(ps: Parser, tr: seq<Event>, size: string, e: string)
    requires ps.state.ChunkSizeStart? && ps.errno == OK && ps.nread == 0
    requires size != "" && AllHex(size) && GoodExtension(e) && |size| + |e| + 2 <= MAX_HEADER_SIZE
    requires HexValue(size) < NO_LENGTH
    ensures var n := HexValue(size);
      Run(ps, tr, size + e + "\r\n")
      == Result(if n == 0 then ps.(length := 0, flags := ps.flags.(trailing := true), state := HeaderFieldStart)
                else ps.(length := n, state := ChunkData), tr, |size| + |e| + 2, false)
  {
    hide Step, HexValue, AllHex;
    ChunkSizeIsExact(ps, tr, size);
    var q := Run(ps, tr, size).ps;
    var q' := q;
    if e != "" {
      assert e == [e[0]] + e[1..];
      ExtensionStep(q, e[0]);
      q' := Step(q, e[0]).ps;
      RunOne(q, tr, e[0]);
      PushNone(tr);
      ExtensionRun(q', tr, e[1..]);
      RunConcat(q, tr, [e[0]], e[1..]);
      q' := q'.(nread := q'.nread + |e| - 1);
    }
    assert Run(q, tr, e) == Result(q', tr, |e|, false);
    RunConcat(ps, tr, size, e);
    LineEnd(q');
    RunQuietPair(q', tr, CR, LF);
    assert "\r\n" == [CR, LF];
    RunConcat(ps, tr, size + e, "\r\n");
  }

  lemma DataEnd(q: Parser)
    requires q.state.ChunkDataAlmostDone? && q.errno == OK
    ensures var o := Step(q, CR);
      && !o.stop && o.events == []
      && var o' := Step(o.ps, LF);
         !o'.stop && o'.events == [] && o'.ps == q.(nread := 0, state := ChunkSizeStart)
  {
    assert Step(q, CR).ps == q.(state := ChunkDataDone);
  }

  /** The parser is back where it was, and has reported exactly the data. */
  lemma ChunkRun(ps: Parser, tr: seq<Event>, c: Chunk)
    requires ps.state.ChunkSizeStart? && Legal(ps) && GoodChunk(c)
    ensures Run(ps, tr, Wire(c)) == Result(ps.(length := 0), Push(tr, Data(Body, c.data)), |Wire(c)|, false)
  {
    hide Step, HexValue, AllHex, Push;
    SizeLine(ps, tr, c.size, c.extension);
    var head := c.size + c.extension + "\r\n";
    var q := ps.(length := |c.data|, state := ChunkData);
    assert Legal(q);
    BulkBody(q, tr, c.data);
    RunConcat(ps, tr, head, c.data);
    var q' := q.(length := 0, state := ChunkDataAlmostDone);
    var tr' := Push(tr, Data(Body, c.data));
    DataEnd(q');
    RunQuietPair(q', tr', CR, LF);
    assert "\r\n" == [CR, LF];
    RunConcat(ps, tr, head + c.data, "\r\n");
    assert Wire(c) == head + c.data + "\r\n";
  }

  function Encoded(cs: seq<Chunk>): string
    decreases |cs|
  {
    if cs == [] then "" else Wire(cs[0]) + Encoded(cs[1..])
  }

  function Contents(cs: seq<Chunk>): string
    decreases |cs|
  {
    if cs == [] then "" else cs[0].data + Contents(cs[1..])
  }

  function PushBody(tr: seq<Event>, s: string): seq<Event> {
    if s == "" then tr else Push(tr, Data(Body, s))
  }

  lemma {:induction false} ChunksRun(ps: Parser, tr: seq<Event>, cs: seq<Chunk>)
    requires ps.state.ChunkSizeStart? && Legal(ps)
    requires forall i :: 0 <= i < |cs| ==> GoodChunk(cs[i])
    ensures var r := Run(ps, tr, Encoded(cs));
      && !r.stopped && r.consumed == |Encoded(cs)| && r.trace == PushBody(tr, Contents(cs))
      && (cs == [] ==> r.ps == ps) && (cs != [] ==> r.ps == ps.(length := 0))
    decreases |cs|
  {
    hide Step, Legal, Push, GoodChunk, Wire;
    if cs != [] {
      var c := cs[0];
      ChunkRun(ps, tr, c);
      assert Legal(ps.(length := 0)) by { LegalZero(ps); }
      var tr' := Push(tr, Data(Body, c.data));
      ChunksRun(ps.(length := 0), tr', cs[1..]);
      RunConcat(ps, tr, Wire(c), Encoded(cs[1..]));
      PushJoins(tr, Body, c.data, Contents(cs[1..]));
      assert c.data + "" == c.data;
      assert c.data != "" by { GoodData(c); }
    }
  }

  lemma LegalZero(ps: Parser)
    requires ps.state.ChunkSizeStart? && Legal(ps)
    ensures Legal(ps.(length := 0))
  {
  }

  lemma GoodData(c: Chunk)
    requires GoodChunk(c)
    ensures c.data != ""
  {
  }

  lemma TrailerEnd(q: Parser)
    requires q.state.HeaderFieldStart? && q.errno == OK && q.flags.trailing && q.nread == 0
    ensures var o := Step(q, CR);
      && !o.stop && o.events == [] && o.ps == q.(nread := 1, state := HeadersAlmostDone)
      && Step(o.ps, LF) == Outcome(q.(nread := 2, state := NewMessage(q)), [MessageComplete], false)
  {
  }

  /**
   Chunked decoding inverts chunked encoding: the body reported is the concatenation of the chunks, and the
   message completes exactly at the last byte of the terminating "0 CRLF CRLF".
   */
  lemma DecodingInvertsEncoding(ps: Parser, tr: seq<Event>, cs: seq<Chunk>)
    requires ps.state.ChunkSizeStart? && Legal(ps)
    requires forall i :: 0 <= i < |cs| ==> GoodChunk(cs[i])
    ensures var wire := Encoded(cs) + "0\r\n\r";
      var before, after := Run(ps, tr, wire), Run(ps, tr, wire + "\n");
      && !before.stopped && before.trace == PushBody(tr, Contents(cs))
      && !after.stopped && after.consumed == |wire| + 1
      && after.trace == PushBody(tr, Contents(cs)) + [MessageComplete]
      && after.ps == ps.(state := NewMessage(ps), length := 0, flags := ps.flags.(trailing := true), nread := 2)
  {
    hide Step, Push, GoodChunk, Encoded, Contents;
    ChunksRun(ps, tr, cs);
    var r := Run(ps, tr, Encoded(cs));
    var tr' := r.trace;
    assert "0"[..0] == "" && HexValue("0") == 0;
    SizeLine(r.ps, tr', "0", "");
    assert "0" + "" + "\r\n" == "0\r\n";
    RunConcat(ps, tr, Encoded(cs), "0\r\n");
    var q := r.ps.(length := 0, flags := r.ps.flags.(trailing := true), state := HeaderFieldStart);
    TrailerEnd(q);
    RunOne(q, tr', CR);
    PushNone(tr');
    var a := Encoded(cs) + "0\r\n";
    RunConcat(ps, tr, a, [CR]);
    assert Encoded(cs) + "0\r\n\r" == a + [CR];
    var q' := q.(nread := 1, state := HeadersAlmostDone);
    RunOne(q', tr', LF);
    PushOne(tr', MessageComplete);
    assert Push(tr', MessageComplete) == tr' + [MessageComplete] by { PushPlain(tr', MessageComplete); }
    RunConcat(ps, tr, a + [CR], [LF]);
    assert "\n" == [LF];
    SameFate(ps, q);
  }

  lemma SameFate(p: Parser, q: Parser)
    requires p.major == q.major && p.minor == q.minor && p.flags.close == q.flags.close
             && p.flags.keepAlive == q.flags.keepAlive
    ensures NewMessage(p) == NewMessage(q)
  {
  }

  // ----- the canonical encoder

  function HexChar(d: nat): char
    requires d < 16
  {
    "0123456789abcdef"[d]
  }

  function Hex(n: nat): string {
    if n < 16 then [HexChar(n)] else Hex(n / 16) + [HexChar(n % 16)]
  }

  lemma {:induction false} HexRoundTrip(n: nat, k: nat)
    requires k > 0 && n < Power16(k)
    ensures Hex(n) != "" && AllHex(Hex(n)) && HexValue(Hex(n)) == n && |Hex(n)| <= k
    decreases n
  {
    var c := HexChar(n % 16);
    assert Unhex(c) == n % 16;
    if n < 16 {
      assert Hex(n)[..0] == "";
      assert HexValue(Hex(n)[..0]) == 0;
    } else {
      assert n / 16 < Power16(k - 1);
      HexRoundTrip(n / 16, k - 1);
      assert Hex(n)[..|Hex(n)| - 1] == Hex(n / 16);
      hide Unhex, HexChar, Power16;
    }
  }

  function Power16(k: nat): nat {
    if k == 0 then 1 else 16 * Power16(k - 1)
  }

  /** What a client sends for a list of data blocks. */
  function Encode(blocks: seq<string>): seq<Chunk> {
    seq(|blocks|, i requires 0 <= i < |blocks| => Chunk(Hex(|blocks[i]|), "", blocks[i]))
  }

  lemma EncodeIsGood(blocks: seq<string>)
    requires forall i :: 0 <= i < |blocks| ==> 0 < |blocks[i]| < NO_LENGTH
    ensures forall i :: 0 <= i < |blocks| ==> GoodChunk(Encode(blocks)[i]) && Encode(blocks)[i].data == blocks[i]
  {
    assert Power16(16) == TWO_64 by {
      assert Power16(4) == 65536;
      assert Power16(8) == 65536 * 65536;
      assert Power16(12) == 65536 * 65536 * 65536;
    }
    forall i | 0 <= i < |blocks| ensures GoodChunk(Encode(blocks)[i]) {
      HexRoundTrip(|blocks[i]|, 16);
    }
  }

  function Joining(blocks: seq<string>): string
    decreases |blocks|
  {
    if blocks == [] then "" else blocks[0] + Joining(blocks[1..])
  }

  lemma {:induction false} EncodeKeepsContents(blocks: seq<string>)
    ensures Contents(Encode(blocks)) == Joining(blocks)
    decreases |blocks|
  {
    if blocks != [] {
      assert Encode(blocks)[1..] == Encode(blocks[1..]);
      EncodeKeepsContents(blocks[1..]);
    }
  }

  /** The round trip for a client that sends non-empty blocks with lower-case hexadecimal sizes. */
  lemma ReceivedIsWhatWasSent(ps: Parser, tr: seq<Event>, blocks: seq<string>)
    requires ps.state.ChunkSizeStart? && Legal(ps)
    requires forall i :: 0 <= i < |blocks| ==> 0 < |blocks[i]| < NO_LENGTH
    ensures var r := Run(ps, tr, Encoded(Encode(blocks)) + "0\r\n\r\n");
      && !r.stopped && r.trace == PushBody(tr, Joining(blocks)) + [MessageComplete]
      && r.ps == ps.(state := NewMessage(ps), length := 0, flags := ps.flags.(trailing := true), nread := 2)
  {
    hide Step, Push, GoodChunk, Encode, Encoded, Contents, Legal;
    EncodeIsGood(blocks);
    assert |Encode(blocks)| == |blocks| by { EncodeLength(blocks); }
    EncodeKeepsContents(blocks);
    DecodingInvertsEncoding(ps, tr, Encode(blocks));
    assert Encoded(Encode(blocks)) + "0\r\n\r" + "\n" == Encoded(Encode(blocks)) + "0\r\n\r\n";
  }

  lemma EncodeLength(blocks: seq<string>)
    ensures |Encode(blocks)| == |blocks|
  {
  }
}
