/**
 Whole requests: a request that is written out and fed to the parser is reported as it was meant, one request or
 a pipeline of them, in one piece or in any number of pieces.
 */
module HttpPipeline {
  import opened HttpTypes
  import opened HttpStep
  import opened HttpRun
  import opened HttpInvariant
  import opened HttpNames
  import opened HttpHeaders
  import opened HttpRequest
  import opened HttpChunked
  import opened HttpExecute
  import opened HttpFragments

  // ----- bodies

  /** The chunks, the line of the last chunk (a size of zero), the trailer, and the empty line behind it. */
  datatype Body =
    | Plain(bytes: string)
    | Chunks(chunks: seq<Chunk>, size: string, extension: string, trailers: seq<Header>, end: Eol)

  function LastLine(b: Body): string
    requires b.Chunks?
  {
    b.size + b.extension + "\r\n"
  }

  function TrailerText(b: Body): string
    requires b.Chunks?
  {
    HeadersText(b.trailers) + Break(b.end)
  }

  function BodyText(b: Body): string {
    if b.Plain? then b.bytes else Encoded(b.chunks) + LastLine(b) + TrailerText(b)
  }

  function Content(b: Body): string {
    if b.Plain? then b.bytes else Contents(b.chunks)
  }

  predicate GoodChunks(b: Body) {
    && b.Chunks? && (forall i :: 0 <= i < |b.chunks| ==> GoodChunk(b.chunks[i]))
    && b.size != "" && AllHex(b.size) && HexValue(b.size) == 0 && GoodExtension(b.extension)
    && |LastLine(b)| <= MAX_HEADER_SIZE && |TrailerText(b)| <= MAX_HEADER_SIZE
    && forall i :: 0 <= i < |b.trailers| ==> GoodHeader(b.trailers[i])
  }

  /** The flags after the trailer: its headers count as well. */
  function TrailerFlags(b: Body, flags: Flags): Flags
    requires b.Chunks?
  {
    ApplyAll(Framing(0, flags.(trailing := true)), b.trailers).flags
  }

  lemma TrailerEnd(q: Parser, tr: seq<Event>, eol: Eol)
    requires AtLineStart(q) && q.errno == OK && Room(q, |Break(eol)|) && q.flags.trailing
    ensures Run(q, tr, Break(eol))
         == Result(q.(state := NewMessage(q), nread := q.nread + |Break(eol)|), tr + [MessageComplete], |Break(eol)|, false)
  {
    var a := q.(state := HeadersAlmostDone, nread := q.nread + 1);
    if eol.CrLf? {
      assert Step(q, CR) == Quiet(a);
      TrailerLineFeed(a, tr);
      hide Step;
      QuietByte(q, tr, CR, a);
      RunConcat(q, tr, [CR], [LF]);
      assert Break(eol) == [CR] + [LF];
    } else {
      TrailerLineFeed(q, tr);
      assert Break(eol) == [LF];
    }
  }

  lemma TrailerLineFeed(a: Parser, tr: seq<Event>)
    requires (a.state.HeadersAlmostDone? || AtLineStart(a)) && a.errno == OK && Room(a, 1) && a.flags.trailing
    ensures Run(a, tr, [LF]) == Result(a.(state := NewMessage(a), nread := a.nread + 1), tr + [MessageComplete], 1, false)
  {
    assert Step(a, LF) == Emit(a.(state := NewMessage(a), nread := a.nread + 1), MessageComplete);
    hide Step;
    RunOne(a, tr, LF);
    PushOne(tr, MessageComplete);
    PushPlain(tr, MessageComplete);
  }

  /** A chunked body is reported as its data, then the trailer as its headers. */
  lemma ChunksAreReceived(ps: Parser, tr: seq<Event>, b: Body)
    requires ps.state.ChunkSizeStart? && Legal(ps) && GoodChunks(b) && !EndsIn(tr, Field)
    ensures var x := Run(ps, tr, BodyText(b));
      && !x.stopped
      && x.trace == PushBody(tr, Contents(b.chunks)) + HeaderReports(b.trailers) + [MessageComplete]
      && x.ps == ps.(state := NewMessage(x.ps), hstate := x.ps.hstate, index := x.ps.index, length := x.ps.length,
                     nread := |TrailerText(b)|, flags := TrailerFlags(b, ps.flags))
  {
    hide Step, Run, Push, GoodChunk, GoodHeader, Encoded, Contents, AllHex, HexValue, HeadersText, NewMessage, StateOk, ApplyAll;
    ChunkStart(ps);
    ChunksRun(ps, tr, b.chunks);
    var r := Run(ps, tr, Encoded(b.chunks));
    var tr' := r.trace;
    SizeLine(r.ps, tr', b.size, b.extension);
    RunConcat(ps, tr, Encoded(b.chunks), LastLine(b));
    var q := r.ps.(length := 0, flags := r.ps.flags.(trailing := true), state := HeaderFieldStart);
    BodyIsNoField(tr, Contents(b.chunks));
    HeaderLines(q, tr', b.trailers);
    var t := Run(q, tr', HeadersText(b.trailers));
    RunConcat(ps, tr, Encoded(b.chunks) + LastLine(b), HeadersText(b.trailers));
    NoTrailer(FramingOf(q), b.trailers);
    TrailerEnd(t.ps, t.trace, b.end);
    RunConcat(ps, tr, Encoded(b.chunks) + LastLine(b) + HeadersText(b.trailers), Break(b.end));
    assert BodyText(b) == Encoded(b.chunks) + LastLine(b) + HeadersText(b.trailers) + Break(b.end);
    NewMessageAgain(t.ps);
  }

  lemma ChunkStart(ps: Parser)
    requires ps.state.ChunkSizeStart? && Legal(ps)
    ensures ps.nread == 0 && ps.errno == OK
  {
  }

  lemma BodyIsNoField(tr: seq<Event>, s: string)
    requires !EndsIn(tr, Field)
    ensures !EndsIn(PushBody(tr, s), Field)
  {
  }

  lemma NewMessageAgain(q: Parser)
    ensures forall s, n :: NewMessage(q.(state := s, nread := n)) == NewMessage(q)
  {
  }

  // ----- whole requests

  datatype Request = Request(head: Head, body: Body)

  predicate GoodBody(r: Request) {
    var f := FramingFor(r.head);
    if Upgrades(r.head) then r.body == Plain("")
    else if f.flags.chunked then GoodChunks(r.body)
    else r.body.Plain? && |r.body.bytes| == if f.length == NO_LENGTH then 0 else f.length
  }

  predicate GoodRequest(r: Request) { GoodHead(r.head) && GoodBody(r) }

  function RequestText(r: Request): string { HeadText(r.head) + BodyText(r.body) }

  /** What the callbacks make of a request. */
  function Reports(r: Request): seq<Event> {
    var f := FramingFor(r.head);
    [MessageBegin, Data(Url, r.head.target)] + HeaderReports(r.head.headers)
    + [HeadersComplete(f.length, f.flags.chunked, Upgrades(r.head))]
    + (if Content(r.body) == "" then [] else [Data(Body, Content(r.body))])
    + (if r.body.Plain? then [] else HeaderReports(r.body.trailers))
    + [MessageComplete]
  }

  /** The flags when the message is complete. */
  function FinalFlags(r: Request): Flags {
    var flags := FramingFor(r.head).flags;
    if r.body.Plain? then flags else TrailerFlags(r.body, flags)
  }

  /** The connection outlives the request. */
  predicate StaysOpen(r: Request)
    requires AllDigits(r.head.major) && AllDigits(r.head.minor)
  {
    var flags := FinalFlags(r);
    if Decimal(r.head.major) > 0 && Decimal(r.head.minor) > 0 then !flags.close else flags.keepAlive
  }

  /** The bytes of a trailer still count against the size limit of the next head. */
  function Carried(r: Request): nat {
    if r.body.Plain? then 0 else |TrailerText(r.body)|
  }

  lemma StaysLegal(ps: Parser, tr: seq<Event>, data: string)
    requires Legal(ps) && ps.state.StartReq? && Run(ps, tr, data).ps.errno == OK
    ensures Legal(Run(ps, tr, data).ps)
  {
    hide Run, Legal;
    assert TailOk(ps.state, tr);
    RunKeeps(ps, tr, data);
  }

  lemma BehindEvent(tr: seq<Event>, e: Event, s: string)
    requires !e.Data?
    ensures PushBody(tr + [e], s) == tr + [e] + if s == "" then [] else [Data(Body, s)]
    ensures !EndsIn(tr + [e], Field)
  {
  }

  /** The state behind a head, for a body that has to be read. */
  lemma StateBehind(q: Parser, r: Request)
    requires GoodBody(r) && !Upgrades(r.head) && !Bodiless(FramingFor(r.head))
    requires q.flags == FramingFor(r.head).flags && q.length == FramingFor(r.head).length && !q.upgrade
    ensures BehindHead(q) == if r.body.Chunks? then ChunkSizeStart else BodyIdentity
    ensures r.body.Plain? ==> |r.body.bytes| == q.length > 0
  {
    hide GoodChunks, ApplyAll;
    assert GoodChunks(r.body) ==> r.body.Chunks? by { ChunksAreChunks(r.body); }
  }

  lemma ChunksAreChunks(b: Body)
    ensures GoodChunks(b) ==> b.Chunks?
  {
  }

  /** The body behind a head. */
  lemma BodyIsReceived(q: Parser, tr: seq<Event>, r: Request)
    requires GoodBody(r) && !Upgrades(r.head) && !Bodiless(FramingFor(r.head)) && Legal(q) && q.nread == 0
    requires q.flags == FramingFor(r.head).flags && q.length == FramingFor(r.head).length && !q.upgrade
    requires q.state == BehindHead(q) && tr != [] && !tr[|tr| - 1].Data?
    ensures var x := Run(q, tr, BodyText(r.body));
      && !x.stopped
      && x.trace == tr + (if Content(r.body) == "" then [] else [Data(Body, Content(r.body))])
                    + (if r.body.Plain? then [] else HeaderReports(r.body.trailers)) + [MessageComplete]
      && x.ps == q.(state := NewMessage(x.ps), hstate := x.ps.hstate, index := x.ps.index, length := x.ps.length,
                    nread := Carried(r), flags := FinalFlags(r))
  {
    hide Run, Push, Legal, ApplyAll, NewMessage, BehindHead, Bodiless, TrailerFlags, Contents, HeaderReports;
    StateBehind(q, r);
    assert tr == tr[..|tr| - 1] + [tr[|tr| - 1]];
    BehindEvent(tr[..|tr| - 1], tr[|tr| - 1], Content(r.body));
    if r.body.Chunks? {
      hide GoodChunks;
      assert GoodChunks(r.body) by { hide FramingFor; ChunkedIsGood(q, r); }
      ChunksAreReceived(q, tr, r.body);
    } else {
      BulkBody(q, tr, r.body.bytes);
      PushPlain(Push(tr, Data(Body, r.body.bytes)), MessageComplete);
      NewMessageAgain(q);
      PlainEnd(q);
    }
  }

  lemma ChunkedIsGood(q: Parser, r: Request)
    requires GoodBody(r) && !Upgrades(r.head) && r.body.Chunks?
    ensures GoodChunks(r.body)
  {
  }

  lemma PlainEnd(q: Parser)
    ensures forall s, n :: NewMessage(q.(state := s, length := n)) == NewMessage(q)
  {
  }

  /** A request is received as it was sent, and leaves the parser ready for the next one. */
  lemma RequestIsReceived(ps: Parser, tr: seq<Event>, r: Request)
    requires ps.state.StartReq? && Legal(ps) && Room(ps, |HeadText(r.head)|) && GoodRequest(r)
    ensures var x := Run(ps, tr, RequestText(r));
      && x.stopped == Upgrades(r.head) && x.consumed == |RequestText(r)| && x.trace == tr + Reports(r)
      && x.ps.state == (if StaysOpen(r) then StartReq else Dead) && x.ps.nread == Carried(r) && Legal(x.ps)
      && x.ps.verb == r.head.verb && x.ps.major == Decimal(r.head.major) && x.ps.minor == Decimal(r.head.minor)
      && x.ps.flags == FinalFlags(r)
  {
    hide Step, Run, Decimal, HeadText, GoodHead, BodyText, Push, StateOk, HeaderReports, AllDigits, GoodChunks,
         BehindHead, Bodiless, FinalFlags, Content, ApplyAll;
    var head := HeadText(r.head);
    HeadHasVersion(r.head);
    HeadIsReceived(ps, tr, r.head);
    var a := Run(ps, tr, head);
    StaysLegal(ps, tr, head);
    assert a.trace == tr + HeadReports(r.head);
    if Upgrades(r.head) || Bodiless(FramingFor(r.head)) {
      NoBody(r);
      assert RequestText(r) == head;
      NothingBehind(a.ps, r);
      assert tr + Reports(r) == tr + HeadReports(r.head);
    } else {
      BodyIsReceived(a.ps, a.trace, r);
      RunConcat(ps, tr, head, BodyText(r.body));
      RunTakesAll(ps, tr, RequestText(r));
      var x := Run(a.ps, a.trace, BodyText(r.body));
      assert x.trace == tr + Reports(r);
      assert NewMessage(x.ps) == if StaysOpen(r) then StartReq else Dead;
    }
    StaysLegal(ps, tr, RequestText(r));
  }

  lemma HeadHasVersion(h: Head)
    requires GoodHead(h)
    ensures AllDigits(h.major) && AllDigits(h.minor)
  {
    hide GoodTarget;
  }

  lemma NoBody(r: Request)
    requires GoodBody(r) && (Upgrades(r.head) || Bodiless(FramingFor(r.head)))
    ensures r.body == Plain("") && BodyText(r.body) == "" && Content(r.body) == "" && FinalFlags(r) == FramingFor(r.head).flags
  {
    hide GoodChunks, ApplyAll;
  }

  lemma NothingBehind(q: Parser, r: Request)
    requires Upgrades(r.head) || Bodiless(FramingFor(r.head))
    requires q.flags == FramingFor(r.head).flags && q.length == FramingFor(r.head).length && q.upgrade == Upgrades(r.head)
    ensures BehindHead(q) == NewMessage(q)
  {
    hide ApplyAll;
  }

  // ----- pipelines

  function AllTexts(rs: seq<Request>): string
    decreases |rs|
  {
    if rs == [] then "" else RequestText(rs[0]) + AllTexts(rs[1..])
  }

  function AllReports(rs: seq<Request>): seq<Event>
    decreases |rs|
  {
    if rs == [] then [] else Reports(rs[0]) + AllReports(rs[1..])
  }

  /** A request may be followed by another one. */
  predicate Continues(r: Request, next: Request) {
    GoodRequest(r) && StaysOpen(r) && !Upgrades(r.head) && Carried(r) + |HeadText(next.head)| <= MAX_HEADER_SIZE
  }

  /** Requests that may be sent over one connection: only the last one may close or upgrade it. */
  predicate GoodPipeline(rs: seq<Request>) {
    && (forall i :: 0 <= i < |rs| ==> GoodRequest(rs[i]))
    && forall i :: 0 <= i < |rs| - 1 ==> Continues(rs[i], rs[i + 1])
  }

  predicate Fits(ps: Parser, rs: seq<Request>) {
    ps.state.StartReq? && Legal(ps) && (rs != [] ==> Room(ps, |HeadText(rs[0].head)|))
  }

  /** A pipeline of requests is received request by request, as it was sent; an upgrade stops the parser behind it. */
  lemma {:induction false} PipelineIsReceived(ps: Parser, tr: seq<Event>, rs: seq<Request>)
    requires Fits(ps, rs) && GoodPipeline(rs)
    ensures var x := Run(ps, tr, AllTexts(rs));
      && x.stopped == (rs != [] && Upgrades(rs[|rs| - 1].head))
      && x.ps.errno == OK && x.consumed == |AllTexts(rs)| && x.trace == tr + AllReports(rs)
    decreases |rs|
  {
    hide Step, GoodRequest, HeadText, RequestText, Reports, StaysOpen, StateOk, Upgrades, Carried;
    if rs != [] {
      hide Run;
      var r, rest := rs[0], rs[1..];
      RequestIsReceived(ps, tr, r);
      var a := Run(ps, tr, RequestText(r));
      RunConcat(ps, tr, RequestText(r), AllTexts(rest));
      if rest != [] {
        RestOfPipeline(rs);
        hide GoodPipeline, Continues;
        PipelineIsReceived(a.ps, a.trace, rest);
        assert a.trace + AllReports(rest) == tr + AllReports(rs);
      } else {
        LastOne(rs);
      }
    } else {
      assert tr + AllReports(rs) == tr;
    }
  }

  lemma RestOfPipeline(rs: seq<Request>)
    requires |rs| > 1 && GoodPipeline(rs)
    ensures GoodPipeline(rs[1..]) && Continues(rs[0], rs[1])
  {
    hide Continues, GoodRequest;
    var rest := rs[1..];
    forall i | 0 <= i < |rest| - 1 ensures Continues(rest[i], rest[i + 1]) {
      var j := i + 1;
      assert Continues(rs[j], rs[j + 1]);
    }
  }

  lemma LastOne(rs: seq<Request>)
    requires |rs| == 1
    ensures AllTexts(rs) == RequestText(rs[0]) && AllReports(rs) == Reports(rs[0])
  {
    hide RequestText, Reports;
    assert rs[1..] == [] && AllTexts([]) == "" && AllReports([]) == [];
    assert RequestText(rs[0]) + "" == RequestText(rs[0]) && Reports(rs[0]) + [] == Reports(rs[0]);
  }

  predicate FirstFits(rs: seq<Request>) { rs != [] ==> |HeadText(rs[0].head)| <= MAX_HEADER_SIZE }

  lemma FreshFits(rs: seq<Request>)
    requires FirstFits(rs)
    ensures Fits(INITIAL, rs) && INITIAL.errno == OK && !INITIAL.upgrade
  {
    hide HeadText;
  }

  /** Nor does it matter in what pieces the bytes arrive. */
  lemma PipelineInPieces(rs: seq<Request>, pieces: seq<string>)
    requires GoodPipeline(rs) && FirstFits(rs) && Flatten(pieces) == AllTexts(rs)
    ensures var x := RunPieces(INITIAL, [], pieces);
      x.ps.errno == OK && x.consumed == |AllTexts(rs)| && x.trace == AllReports(rs)
  {
    hide Run, GoodPipeline, Fits, FirstFits;
    FreshFits(rs);
    PiecesDoNotMatter(INITIAL, [], pieces);
    PipelineIsReceived(INITIAL, [], rs);
  }

  /** The same of the calls to `http_parser_execute` themselves: a client's pipeline, read piece by piece. */
  method Receive(pieces: seq<string>, ghost rs: seq<Request>) returns (parser: HttpParser, consumed: nat)
    requires forall i :: 0 <= i < |pieces| ==> pieces[i] != ""
    requires GoodPipeline(rs) && FirstFits(rs) && Flatten(pieces) == AllTexts(rs)
    ensures parser.errno == OK && consumed == |AllTexts(rs)| && Joined(parser.trace) == AllReports(rs)
  {
    hide Run, GoodPipeline, Fits, FirstFits, LosesOneRun, HeardPieces, Flatten, AllTexts, AllReports, Joined, Legal, Upgrades;
    NothingJoined();
    FreshFits(rs);
    PipelineIsReceived(INITIAL, [], rs);
    parser := new HttpParser();
    consumed := Feed(parser, pieces);
  }
}
