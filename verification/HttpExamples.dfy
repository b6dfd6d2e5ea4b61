/** Messages as they stand on the wire, and the callbacks they lead to. */
module HttpExamples {
  import opened HttpTypes
  import opened HttpRun
  import opened HttpInvariant
  import opened HttpNames
  import opened HttpHeaders
  import opened HttpRequest
  import opened HttpChunked
  import opened HttpPipeline

  lemma LowerCase(s: string, t: string)
    requires |s| == |t| && forall i :: 0 <= i < |s| ==> ToLower(s[i]) == t[i]
    ensures LowerAll(s) == t
  {
  }

  lemma Tokens(s: string)
    requires forall i :: 0 <= i < |s| ==> IsAlphaNum(s[i]) || s[i] == '-'
    ensures AllTokens(s)
  {
  }

  lemma OneDigit(c: char)
    requires IsNum(c)
    ensures AllDigits([c]) && Decimal([c]) == Digit(c) && LengthIn([c]) == Digit(c)
  {
    assert [c][..0] == "";
  }

  /** The head of a request for "/". */
  function Simple(verb: Method, minor: string, headers: seq<Header>): Head {
    Head(verb, "/", "1", minor, CrLf, headers, CrLf)
  }

  lemma RootIsTarget(verb: Method)
    requires verb != CONNECT
    ensures GoodTarget(verb, "/")
  {
    assert "/"[..0] == "";
  }

  lemma SimpleIsGood(verb: Method, minor: string, headers: seq<Header>)
    requires verb != CONNECT && (minor == "0" || minor == "1")
    requires forall h :: h in headers ==> GoodHeader(h)
    ensures GoodHead(Simple(verb, minor, headers))
  {
    RootIsTarget(verb);
    OneDigit('1');
    OneDigit('0');
    hide GoodTarget, GoodHeader, Decimal;
  }

  function Line(name: string, value: string): Header { Header(name, " ", value, CrLf, []) }

  lemma LineIs(name: string, value: string)
    ensures HeaderText(Line(name, value)) == name + ": " + value + "\r\n" && WholeValue(Line(name, value)) == value
  {
  }

  lemma NoHeaders(f: Framing)
    ensures HeadersText([]) == "" && ApplyAll(f, []) == f && HeaderReports([]) == []
  {
  }

  lemma OneHeader(h: Header, f: Framing)
    ensures HeadersText([h]) == HeaderText(h) && ApplyAll(f, [h]) == Apply(f, h)
    ensures HeaderReports([h]) == [Data(Field, h.name), Data(Value, WholeValue(h))]
  {
    NoHeaders(Apply(f, h));
    FirstHeader([h], f);
    hide HeaderText, Apply, WholeValue;
    assert [h][1..] == [];
  }

  // ----- a body of known length

  function LengthFive(): Header { Line("Content-Length", "5") }

  lemma LengthFiveMeans()
    ensures GoodHeader(LengthFive()) && Apply(NO_FRAMING, LengthFive()) == Framing(5, NO_FLAGS)
  {
    LowerCase("Content-Length", "content-length");
    Tokens("Content-Length");
    OneDigit('5');
    hide LowerAll;
  }

  const POSTED := Request(Simple(POST, "1", [LengthFive()]), Plain("hello"))

  const POSTED_TEXT := "POST / HTTP/1.1\r\n" + "Content-Length: 5\r\n" + "\r\n" + "hello"

  const POSTED_TRACE: seq<Event> := [
    MessageBegin, Data(Url, "/"), Data(Field, "Content-Length"), Data(Value, "5"), HeadersComplete(5, false, false),
    Data(Body, "hello"), MessageComplete]

  lemma PostedText()
    ensures RequestText(POSTED) == POSTED_TEXT && |HeadText(POSTED.head)| <= 1000
  {
    OneHeader(LengthFive(), NO_FRAMING);
    LineIs("Content-Length", "5");
    PostLine();
    assert "Content-Length" + ": " + "5" + "\r\n" == "Content-Length: 5\r\n";
    hide HeaderText, HeadersText, RequestLine;
  }

  lemma PostLine()
    ensures RequestLine(POSTED.head) == "POST / HTTP/1.1\r\n"
  {
    assert "POST" + " " + "/" == "POST /";
    assert "POST /" + " " + "HTTP/" == "POST / HTTP/";
    assert "POST / HTTP/" + "1" + "." == "POST / HTTP/1.";
    assert "POST / HTTP/1." + "1" + "\r\n" == "POST / HTTP/1.1\r\n";
  }

  lemma PostedMeans()
    ensures FramingFor(POSTED.head) == Framing(5, NO_FLAGS) && !Upgrades(POSTED.head) && StaysOpenFor(POSTED)
    ensures Reports(POSTED) == POSTED_TRACE && GoodRequest(POSTED)
  {
    LengthFiveMeans();
    OneHeader(LengthFive(), NO_FRAMING);
    LineIs("Content-Length", "5");
    SimpleIsGood(POST, "1", [LengthFive()]);
    OneDigit('1');
    hide HeaderText, HeadersText, ApplyAll, Apply, GoodHeader, GoodHead, HeaderReports, Decimal, AllDigits;
  }

  predicate StaysOpenFor(r: Request) {
    AllDigits(r.head.major) && AllDigits(r.head.minor) && StaysOpen(r)
  }

  lemma Posted()
    ensures var r := Run(INITIAL, [], POSTED_TEXT);
      && r.ps.errno == OK && !r.stopped && r.consumed == |POSTED_TEXT| && r.ps.state == StartReq && r.ps.verb == POST
      && r.trace == POSTED_TRACE
  {
    PostedText();
    PostedMeans();
    Starts(POSTED, POSTED_TEXT);
    hide *;
  }

  /** A fresh parser and a request that is short enough. */
  lemma Starts(r: Request, text: string)
    requires GoodRequest(r) && RequestText(r) == text && |HeadText(r.head)| <= 1000
    ensures var x := Run(INITIAL, [], text);
      && x.stopped == Upgrades(r.head) && x.consumed == |text| && x.trace == Reports(r) && x.ps.errno == OK
      && x.ps.state == (if StaysOpenFor(r) then StartReq else Dead) && x.ps.verb == r.head.verb
  {
    hide Run, GoodRequest, Reports, Upgrades, RequestText, HeadText, StaysOpen;
    RequestIsReceived(INITIAL, [], r);
    assert AllDigits(r.head.major) && AllDigits(r.head.minor) by { GoodHas(r); }
  }

  lemma GoodHas(r: Request)
    requires GoodRequest(r)
    ensures AllDigits(r.head.major) && AllDigits(r.head.minor)
  {
    HeadHasVersion(r.head);
  }

  // ----- a chunked body with a trailer, on a connection that is to be closed

  function Chunked(): Header { Line("Transfer-Encoding", "Chunked") }

  function Closing(): Header { Line("Connection", "close") }

  const LAST_WORD := Line("A", "b")

  const TEN := Chunk("A", ";x", "0123456789")

  const PUT_IN_CHUNKS := Request(Simple(PUT, "1", [Chunked(), Closing()]), Chunks([TEN], "0", "", [LAST_WORD], CrLf))

  const CHUNKED_TEXT := "PUT / HTTP/1.1\r\n" + ("Transfer-Encoding: Chunked\r\n" + "Connection: close\r\n") + "\r\n"
    + ("A;x\r\n" + "0123456789" + "\r\n" + "0\r\n" + ("A: b\r\n" + "\r\n"))

  const CHUNKED_FLAGS := Flags(true, false, true, false, false)

  const CHUNKED_TRACE: seq<Event> := [
    MessageBegin, Data(Url, "/"), Data(Field, "Transfer-Encoding"), Data(Value, "Chunked"), Data(Field, "Connection"),
    Data(Value, "close"), HeadersComplete(NO_LENGTH, true, false), Data(Body, "0123456789"), Data(Field, "A"),
    Data(Value, "b"), MessageComplete]

  lemma ChunkedMeans()
    ensures GoodHeader(Chunked()) && Apply(NO_FRAMING, Chunked()) == Framing(NO_LENGTH, NO_FLAGS.(chunked := true))
  {
    LowerCase("Transfer-Encoding", "transfer-encoding");
    LowerCase("Chunked", "chunked");
    Tokens("Transfer-Encoding");
    hide LowerAll;
  }

  lemma ClosingMeans(f: Framing)
    ensures GoodHeader(Closing()) && Apply(f, Closing()) == f.(flags := f.flags.(close := true))
  {
    LowerCase("Connection", "connection");
    LowerCase("close", "close");
    Tokens("Connection");
    hide LowerAll;
  }

  lemma LastWordMeans(f: Framing)
    ensures GoodHeader(LAST_WORD) && Apply(f, LAST_WORD) == f
  {
    LowerCase("A", "a");
    Tokens("A");
    hide LowerAll;
  }

  lemma TwoHeaders(h: Header, i: Header, f: Framing)
    ensures HeadersText([h, i]) == HeaderText(h) + HeaderText(i) && ApplyAll(f, [h, i]) == Apply(Apply(f, h), i)
    ensures HeaderReports([h, i]) == [Data(Field, h.name), Data(Value, WholeValue(h)), Data(Field, i.name), Data(Value, WholeValue(i))]
  {
    FirstHeader([h, i], f);
    OneHeader(i, Apply(f, h));
    hide HeaderText, Apply, WholeValue, HeadersText, HeaderReports, ApplyAll;
    assert [h, i][1..] == [i];
  }

  lemma TenIsGood()
    ensures GoodChunk(TEN) && Encoded([TEN]) == "A;x\r\n" + "0123456789" + "\r\n" && Contents([TEN]) == "0123456789"
  {
    assert "A"[..0] == "" && HexValue("A") == 10;
    assert "A" + ";x" + "\r\n" == "A;x\r\n";
    assert [TEN][1..] == [] && Encoded([]) == "" && Contents([]) == "";
  }

  lemma ZeroIsLast()
    ensures AllHex("0") && HexValue("0") == 0 && "0" + "" + "\r\n" == "0\r\n"
  {
    assert "0"[..0] == "";
  }

  lemma ChunksAreGood()
    ensures GoodChunks(PUT_IN_CHUNKS.body) && Content(PUT_IN_CHUNKS.body) == "0123456789"
    ensures BodyText(PUT_IN_CHUNKS.body) == "A;x\r\n" + "0123456789" + "\r\n" + "0\r\n" + ("A: b\r\n" + "\r\n")
  {
    TenIsGood();
    ZeroIsLast();
    LastWordMeans(NO_FRAMING);
    OneHeader(LAST_WORD, NO_FRAMING);
    LineIs("A", "b");
    assert "A" + ": " + "b" + "\r\n" == "A: b\r\n";
    hide HeaderText, HeadersText, GoodChunk, GoodHeader, Encoded, Contents, HexValue, AllHex;
  }

  lemma ChunkedHeadText()
    ensures HeadText(PUT_IN_CHUNKS.head) == "PUT / HTTP/1.1\r\n" + ("Transfer-Encoding: Chunked\r\n" + "Connection: close\r\n") + "\r\n"
  {
    TwoHeaders(Chunked(), Closing(), NO_FRAMING);
    LineIs("Transfer-Encoding", "Chunked");
    LineIs("Connection", "close");
    PutLine();
    assert "Transfer-Encoding" + ": " + "Chunked" + "\r\n" == "Transfer-Encoding: Chunked\r\n";
    assert "Connection" + ": " + "close" + "\r\n" == "Connection: close\r\n";
    hide HeaderText, HeadersText, RequestLine;
  }

  lemma PutLine()
    ensures RequestLine(PUT_IN_CHUNKS.head) == "PUT / HTTP/1.1\r\n"
  {
    assert "PUT" + " " + "/" == "PUT /";
    assert "PUT /" + " " + "HTTP/" == "PUT / HTTP/";
    assert "PUT / HTTP/" + "1" + "." == "PUT / HTTP/1.";
    assert "PUT / HTTP/1." + "1" + "\r\n" == "PUT / HTTP/1.1\r\n";
  }

  lemma ChunkedFraming()
    ensures FramingFor(PUT_IN_CHUNKS.head) == Framing(NO_LENGTH, CHUNKED_FLAGS)
    ensures GoodHead(PUT_IN_CHUNKS.head) && HeaderReports(PUT_IN_CHUNKS.head.headers) == CHUNKED_TRACE[2..6]
  {
    ChunkedMeans();
    ClosingMeans(Apply(NO_FRAMING, Chunked()));
    TwoHeaders(Chunked(), Closing(), NO_FRAMING);
    LineIs("Transfer-Encoding", "Chunked");
    LineIs("Connection", "close");
    SimpleIsGood(PUT, "1", [Chunked(), Closing()]);
    hide HeaderText, HeadersText, ApplyAll, Apply, GoodHeader, GoodHead, HeaderReports;
  }

  lemma TrailerMeans()
    ensures TrailerFlags(PUT_IN_CHUNKS.body, CHUNKED_FLAGS) == CHUNKED_FLAGS.(trailing := true)
    ensures HeaderReports([LAST_WORD]) == [Data(Field, "A"), Data(Value, "b")]
  {
    var f := Framing(0, CHUNKED_FLAGS.(trailing := true));
    LastWordMeans(f);
    OneHeader(LAST_WORD, f);
    LineIs("A", "b");
    hide HeaderText, HeadersText, ApplyAll, Apply, HeaderReports;
  }

  lemma PutMeans()
    ensures GoodRequest(PUT_IN_CHUNKS) && Reports(PUT_IN_CHUNKS) == CHUNKED_TRACE
    ensures !Upgrades(PUT_IN_CHUNKS.head) && !StaysOpenFor(PUT_IN_CHUNKS)
  {
    ChunkedFraming();
    ChunksAreGood();
    TrailerMeans();
    OneDigit('1');
    hide GoodHead, GoodChunks, TrailerFlags, HeaderReports, FramingFor, Content, Decimal, AllDigits;
  }

  lemma PutInChunks()
    ensures var r := Run(INITIAL, [], CHUNKED_TEXT);
      && r.ps.errno == OK && !r.stopped && r.consumed == |CHUNKED_TEXT| && r.ps.state == Dead && r.ps.verb == PUT
      && r.trace == CHUNKED_TRACE
  {
    ChunkedHeadText();
    ChunksAreGood();
    PutMeans();
    hide Run, HeadText, BodyText, GoodRequest, Reports, Upgrades, StaysOpenFor, GoodChunks, Content;
    assert |HeadText(PUT_IN_CHUNKS.head)| <= 1000;
    Starts(PUT_IN_CHUNKS, CHUNKED_TEXT);
  }
}
