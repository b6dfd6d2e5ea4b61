/**
 The reference parser: what one byte does to the parser fields, and which callbacks it gives rise to when
 every data byte is reported on its own. It has no marks, no bulk copying and no end-of-buffer handling;
 `HttpExecute` proves that `http_parser_execute`, which has all three, refines it.
 */
module HttpStep {
  import opened HttpTypes

  /** `stop`: the call returns at this byte, on an error or because the connection is upgraded. */
  datatype Outcome = Outcome(ps: Parser, events: seq<Event>, stop: bool)

  function Quiet(q: Parser): Outcome { Outcome(q, [], false) }

  function Emit(q: Parser, e: Event): Outcome { Outcome(q, [e], false) }

  /** SET_ERRNO(e); goto error. */
  function Fail(q: Parser, e: Errno): Outcome { Outcome(q.(errno := e), [], true) }

  function Step(ps: Parser, ch: char): Outcome {
    if ParsingHeader(ps.state) then
      var q := ps.(nread := ps.nread + 1);
      if q.nread > MAX_HEADER_SIZE then Fail(q, HEADER_OVERFLOW) else Dispatch(q, ch)
    else Dispatch(ps, ch)
  }

  predicate LineState(s: State) {
    s.Dead? || s.StartReq? || s.ReqMethod? || s.ReqLineAlmostDone?
  }

  predicate UrlState(s: State) {
    s.ReqSchema? || s.ReqSchemaSlash? || s.ReqSchemaSlashSlash? || s.ReqServerStart? || s.ReqServer?
    || s.ReqServerWithAt? || s.ReqPath? || s.ReqQueryStringStart? || s.ReqQueryString?
    || s.ReqFragmentStart? || s.ReqFragment?
  }

  predicate VersionState(s: State) {
    s.ReqHttpStart? || s.ReqHttpH? || s.ReqHttpHT? || s.ReqHttpHTT? || s.ReqHttpHTTP?
    || s.ReqFirstHttpMajor? || s.ReqHttpMajor? || s.ReqFirstHttpMinor? || s.ReqHttpMinor?
  }

  predicate ChunkSizeState(s: State) {
    s.ChunkSizeStart? || s.ChunkSize? || s.ChunkParameters? || s.ChunkSizeAlmostDone?
  }

  function Dispatch(q: Parser, ch: char): Outcome {
    if LineState(q.state) then OnLine(q, ch)
    else if q.state == ReqSpacesBeforeUrl then OnSpacesBeforeUrl(q, ch)
    else if UrlState(q.state) then OnUrl(q, ch)
    else if VersionState(q.state) then OnVersion(q, ch)
    else if ChunkSizeState(q.state) then OnChunkSize(q, ch)
    else match q.state
      case HeaderFieldStart => OnHeaderFieldStart(q, ch)
      case HeaderField => OnHeaderField(q, ch)
      case HeaderValueStart => OnHeaderValueStart(q, ch)
      case HeaderValue => OnHeaderValue(q, ch)
      case HeaderValueLws => OnHeaderValueLws(q, ch)
      case HeaderAlmostDone => OnHeaderAlmostDone(q, ch)
      case HeadersAlmostDone => OnHeadersAlmostDone(q, ch)
      case HeadersDone => OnHeadersDone(q, ch)
      case _ => OnBody(q, ch)
  }

  // ----- request line

  function OnLine(q: Parser, ch: char): Outcome
    requires LineState(q.state)
  {
    match q.state
    case Dead => if ch == CR || ch == LF then Quiet(q) else Fail(q, CLOSED_CONNECTION)
    case StartReq => OnStartReq(q, ch)
    case ReqMethod => OnReqMethod(q, ch)
    case ReqLineAlmostDone =>
      if ch != LF then Fail(q, LF_EXPECTED) else Quiet(q.(state := HeaderFieldStart))
  }

  datatype MethodGuess = NoMethod | Guess(verb: Method)

  function FirstMethod(ch: char): MethodGuess {
    match ch
    case 'C' => Guess(CONNECT)
    case 'D' => Guess(DELETE)
    case 'G' => Guess(GET)
    case 'H' => Guess(HEAD)
    case 'L' => Guess(LOCK)
    case 'M' => Guess(MKCOL)
    case 'N' => Guess(NOTIFY)
    case 'O' => Guess(OPTIONS)
    case 'P' => Guess(POST)
    case 'R' => Guess(REPORT)
    case 'S' => Guess(SUBSCRIBE)
    case 'T' => Guess(TRACE)
    case 'U' => Guess(UNLOCK)
    case _ => NoMethod
  }

  function OnStartReq(q: Parser, ch: char): Outcome {
    if ch == CR || ch == LF then Quiet(q)
    else
      var q := q.(flags := NO_FLAGS, length := NO_LENGTH);
      if !IsAlpha(ch) then Fail(q, INVALID_METHOD)
      else
        var q := q.(verb := DELETE, index := 1);
        match FirstMethod(ch)
        case NoMethod => Fail(q, INVALID_METHOD)
        case Guess(m) => Emit(q.(verb := m, state := ReqMethod), MessageBegin)
  }

  /** The method to go on with when `ch` is not the next letter of `m`. */
  function SwitchMethod(m: Method, index: nat, ch: char): MethodGuess {
    if m == CONNECT then
      if index == 1 && ch == 'H' then Guess(CHECKOUT)
      else if index == 2 && ch == 'P' then Guess(COPY)
      else NoMethod
    else if m == MKCOL then
      if index == 1 && ch == 'O' then Guess(MOVE)
      else if index == 1 && ch == 'E' then Guess(MERGE)
      else if index == 1 && ch == '-' then Guess(MSEARCH)
      else if index == 2 && ch == 'A' then Guess(MKACTIVITY)
      else NoMethod
    else if m == SUBSCRIBE then
      if index == 1 && ch == 'E' then Guess(SEARCH) else NoMethod
    else if index == 1 && m == POST then
      if ch == 'R' then Guess(PROPFIND)
      else if ch == 'U' then Guess(PUT)
      else if ch == 'A' then Guess(PATCH)
      else NoMethod
    else if index == 2 then
      if m == PUT then (if ch == 'R' then Guess(PURGE) else NoMethod)
      else if m == UNLOCK then (if ch == 'S' then Guess(UNSUBSCRIBE) else NoMethod)
      else NoMethod
    else if index == 4 && m == PROPFIND && ch == 'P' then Guess(PROPPATCH)
    else NoMethod
  }

  function OnReqMethod(q: Parser, ch: char): Outcome {
    if ch == '\0' then Fail(q, INVALID_METHOD)
    else
      var expected := CharAt(MethodName(q.verb), q.index);
      if ch == ' ' && expected == '\0' then Quiet(q.(state := ReqSpacesBeforeUrl, index := q.index + 1))
      else if ch == expected then Quiet(q.(index := q.index + 1))
      else
        match SwitchMethod(q.verb, q.index, ch)
        case NoMethod => Fail(q, INVALID_METHOD)
        case Guess(m) => Quiet(q.(verb := m, index := q.index + 1))
  }

  function UrlByte(q: Parser, from: State, ch: char): Outcome {
    var s := ParseUrlChar(from, ch);
    var q := q.(state := s);
    if s == Dead then Fail(q, INVALID_URL) else Emit(q, Data(Url, [ch]))
  }

  function OnSpacesBeforeUrl(q: Parser, ch: char): Outcome {
    if ch == ' ' then Quiet(q)
    else UrlByte(q, if q.verb == CONNECT then ReqServerStart else ReqSpacesBeforeUrl, ch)
  }

  function OnUrl(q: Parser, ch: char): Outcome
    requires UrlState(q.state)
  {
    if q.state.ReqSchema? || q.state.ReqSchemaSlash? || q.state.ReqSchemaSlashSlash? || q.state.ReqServerStart? then
      if ch == ' ' || ch == CR || ch == LF then Fail(q, INVALID_URL) else UrlByte(q, q.state, ch)
    else if ch == ' ' then Quiet(q.(state := ReqHttpStart))
    else if ch == CR then Quiet(q.(major := 0, minor := 9, state := ReqLineAlmostDone))
    else if ch == LF then Quiet(q.(major := 0, minor := 9, state := HeaderFieldStart))
    else UrlByte(q, q.state, ch)
  }

  /** STRICT_CHECK(ch != c), then go to `s`. */
  function Expect(q: Parser, ch: char, c: char, s: State): Outcome {
    if ch != c then Fail(q, STRICT) else Quiet(q.(state := s))
  }

  function OnVersion(q: Parser, ch: char): Outcome
    requires VersionState(q.state)
  {
    match q.state
    case ReqHttpStart =>
      if ch == 'H' then Quiet(q.(state := ReqHttpH))
      else if ch == ' ' then Quiet(q)
      else Fail(q, INVALID_CONSTANT)
    case ReqHttpH => Expect(q, ch, 'T', ReqHttpHT)
    case ReqHttpHT => Expect(q, ch, 'T', ReqHttpHTT)
    case ReqHttpHTT => Expect(q, ch, 'P', ReqHttpHTTP)
    case ReqHttpHTTP => Expect(q, ch, '/', ReqFirstHttpMajor)
    case ReqFirstHttpMajor =>
      if ch < '1' || ch > '9' then Fail(q, INVALID_VERSION)
      else Quiet(q.(major := Digit(ch), state := ReqHttpMajor))
    case ReqHttpMajor =>
      if ch == '.' then Quiet(q.(state := ReqFirstHttpMinor))
      else if !IsNum(ch) then Fail(q, INVALID_VERSION)
      else
        var q := q.(major := 10 * q.major + Digit(ch));
        if q.major > 999 then Fail(q, INVALID_VERSION) else Quiet(q)
    case ReqFirstHttpMinor =>
      if !IsNum(ch) then Fail(q, INVALID_VERSION)
      else Quiet(q.(minor := Digit(ch), state := ReqHttpMinor))
    case ReqHttpMinor =>
      if ch == CR then Quiet(q.(state := ReqLineAlmostDone))
      else if ch == LF then Quiet(q.(state := HeaderFieldStart))
      else if !IsNum(ch) then Fail(q, INVALID_VERSION)
      else
        var q := q.(minor := 10 * q.minor + Digit(ch));
        if q.minor > 999 then Fail(q, INVALID_VERSION) else Quiet(q)
  }

  // ----- headers

  /** How a header name whose first token character is `c` starts out. */
  function FirstHeaderState(c: char): HeaderState {
    match c
    case 'c' => C
    case 'p' => MatchingProxyConnection
    case 't' => MatchingTransferEncoding
    case 'u' => MatchingUpgrade
    case _ => General
  }

  function OnHeaderFieldStart(q: Parser, ch: char): Outcome {
    if ch == CR then Quiet(q.(state := HeadersAlmostDone))
    else if ch == LF then OnHeadersAlmostDone(q.(state := HeadersAlmostDone), ch)
    else
      var c := Token(ch);
      if c == '\0' then Fail(q, INVALID_HEADER_TOKEN)
      else Emit(q.(index := 0, state := HeaderField, hstate := FirstHeaderState(c)), Data(Field, [ch]))
  }

  /** The header name (or value) being matched in `hs`, and what a full match means. */
  function Matching(hs: HeaderState): (string, HeaderState) {
    match hs
    case MatchingConnection => ("connection", Connection)
    case MatchingProxyConnection => ("proxy-connection", Connection)
    case MatchingContentLength => ("content-length", ContentLength)
    case MatchingTransferEncoding => ("transfer-encoding", TransferEncoding)
    case MatchingUpgrade => ("upgrade", UpgradeHeader)
    case MatchingTransferEncodingChunked => ("chunked", TransferEncodingChunked)
    case MatchingConnectionKeepAlive => ("keep-alive", ConnectionKeepAlive)
    case MatchingConnectionClose => ("close", ConnectionClose)
    case _ => ("", General)
  }

  /** One more character `c` while matching; `index` has already been advanced. */
  function MatchNext(hs: HeaderState, index: nat, c: char): HeaderState {
    var (word, full) := Matching(hs);
    if index > |word| || c != CharAt(word, index) then General
    else if index == |word| - 1 then full
    else hs
  }

  function FieldByte(q: Parser, c: char, ch: char): Parser {
    match q.hstate
    case General => q
    case C => q.(index := q.index + 1, hstate := if c == 'o' then CO else General)
    case CO => q.(index := q.index + 1, hstate := if c == 'n' then CON else General)
    case CON =>
      q.(index := q.index + 1,
         hstate := if c == 'n' then MatchingConnection else if c == 't' then MatchingContentLength else General)
    case Connection => if ch != ' ' then q.(hstate := General) else q
    case ContentLength => if ch != ' ' then q.(hstate := General) else q
    case TransferEncoding => if ch != ' ' then q.(hstate := General) else q
    case UpgradeHeader => if ch != ' ' then q.(hstate := General) else q
    case _ => q.(index := q.index + 1, hstate := MatchNext(q.hstate, q.index + 1, c))
  }

  function OnHeaderField(q: Parser, ch: char): Outcome {
    var c := Token(ch);
    if c != '\0' then Emit(FieldByte(q, c, ch), Data(Field, [ch]))
    else if ch == ':' then Quiet(q.(state := HeaderValueStart))
    else if ch == CR then Quiet(q.(state := HeaderAlmostDone))
    else if ch == LF then Quiet(q.(state := HeaderFieldStart))
    else Fail(q, INVALID_HEADER_TOKEN)
  }

  function OnHeaderValueStart(q: Parser, ch: char): Outcome {
    if ch == ' ' || ch == '\t' then Quiet(q)
    else
      var q := q.(state := HeaderValue, index := 0);
      if ch == CR then Emit(q.(hstate := General, state := HeaderAlmostDone), Data(Value, ""))
      else if ch == LF then Emit(q.(state := HeaderFieldStart), Data(Value, ""))
      else
        var c := Lower(ch);
        match q.hstate
        case UpgradeHeader => Emit(q.(flags := q.flags.(upgrade := true), hstate := General), Data(Value, [ch]))
        case TransferEncoding =>
          Emit(q.(hstate := if c == 'c' then MatchingTransferEncodingChunked else General), Data(Value, [ch]))
        case ContentLength =>
          if !IsNum(ch) then Fail(q, INVALID_CONTENT_LENGTH)
          else Emit(q.(length := Digit(ch)), Data(Value, [ch]))
        case Connection =>
          Emit(q.(hstate := if c == 'k' then MatchingConnectionKeepAlive
                  else if c == 'c' then MatchingConnectionClose
                  else General), Data(Value, [ch]))
        case _ => Emit(q.(hstate := General), Data(Value, [ch]))
  }

  /** Appending a digit to a 64-bit counter, with the wrap-around of `uint64_t`. */
  function AppendDigit(length: nat, base: nat, digit: nat): nat {
    (base * length + digit) % TWO_64
  }

  /** The overflow test after appending a digit: `t < length || t == ULLONG_MAX`. */
  predicate Overflows(length: nat, t: nat) { t < length || t == NO_LENGTH }

  function OnHeaderValue(q: Parser, ch: char): Outcome {
    if ch == CR then Quiet(q.(state := HeaderAlmostDone))
    else if ch == LF then OnHeaderAlmostDone(q.(state := HeaderAlmostDone), ch)
    else match q.hstate
      case General => Emit(q, Data(Value, [ch]))
      case ContentLength =>
        if ch == ' ' then Emit(q, Data(Value, [ch]))
        else if !IsNum(ch) then Fail(q, INVALID_CONTENT_LENGTH)
        else
          var t := AppendDigit(q.length, 10, Digit(ch));
          if Overflows(q.length, t) then Fail(q, INVALID_CONTENT_LENGTH)
          else Emit(q.(length := t), Data(Value, [ch]))
      case MatchingTransferEncodingChunked => ValueMatch(q, ch)
      case MatchingConnectionKeepAlive => ValueMatch(q, ch)
      case MatchingConnectionClose => ValueMatch(q, ch)
      case TransferEncodingChunked => ValueTail(q, ch)
      case ConnectionKeepAlive => ValueTail(q, ch)
      case ConnectionClose => ValueTail(q, ch)
      case _ => Emit(q.(hstate := General), Data(Value, [ch]))
  }

  function ValueMatch(q: Parser, ch: char): Outcome {
    Emit(q.(index := q.index + 1, hstate := MatchNext(q.hstate, q.index + 1, Lower(ch))), Data(Value, [ch]))
  }

  function ValueTail(q: Parser, ch: char): Outcome {
    Emit(if ch != ' ' then q.(hstate := General) else q, Data(Value, [ch]))
  }

  function OnHeaderAlmostDone(q: Parser, ch: char): Outcome {
    if ch != LF then Fail(q, STRICT)
    else
      var q := q.(state := HeaderValueLws);
      match q.hstate
      case ConnectionKeepAlive => Quiet(q.(flags := q.flags.(keepAlive := true)))
      case ConnectionClose => Quiet(q.(flags := q.flags.(close := true)))
      case TransferEncodingChunked => Quiet(q.(flags := q.flags.(chunked := true)))
      case _ => Quiet(q)
  }

  function OnHeaderValueLws(q: Parser, ch: char): Outcome {
    if ch == ' ' || ch == '\t' then Quiet(q.(state := HeaderValueStart))
    else OnHeaderFieldStart(q.(state := HeaderFieldStart), ch)
  }

  function OnHeadersAlmostDone(q: Parser, ch: char): Outcome {
    if ch != LF then Fail(q, STRICT)
    else if q.flags.trailing then Emit(q.(state := NewMessage(q)), MessageComplete)
    else
      var q := q.(state := HeadersDone, upgrade := q.flags.upgrade || q.verb == CONNECT);
      var o := OnHeadersDone(q, ch);
      Outcome(o.ps, [HeadersComplete(q.length, q.flags.chunked, q.upgrade)] + o.events, o.stop)
  }

  function OnHeadersDone(q: Parser, ch: char): Outcome {
    if ch != LF then Fail(q, STRICT)
    else
      var q := q.(nread := 0);
      if q.upgrade then Outcome(q.(state := NewMessage(q)), [MessageComplete], true)
      else if q.flags.chunked then Quiet(q.(state := ChunkSizeStart))
      else if q.length == 0 then Emit(q.(state := NewMessage(q)), MessageComplete)
      else if q.length != NO_LENGTH then Quiet(q.(state := BodyIdentity))
      else Emit(q.(state := NewMessage(q)), MessageComplete)
  }

  // ----- bodies

  function OnChunkSize(q: Parser, ch: char): Outcome
    requires ChunkSizeState(q.state)
  {
    match q.state
    case ChunkSizeStart =>
      if Unhex(ch) == -1 then Fail(q, INVALID_CHUNK_SIZE)
      else Quiet(q.(length := Unhex(ch), state := ChunkSize))
    case ChunkSize =>
      if ch == CR then Quiet(q.(state := ChunkSizeAlmostDone))
      else if Unhex(ch) == -1 then
        if ch == ';' || ch == ' ' then Quiet(q.(state := ChunkParameters)) else Fail(q, INVALID_CHUNK_SIZE)
      else
        var t := AppendDigit(q.length, 16, Unhex(ch));
        if Overflows(q.length, t) then Fail(q, INVALID_CONTENT_LENGTH) else Quiet(q.(length := t))
    case ChunkParameters => if ch == CR then Quiet(q.(state := ChunkSizeAlmostDone)) else Quiet(q)
    case ChunkSizeAlmostDone =>
      if ch != LF then Fail(q, STRICT)
      else
        var q := q.(nread := 0);
        if q.length == 0 then Quiet(q.(flags := q.flags.(trailing := true), state := HeaderFieldStart))
        else Quiet(q.(state := ChunkData))
  }

  function OnBody(q: Parser, ch: char): Outcome {
    match q.state
    case BodyIdentity =>
      var q := q.(length := if q.length > 0 then q.length - 1 else 0);
      if q.length == 0 then Outcome(q.(state := NewMessage(q)), [Data(Body, [ch]), MessageComplete], false)
      else Emit(q, Data(Body, [ch]))
    case ChunkData =>
      var q := q.(length := if q.length > 0 then q.length - 1 else 0);
      Emit(if q.length == 0 then q.(state := ChunkDataAlmostDone) else q, Data(Body, [ch]))
    case ChunkDataAlmostDone => Expect(q, ch, CR, ChunkDataDone)
    case ChunkDataDone => if ch != LF then Fail(q, STRICT) else Quiet(q.(nread := 0, state := ChunkSizeStart))
    case _ => Emit(q.(state := NewMessage(q)), MessageComplete)
  }
}
