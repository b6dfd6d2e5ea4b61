/** The vocabulary of the HTTP request parser: states, parser fields, callbacks and character classes. */
module HttpTypes {

  /** `enum state`, request side only; `HeadersDone` and `MessageDone` only live inside one byte. */
  datatype State =
    | Dead
    | StartReq
    | ReqMethod
    | ReqSpacesBeforeUrl
    | ReqSchema
    | ReqSchemaSlash
    | ReqSchemaSlashSlash
    | ReqServerStart
    | ReqServer
    | ReqServerWithAt
    | ReqPath
    | ReqQueryStringStart
    | ReqQueryString
    | ReqFragmentStart
    | ReqFragment
    | ReqHttpStart
    | ReqHttpH
    | ReqHttpHT
    | ReqHttpHTT
    | ReqHttpHTTP
    | ReqFirstHttpMajor
    | ReqHttpMajor
    | ReqFirstHttpMinor
    | ReqHttpMinor
    | ReqLineAlmostDone
    | HeaderFieldStart
    | HeaderField
    | HeaderValueStart
    | HeaderValue
    | HeaderValueLws
    | HeaderAlmostDone
    | ChunkSizeStart
    | ChunkSize
    | ChunkParameters
    | ChunkSizeAlmostDone
    | HeadersAlmostDone
    | HeadersDone
    | ChunkData
    | ChunkDataAlmostDone
    | ChunkDataDone
    | BodyIdentity
    | MessageDone

  /** `enum header_states`: what the header name, then the header value, has been recognised as so far. */
  datatype HeaderState =
    | General
    | C
    | CO
    | CON
    | MatchingConnection
    | MatchingProxyConnection
    | MatchingContentLength
    | MatchingTransferEncoding
    | MatchingUpgrade
    | Connection
    | ContentLength
    | TransferEncoding
    | UpgradeHeader
    | MatchingTransferEncodingChunked
    | MatchingConnectionKeepAlive
    | MatchingConnectionClose
    | TransferEncodingChunked
    | ConnectionKeepAlive
    | ConnectionClose

  datatype Method =
    | DELETE | GET | HEAD | POST | PUT | CONNECT | OPTIONS | TRACE | COPY | LOCK | MKCOL | MOVE
    | PROPFIND | PROPPATCH | SEARCH | UNLOCK | REPORT | MKACTIVITY | CHECKOUT | MERGE | MSEARCH
    | NOTIFY | SUBSCRIBE | UNSUBSCRIBE | PATCH | PURGE

  datatype Errno =
    | OK
    | INVALID_EOF_STATE
    | HEADER_OVERFLOW
    | CLOSED_CONNECTION
    | INVALID_VERSION
    | INVALID_METHOD
    | INVALID_URL
    | LF_EXPECTED
    | INVALID_HEADER_TOKEN
    | INVALID_CONTENT_LENGTH
    | INVALID_CHUNK_SIZE
    | INVALID_CONSTANT
    | STRICT

  datatype Flags = Flags(chunked: bool, keepAlive: bool, close: bool, trailing: bool, upgrade: bool)

  const NO_FLAGS := Flags(false, false, false, false, false)

  /** The fields of `struct http_parser`. */
  datatype Parser = Parser(
    state: State,
    hstate: HeaderState,
    index: nat,
    nread: nat,
    length: nat,
    flags: Flags,
    major: nat,
    minor: nat,
    verb: Method,
    errno: Errno,
    upgrade: bool)

  datatype Kind = Url | Field | Value | Body

  /** One callback. `HeadersComplete` also records what the callback can read off the parser. */
  datatype Event =
    | MessageBegin
    | Data(kind: Kind, bytes: string)
    | HeadersComplete(length: nat, chunked: bool, upgrade: bool)
    | MessageComplete

  const CR: char := '\r'
  const LF: char := '\n'
  const TWO_64: nat := 0x1_0000_0000_0000_0000
  /** ULLONG_MAX: "no Content-Length header". */
  const NO_LENGTH: nat := 0xFFFF_FFFF_FFFF_FFFF
  const MAX_HEADER_SIZE: nat := 80 * 1024

  /** `method_strings`. */
  function MethodName(m: Method): string {
    match m
    case DELETE => "DELETE"
    case GET => "GET"
    case HEAD => "HEAD"
    case POST => "POST"
    case PUT => "PUT"
    case CONNECT => "CONNECT"
    case OPTIONS => "OPTIONS"
    case TRACE => "TRACE"
    case COPY => "COPY"
    case LOCK => "LOCK"
    case MKCOL => "MKCOL"
    case MOVE => "MOVE"
    case PROPFIND => "PROPFIND"
    case PROPPATCH => "PROPPATCH"
    case SEARCH => "SEARCH"
    case UNLOCK => "UNLOCK"
    case REPORT => "REPORT"
    case MKACTIVITY => "MKACTIVITY"
    case CHECKOUT => "CHECKOUT"
    case MERGE => "MERGE"
    case MSEARCH => "M-SEARCH"
    case NOTIFY => "NOTIFY"
    case SUBSCRIBE => "SUBSCRIBE"
    case UNSUBSCRIBE => "UNSUBSCRIBE"
    case PATCH => "PATCH"
    case PURGE => "PURGE"
  }

  /** Reading a NUL-terminated string; the parser only reads up to and including the terminator. */
  function CharAt(s: string, i: nat): char {
    if i < |s| then s[i] else '\0'
  }

  predicate IsUpper(c: char) { 'A' <= c <= 'Z' }

  predicate IsLower(c: char) { 'a' <= c <= 'z' }

  predicate IsNum(c: char) { '0' <= c <= '9' }

  predicate IsAlpha(c: char) { IsUpper(c) || IsLower(c) }

  predicate IsAlphaNum(c: char) { IsAlpha(c) || IsNum(c) }

  /** `ch - '0'`. */
  function Digit(c: char): nat
    requires IsNum(c)
  {
    c as int - '0' as int
  }

  function ToLower(c: char): char {
    if IsUpper(c) then (c as int + 32) as char else c
  }

  /** LOWER(c): sets bit 0x20; bytes from 0x80 on stay outside ASCII either way. */
  function Lower(c: char): char {
    if c as int < 128 && c as int / 32 % 2 == 0 then (c as int + 32) as char else c
  }

  /** The `tokens` table: the lower-cased token character of RFC 2616 section 2.2, or NUL. */
  function Token(c: char): char {
    if IsAlphaNum(c) || c == '!' || '#' <= c <= '\'' || c == '*' || c == '+' || c == '-' || c == '.'
       || '^' <= c <= '`' || c == '|' || c == '~'
    then ToLower(c) else '\0'
  }

  /** IS_HEX. */
  predicate IsHex(c: char) { IsNum(c) || 'a' <= Lower(c) <= 'f' }

  /**
   The `unhex` table: -1 for what is no hexadecimal digit, in the half that is written out. The other half has no
   initialisers, so that all bytes from 0x80 on count as the digit 0.
   */
  function Unhex(c: char): int {
    if IsNum(c) then Digit(c)
    else if 'a' <= c <= 'f' then c as int - 'a' as int + 10
    else if 'A' <= c <= 'F' then c as int - 'A' as int + 10
    else if 0x80 <= c as int < 0x100 then 0
    else -1
  }

  predicate IsMark(c: char) {
    c == '-' || c == '_' || c == '.' || c == '!' || c == '~' || c == '*' || c == '\'' || c == '(' || c == ')'
  }

  predicate IsUserinfoChar(c: char) {
    IsAlphaNum(c) || IsMark(c) || c == '%' || c == ';' || c == ':' || c == '&' || c == '=' || c == '+'
    || c == '$' || c == ','
  }

  /** The `normal_url_char` bitmap in strict mode: printable ASCII except '#' and '?'. */
  predicate IsUrlChar(c: char) {
    '!' <= c <= '~' && c != '#' && c != '?'
  }

  /** `parse_url_char`: one transition of the URL automaton; `Dead` rejects. */
  function ParseUrlChar(s: State, ch: char): State {
    if ch == ' ' || ch == CR || ch == LF || ch == '\t' || ch == '\U{0C}' then Dead
    else match s {
      case ReqSpacesBeforeUrl =>
        if ch == '/' || ch == '*' then ReqPath else if IsAlpha(ch) then ReqSchema else Dead
      case ReqSchema =>
        if IsAlpha(ch) then ReqSchema else if ch == ':' then ReqSchemaSlash else Dead
      case ReqSchemaSlash => if ch == '/' then ReqSchemaSlashSlash else Dead
      case ReqSchemaSlashSlash => if ch == '/' then ReqServerStart else Dead
      case ReqServerWithAt => if ch == '@' then Dead else ParseServerChar(ch)
      case ReqServerStart => ParseServerChar(ch)
      case ReqServer => ParseServerChar(ch)
      case ReqPath =>
        if IsUrlChar(ch) then ReqPath
        else if ch == '?' then ReqQueryStringStart
        else if ch == '#' then ReqFragmentStart
        else Dead
      case ReqQueryStringStart => ParseQueryChar(ch)
      case ReqQueryString => ParseQueryChar(ch)
      case ReqFragmentStart =>
        if IsUrlChar(ch) || ch == '?' then ReqFragment else if ch == '#' then ReqFragmentStart else Dead
      case ReqFragment =>
        if IsUrlChar(ch) || ch == '?' || ch == '#' then ReqFragment else Dead
      case _ => Dead
    }
  }

  function ParseServerChar(ch: char): State {
    if ch == '/' then ReqPath
    else if ch == '?' then ReqQueryStringStart
    else if ch == '@' then ReqServerWithAt
    else if IsUserinfoChar(ch) || ch == '[' || ch == ']' then ReqServer
    else Dead
  }

  function ParseQueryChar(ch: char): State {
    if IsUrlChar(ch) || ch == '?' then ReqQueryString else if ch == '#' then ReqFragmentStart else Dead
  }

  /** PARSING_HEADER: the states whose bytes count towards the header size limit. */
  predicate ParsingHeader(s: State) {
    !s.ChunkData? && !s.ChunkDataAlmostDone? && !s.ChunkDataDone? && !s.BodyIdentity? && !s.MessageDone?
  }

  /** `http_should_keep_alive` for a request. */
  predicate ShouldKeepAlive(q: Parser) {
    if q.major > 0 && q.minor > 0 then !q.flags.close else q.flags.keepAlive
  }

  /** NEW_MESSAGE. */
  function NewMessage(q: Parser): State {
    if ShouldKeepAlive(q) then StartReq else Dead
  }

  /** `http_parser_init(parser, HTTP_REQUEST)`: everything zero except the state. */
  const INITIAL := Parser(StartReq, General, 0, 0, 0, NO_FLAGS, 0, 0, DELETE, OK, false)
}
