/**
 The tables and macros of the parser, written out: which bytes are tokens, digits and characters of a URL, which words
 are methods, and how long a head may be. Nothing else says so independently of the definitions the parser uses.
 */
module HttpTables {
  import opened HttpTypes
  import opened HttpStep
  import opened HttpRun
  import opened HttpNames
  import HttpUrl
  import opened HttpHeard

  // ----- bytes

  predicate Among(c: char, low: int, high: int) { low <= c as int <= high }

  predicate Letter(c: char) { Among(c, 0x41, 0x5A) || Among(c, 0x61, 0x7A) }

  predicate LetterOrDigit(c: char) { Letter(c) || Among(c, 0x30, 0x39) }

  /** Section 2.2 of RFC 2616: any CHAR except CTLs or separators. */
  lemma TokensAre(c: char)
    ensures Token(c) != '\0' <==> Among(c, 0x21, 0x7E) && c !in "()<>@,;:\\\"/[]?={}"
    ensures Token(c) != '\0' ==> Token(c) as int == if Among(c, 0x41, 0x5A) then c as int + 0x20 else c as int
  {
  }

  lemma LettersAndDigitsAre(c: char)
    ensures IsAlpha(c) <==> Letter(c)
    ensures IsAlphaNum(c) <==> LetterOrDigit(c)
    ensures IsNum(c) <==> Among(c, 0x30, 0x39)
    ensures IsNum(c) ==> Digit(c) == c as int - 0x30
  {
  }

  /** Both ways of lower-casing, on the bytes that a message may hold. */
  lemma LowerCaseIs(c: char)
    ensures ToLower(c) as int == if Among(c, 0x41, 0x5A) then c as int + 0x20 else c as int
    ensures Lower(c) as int == if Among(c, 0, 0x1F) || Among(c, 0x40, 0x5F) then c as int + 0x20 else c as int
  {
  }

  /** A digit of a chunk size and its value; the half of the table from 0x80 on has no initialisers. */
  lemma HexDigitsAre(c: char)
    ensures Among(c, 0x30, 0x39) ==> Unhex(c) == c as int - 0x30
    ensures Among(c, 0x41, 0x46) ==> Unhex(c) == c as int - 0x41 + 0xA
    ensures Among(c, 0x61, 0x66) ==> Unhex(c) == c as int - 0x61 + 0xA
    ensures Among(c, 0x80, 0xFF) ==> Unhex(c) == 0
    ensures Unhex(c) == -1 <==> !Among(c, 0x30, 0x39) && !Among(c, 0x41, 0x46) && !Among(c, 0x61, 0x66) && !Among(c, 0x80, 0xFF)
  {
  }

  /** The characters of the pieces of a URL (RFC 2396, section 2, and what the source makes of it). */
  lemma UrlCharactersAre(c: char)
    ensures IsUrlChar(c) <==> Among(c, 0x21, 0x7E) && c !in "#?"
    ensures HttpUrl.IsQueryChar(c) <==> Among(c, 0x21, 0x7E) && c != '#'
    ensures HttpUrl.IsFragmentChar(c) <==> Among(c, 0x21, 0x7E)
    ensures IsUserinfoChar(c) <==> LetterOrDigit(c) || c in "-_.!~*'()%;:&=+$,"
    ensures HttpUrl.IsHostChar(c) <==> LetterOrDigit(c) || c in ".-"
    ensures HttpUrl.IsV6Char(c) <==> Among(c, 0x30, 0x39) || Among(c, 0x41, 0x46) || Among(c, 0x61, 0x66) || c in ":."
  {
  }

  // ----- names

  /** Behind the first character of a header name: what goes on, what ends it, and what is refused. */
  lemma NameBytesAre(q: Parser, c: char)
    requires q.state.HeaderField? && q.errno == OK && Room(q, 1)
    ensures var o := Step(q, c);
      if Among(c, 0x21, 0x7E) && c !in "()<>@,;:\\\"/[]?={}" then !o.stop && o.ps.state.HeaderField? && o.events == [Data(Field, [c])]
      else if c == ':' then !o.stop && o.ps.state.HeaderValueStart? && o.events == []
      else if c == '\r' then !o.stop && o.ps.state.HeaderAlmostDone? && o.events == []
      else if c == '\n' then !o.stop && o.ps.state.HeaderFieldStart? && o.events == []
      else o.stop && o.ps.errno == INVALID_HEADER_TOKEN
  {
    TokensAre(c);
    hide Token, FieldByte;
    FieldByteOnly(q.(nread := q.nread + 1), Token(c), c);
  }

  lemma FieldByteOnly(q: Parser, c: char, ch: char)
    ensures FieldByte(q, c, ch) == q.(hstate := FieldByte(q, c, ch).hstate, index := FieldByte(q, c, ch).index)
  {
    hide MatchNext;
  }

  /** What a name means: no other name is looked for. */
  function Meaning(name: string): HeaderState {
    if name == "content-length" then ContentLength
    else if name == "transfer-encoding" then TransferEncoding
    else if name == "upgrade" then UpgradeHeader
    else Connection
  }

  /** The names that matter are read in any mixture of upper and lower case. */
  lemma NamesAreRead(ps: Parser, tr: seq<Event>, w: string)
    requires ps.state.HeaderFieldStart? && ps.errno == OK && Room(ps, |w| + 1)
    requires LowerAll(w) in ["content-length", "transfer-encoding", "upgrade", "connection", "proxy-connection"]
    ensures var r := Run(ps, tr, w + ":");
      && !r.stopped && r.trace == Push(tr, Data(Field, w))
      && r.ps.state.HeaderValueStart? && r.ps.hstate == Meaning(LowerAll(w))
  {
    NamesAreTokens(w);
    hide Step, Run, Token, ToLower, LowerAll, AllTokens;
    HeaderNamesAreExact(ps, tr, w);
  }

  lemma NamesAreTokens(w: string)
    requires LowerAll(w) in ["content-length", "transfer-encoding", "upgrade", "connection", "proxy-connection"]
    ensures AllTokens(w) && w != ""
  {
    var v := LowerAll(w);
    forall i | 0 <= i < |w| ensures Token(w[i]) != '\0' {
      LowerLetter(w[i], v[i]);
      OnlyLettersAndDashes(v, i);
    }
    hide Token, ToLower;
  }

  lemma LowerLetter(c: char, d: char)
    requires ToLower(c) == d && (Among(d, 0x61, 0x7A) || d == '-')
    ensures Token(c) != '\0'
  {
  }

  lemma OnlyLettersAndDashes(v: string, i: nat)
    requires v in ["content-length", "transfer-encoding", "upgrade", "connection", "proxy-connection"] && i < |v|
    ensures Among(v[i], 0x61, 0x7A) || v[i] == '-'
  {
  }

  // ----- methods

  /** HTTP_METHOD_MAP, by number. */
  const METHODS: seq<string> := [
    "DELETE", "GET", "HEAD", "POST", "PUT", "CONNECT", "OPTIONS", "TRACE", "COPY", "LOCK", "MKCOL", "MOVE",
    "PROPFIND", "PROPPATCH", "SEARCH", "UNLOCK", "REPORT", "MKACTIVITY", "CHECKOUT", "MERGE", "M-SEARCH",
    "NOTIFY", "SUBSCRIBE", "UNSUBSCRIBE", "PATCH", "PURGE"]

  const VERBS: seq<Method> := [
    DELETE, GET, HEAD, POST, PUT, CONNECT, OPTIONS, TRACE, COPY, LOCK, MKCOL, MOVE,
    PROPFIND, PROPPATCH, SEARCH, UNLOCK, REPORT, MKACTIVITY, CHECKOUT, MERGE, MSEARCH,
    NOTIFY, SUBSCRIBE, UNSUBSCRIBE, PATCH, PURGE]

  /** Each of these words, and no other, is accepted as a method, and stored by its number. */
  lemma MethodsAre(ps: Parser, tr: seq<Event>, w: string)
    requires ps.state.StartReq? && ps.errno == OK && Room(ps, |w| + 1)
    requires w != "" && ' ' !in w && w[0] != CR && w[0] != LF
    ensures var r := Run(ps, tr, w + " ");
      && (r.ps.errno == OK <==> w in METHODS)
      && forall i :: 0 <= i < 26 && w == METHODS[i] ==> r.ps.verb == VERBS[i]
  {
    MethodsAreExact(ps, tr, w);
    hide Run;
    var r := Run(ps, tr, w + " ");
    forall i | 0 <= i < 26 ensures MethodName(VERBS[i]) == METHODS[i] {
      NameOfNumber(i);
    }
    if r.ps.errno == OK {
      NumberOf(r.ps.verb);
    }
    forall i | 0 <= i < 26 && w == METHODS[i] ensures r.ps.verb == VERBS[i] {
      assert w == MethodName(VERBS[i]);
      SameNumber(r.ps.verb, VERBS[i]);
    }
  }

  lemma NameOfNumber(i: nat)
    requires i < 26
    ensures MethodName(VERBS[i]) == METHODS[i]
  {
  }

  lemma NumberOf(m: Method)
    ensures MethodName(m) in METHODS
  {
  }

  lemma SameNumber(m: Method, n: Method)
    requires MethodName(m) == MethodName(n)
    ensures m == n
  {
  }

  // ----- the limit

  /** Bytes outside bodies count, and the 81921st of them is one too many. */
  lemma HeadersAreLimited(q: Parser, c: char)
    requires ParsingHeader(q.state) && q.errno == OK
    ensures q.nread >= 81920 ==> Step(q, c).stop && Step(q, c).ps.errno == HEADER_OVERFLOW
    ensures q.nread < 81920 ==> Step(q, c).ps.errno != HEADER_OVERFLOW
  {
    hide Dispatch;
    var a := q.(nread := q.nread + 1);
    if InLine(a.state) {
      NoLimitInLine(a, c);
    } else if InVersion(a.state) {
      NoLimitInVersion(a, c);
    } else {
      NoLimitInHeaders(a, c);
    }
  }

  lemma NoLimitInLine(q: Parser, c: char)
    requires InLine(q.state) && q.errno == OK
    ensures Dispatch(q, c).ps.errno != HEADER_OVERFLOW
  {
    hide MethodName, SwitchMethod, FirstMethod, ParseUrlChar, CharAt, OnVersion, OnChunkSize, OnHeaderFieldStart,
      OnHeaderField, OnHeaderValueStart, OnHeaderValue, OnHeaderValueLws, OnHeaderAlmostDone, OnHeadersAlmostDone,
      OnHeadersDone, OnBody;
  }

  lemma NoLimitInVersion(q: Parser, c: char)
    requires InVersion(q.state) && q.errno == OK
    ensures Dispatch(q, c).ps.errno != HEADER_OVERFLOW
  {
    hide AppendDigit, Overflows, Unhex, OnLine, OnUrl, OnSpacesBeforeUrl, OnHeaderFieldStart,
      OnHeaderField, OnHeaderValueStart, OnHeaderValue, OnHeaderValueLws, OnHeaderAlmostDone, OnHeadersAlmostDone,
      OnHeadersDone, OnBody;
  }

  lemma NoLimitInHeaders(q: Parser, c: char)
    requires !InLine(q.state) && !InVersion(q.state) && q.errno == OK
    ensures Dispatch(q, c).ps.errno != HEADER_OVERFLOW
  {
    hide Token, Lower, FieldByte, MatchNext, AppendDigit, Overflows, ShouldKeepAlive, FirstHeaderState, OnLine,
      OnSpacesBeforeUrl, OnUrl, OnVersion, OnChunkSize;
    FieldByteOnly(q, Token(c), c);
  }

  /** Bodies are not limited. */
  lemma BodiesAreNotLimited(q: Parser, c: char)
    requires q.state.BodyIdentity? || q.state.ChunkData?
    ensures Step(q, c).ps.errno == q.errno && (Step(q, c).ps.nread == q.nread || Step(q, c).ps.nread == 0)
  {
  }
}
