/**
 What holds of the parser between any two bytes of any run. The `assert`s of `http_parser_execute` and the
 8-bit and 16-bit fields of `struct http_parser` rest on these facts.
 */
module HttpInvariant {
  import opened HttpTypes
  import opened HttpStep
  import opened HttpRun
  import HttpNames

  /** The header states that may occur while a header name is being read, with their position. */
  predicate LegalName(hs: HeaderState, index: nat) {
    match hs
    case General => index <= 17
    case C => index == 0
    case CO => index == 1
    case CON => index == 2
    case MatchingConnection => 3 <= index <= 8
    case MatchingProxyConnection => index <= 14
    case MatchingContentLength => 3 <= index <= 12
    case MatchingTransferEncoding => index <= 15
    case MatchingUpgrade => index <= 5
    case Connection => index == 9 || index == 15
    case ContentLength => index == 13
    case TransferEncoding => index == 16
    case UpgradeHeader => index == 6
    case _ => false
  }

  /** The header states that may occur while a header value is being read. */
  predicate LegalValue(hs: HeaderState, index: nat) {
    match hs
    case General => index <= 17
    case ContentLength => index == 0
    case MatchingTransferEncodingChunked => index <= 5
    case MatchingConnectionKeepAlive => index <= 8
    case MatchingConnectionClose => index <= 3
    case TransferEncodingChunked => index == 6
    case ConnectionKeepAlive => index == 9
    case ConnectionClose => index == 4
    case _ => false
  }

  predicate ChunkState(s: State) {
    ChunkSizeState(s) || s.ChunkData? || s.ChunkDataAlmostDone? || s.ChunkDataDone?
  }

  predicate Basics(q: Parser) {
    q.errno == OK && q.nread <= MAX_HEADER_SIZE && q.length < TWO_64 && q.major <= 999 && q.minor <= 999 && q.index <= 17
  }

  predicate StateOk(q: Parser) {
    match q.state
    case ReqMethod => 1 <= q.index <= |MethodName(q.verb)|
    case HeaderField => LegalName(q.hstate, q.index)
    case HeaderValue => LegalValue(q.hstate, q.index)
    case ChunkSizeStart => q.flags.chunked && q.nread == 0
    case ChunkSize => q.flags.chunked && q.length != NO_LENGTH
    case ChunkParameters => q.flags.chunked && q.length != NO_LENGTH
    case ChunkSizeAlmostDone => q.flags.chunked && q.length != NO_LENGTH
    case ChunkData => q.flags.chunked && 0 < q.length < NO_LENGTH
    case ChunkDataAlmostDone => q.flags.chunked && q.length == 0
    case ChunkDataDone => q.flags.chunked
    case BodyIdentity => 0 < q.length < NO_LENGTH
    case HeadersDone => false
    case MessageDone => false
    case _ => true
  }

  /** The parser between two bytes, as long as no error has occurred. */
  predicate Legal(q: Parser) { Basics(q) && StateOk(q) }

  /** A state inside a URL, header name or header value has already reported some of it. */
  predicate TailOk(s: State, tr: seq<Event>) {
    && (UrlState(s) ==> EndsIn(tr, Url))
    && (s.HeaderField? ==> EndsIn(tr, Field))
    && (s.HeaderValue? ==> EndsIn(tr, Value))
  }

  /** What a dispatch starts from: `Legal`, with the byte already counted. */
  predicate Counted(q: Parser) {
    if q.state.ChunkSizeStart? then q.nread == 1 && Legal(q.(nread := 0)) else Legal(q)
  }

  predicate Carries(es: seq<Event>, k: Kind) {
    |es| == 1 && es[0].Data? && es[0].kind == k
  }

  /** What every byte keeps, or reports, or stops with. `upgraded` is the `upgrade` flag before the byte. */
  predicate Keeps(upgraded: bool, o: Outcome) {
    && (o.ps.errno == OK ==> Legal(o.ps))
    && (o.ps.errno != OK ==> o.stop && o.events == [])
    && (o.stop && o.ps.errno == OK ==> o.ps.upgrade && (o.ps.state.StartReq? || o.ps.state.Dead?))
    && (!o.stop && o.ps.upgrade ==> upgraded)
    && (!o.stop && UrlState(o.ps.state) ==> Carries(o.events, Url))
    && (!o.stop && o.ps.state.HeaderField? ==> Carries(o.events, Field))
    && (!o.stop && o.ps.state.HeaderValue? ==> Carries(o.events, Value))
  }

  lemma StartReqKeeps(q: Parser, ch: char)
    requires Counted(q) && q.state.StartReq?
    ensures Keeps(q.upgrade, OnStartReq(q, ch))
  {
  }

  lemma NameLength(m: Method)
    ensures |MethodName(m)| <= 11
  {
  }

  lemma ReqMethodKeeps(q: Parser, ch: char)
    requires Counted(q) && q.state.ReqMethod?
    ensures Keeps(q.upgrade, OnReqMethod(q, ch))
  {
    NameLength(q.verb);
    if ch != '\0' {
      if HttpNames.NextGuess(q.verb, q.index, ch).Guess? {
        HttpNames.SwitchAgrees(q.verb, q.index, ch);
        NameLength(HttpNames.NextGuess(q.verb, q.index, ch).verb);
      }
    }
    hide MethodName, SwitchMethod;
  }

  lemma LineKeeps(q: Parser, ch: char)
    requires Counted(q) && LineState(q.state)
    ensures Keeps(q.upgrade, OnLine(q, ch))
  {
    if q.state.StartReq? {
      StartReqKeeps(q, ch);
    } else if q.state.ReqMethod? {
      ReqMethodKeeps(q, ch);
    }
    hide OnStartReq, OnReqMethod;
  }

  lemma UrlByteKeeps(q: Parser, from: State, ch: char)
    requires Counted(q) && (UrlState(q.state) || q.state.ReqSpacesBeforeUrl?)
    ensures Keeps(q.upgrade, UrlByte(q, from, ch))
  {
    hide MethodName, LegalName, LegalValue;
  }

  lemma SpacesKeep(q: Parser, ch: char)
    requires Counted(q) && q.state.ReqSpacesBeforeUrl?
    ensures Keeps(q.upgrade, OnSpacesBeforeUrl(q, ch))
  {
    if ch != ' ' {
      UrlByteKeeps(q, if q.verb == CONNECT then ReqServerStart else ReqSpacesBeforeUrl, ch);
    }
    hide UrlByte;
  }

  lemma UrlKeeps(q: Parser, ch: char)
    requires Counted(q) && UrlState(q.state)
    ensures Keeps(q.upgrade, OnUrl(q, ch))
  {
    if ch != ' ' && ch != CR && ch != LF {
      UrlByteKeeps(q, q.state, ch);
    }
    hide UrlByte, MethodName, LegalName, LegalValue;
  }

  lemma VersionKeeps(q: Parser, ch: char)
    requires Counted(q) && VersionState(q.state)
    ensures Keeps(q.upgrade, OnVersion(q, ch))
  {
    hide MethodName, LegalName, LegalValue, NewMessage;
    if q.state.ReqHttpMajor? || q.state.ReqHttpMinor? {
      NumberKeeps(q, ch);
      hide OnVersion, Counted, Keeps;
    }
  }

  lemma NumberKeeps(q: Parser, ch: char)
    requires Counted(q) && (q.state.ReqHttpMajor? || q.state.ReqHttpMinor?)
    ensures Keeps(q.upgrade, OnVersion(q, ch))
  {
    hide MethodName, LegalName, LegalValue;
  }

  lemma HeadersDoneKeeps(q: Parser, ch: char)
    requires q.state.HeadersAlmostDone? && Legal(q)
    ensures Keeps(q.upgrade, OnHeadersAlmostDone(q, ch))
  {
    hide MethodName, LegalName, LegalValue, ShouldKeepAlive;
  }

  lemma FieldStartKeeps(q: Parser, ch: char)
    requires Counted(q) && q.state.HeaderFieldStart?
    ensures Keeps(q.upgrade, OnHeaderFieldStart(q, ch))
  {
    if ch == LF {
      HeadersDoneKeeps(q.(state := HeadersAlmostDone), ch);
      hide OnHeadersAlmostDone;
    }
    hide MethodName, LegalValue, OnHeadersDone;
  }

  lemma FieldByteKeeps(q: Parser, c: char, ch: char)
    requires q.state.HeaderField? && LegalName(q.hstate, q.index) && q.index <= 17
    requires c != '\0' && c == Token(ch)
    ensures var q' := FieldByte(q, c, ch);
      && LegalName(q'.hstate, q'.index)
      && q' == q.(hstate := q'.hstate, index := q'.index)
  {
  }

  lemma FieldKeeps(q: Parser, ch: char)
    requires Counted(q) && q.state.HeaderField?
    ensures Keeps(q.upgrade, OnHeaderField(q, ch))
  {
    if Token(ch) != '\0' {
      FieldByteKeeps(q, Token(ch), ch);
      var q' := FieldByte(q, Token(ch), ch);
      assert Legal(q.(hstate := q'.hstate, index := q'.index));
    }
  }

  lemma ValueStartKeeps(q: Parser, ch: char)
    requires Counted(q) && q.state.HeaderValueStart?
    ensures Keeps(q.upgrade, OnHeaderValueStart(q, ch))
  {
    hide Lower, MethodName, LegalName, ParsingHeader;
  }

  lemma ValueMatchKeeps(q: Parser, ch: char)
    requires Counted(q) && q.state.HeaderValue?
    requires q.hstate.MatchingTransferEncodingChunked? || q.hstate.MatchingConnectionKeepAlive?
             || q.hstate.MatchingConnectionClose?
    ensures Keeps(q.upgrade, ValueMatch(q, ch))
  {
  }

  lemma ValueKeeps(q: Parser, ch: char)
    requires Counted(q) && q.state.HeaderValue?
    ensures Keeps(q.upgrade, OnHeaderValue(q, ch))
  {
    hide MethodName, LegalName, Lower, MatchNext;
    if ch == LF {
      LineEndKeeps(q.(state := HeaderAlmostDone), ch);
      hide OnHeaderAlmostDone;
    } else if ch != CR {
      if q.hstate.MatchingTransferEncodingChunked? || q.hstate.MatchingConnectionKeepAlive?
         || q.hstate.MatchingConnectionClose?
      {
        ValueMatchKeeps(q, ch);
        hide ValueMatch;
      } else {
        ValuePlainKeeps(q, ch);
        hide OnHeaderValue;
      }
    }
  }

  lemma ValuePlainKeeps(q: Parser, ch: char)
    requires Counted(q) && q.state.HeaderValue? && ch != CR && ch != LF
    requires !q.hstate.MatchingTransferEncodingChunked? && !q.hstate.MatchingConnectionKeepAlive?
             && !q.hstate.MatchingConnectionClose?
    ensures Keeps(q.upgrade, OnHeaderValue(q, ch))
  {
  }

  lemma LineEndKeeps(q: Parser, ch: char)
    requires Counted(q) && q.state.HeaderAlmostDone?
    ensures Keeps(q.upgrade, OnHeaderAlmostDone(q, ch))
  {
    hide MethodName, LegalName, LegalValue;
  }

  lemma LwsKeeps(q: Parser, ch: char)
    requires Counted(q) && q.state.HeaderValueLws?
    ensures Keeps(q.upgrade, OnHeaderValueLws(q, ch))
  {
    if ch != ' ' && ch != '\t' {
      FieldStartKeeps(q.(state := HeaderFieldStart), ch);
    }
    hide OnHeaderFieldStart;
  }

  lemma ChunkSizeKeeps(q: Parser, ch: char)
    requires Counted(q) && q.state.ChunkSize?
    ensures Keeps(q.upgrade, OnChunkSize(q, ch))
  {
    hide MethodName, LegalName, LegalValue, Unhex;
  }

  lemma ChunkKeeps(q: Parser, ch: char)
    requires Counted(q) && ChunkSizeState(q.state)
    ensures Keeps(q.upgrade, OnChunkSize(q, ch))
  {
    hide MethodName, LegalName, LegalValue;
    if q.state.ChunkSize? {
      ChunkSizeKeeps(q, ch);
      hide OnChunkSize, Keeps;
    }
  }

  lemma BodyKeeps(q: Parser, ch: char)
    requires Counted(q) && !ParsingHeader(q.state)
    ensures Keeps(q.upgrade, OnBody(q, ch))
  {
    hide MethodName, LegalName, LegalValue, ShouldKeepAlive;
  }

  lemma DispatchKeeps(q: Parser, ch: char)
    requires Counted(q)
    ensures Keeps(q.upgrade, Dispatch(q, ch))
  {
    assert !q.state.HeadersDone?;
    hide Keeps, Legal, OnLine, OnUrl, OnSpacesBeforeUrl, OnVersion, OnChunkSize, OnHeaderFieldStart, OnHeaderField,
      OnHeaderValueStart, OnHeaderValue, OnHeaderValueLws, OnHeaderAlmostDone, OnHeadersAlmostDone, OnBody;
    if LineState(q.state) {
      LineKeeps(q, ch);
    } else if UrlState(q.state) {
      UrlKeeps(q, ch);
    } else if VersionState(q.state) {
      VersionKeeps(q, ch);
    } else if ChunkSizeState(q.state) {
      ChunkKeeps(q, ch);
    } else {
      match q.state
      case ReqSpacesBeforeUrl => SpacesKeep(q, ch);
      case HeaderFieldStart => FieldStartKeeps(q, ch);
      case HeaderField => FieldKeeps(q, ch);
      case HeaderValueStart => ValueStartKeeps(q, ch);
      case HeaderValue => ValueKeeps(q, ch);
      case HeaderValueLws => LwsKeeps(q, ch);
      case HeaderAlmostDone => LineEndKeeps(q, ch);
      case HeadersAlmostDone => HeadersDoneKeeps(q, ch);
      case _ => BodyKeeps(q, ch);
    }
  }

  /** Every byte, in every state that can occur. */
  lemma StepKeeps(ps: Parser, ch: char)
    requires Legal(ps)
    ensures Keeps(ps.upgrade, Step(ps, ch))
  {
    hide Dispatch;
    var q := if ParsingHeader(ps.state) then ps.(nread := ps.nread + 1) else ps;
    if q.nread <= MAX_HEADER_SIZE {
      DispatchKeeps(q, ch);
    }
  }

  /** Runs keep the invariant: no run from `http_parser_init` leaves it while no error has occurred. */
  lemma {:induction false} RunKeeps(ps: Parser, tr: seq<Event>, data: string)
    requires Legal(ps) && TailOk(ps.state, tr)
    ensures var r := Run(ps, tr, data);
      && (r.ps.errno == OK ==> Legal(r.ps) && TailOk(r.ps.state, r.trace))
      && (!r.stopped ==> r.ps.errno == OK && r.consumed == |data|)
      && (!r.stopped && !ps.upgrade ==> !r.ps.upgrade)
      && (r.stopped ==> r.ps.errno != OK || r.ps.upgrade)
      && r.consumed <= |data|
      && (r.ps.errno != OK ==> r.consumed < |data|)
    decreases |data|
  {
    if data != [] {
      StepKeeps(ps, data[0]);
      var o := Step(ps, data[0]);
      if !o.stop {
        var tr' := PushAll(tr, o.events);
        if UrlState(o.ps.state) || o.ps.state.HeaderField? || o.ps.state.HeaderValue? {
          assert o.events[1..] == [];
          assert tr' == PushAll(Push(tr, o.events[0]), []);
        }
        RunKeeps(o.ps, tr', data[1..]);
      }
    }
  }

  /** Body bytes one at a time: the counter falls by one each, and the data runs join up. */
  lemma {:induction false} BulkBody(q: Parser, tr: seq<Event>, s: string)
    requires Legal(q) && (q.state.BodyIdentity? || q.state.ChunkData?)
    requires 0 < |s| <= q.length
    ensures var left := q.length - |s|;
      var after := q.(length := left, state :=
        if left > 0 then q.state else if q.state.ChunkData? then ChunkDataAlmostDone else NewMessage(q));
      var body := Push(tr, Data(Body, s));
      Run(q, tr, s)
      == Result(after, if left == 0 && q.state.BodyIdentity? then Push(body, MessageComplete) else body, |s|, false)
    decreases |s|
  {
    hide Push;
    var e := Data(Body, [s[0]]);
    var o := OnBody(q, s[0]);
    BodyStep(q, s[0]);
    PushOne(tr, e);
    PushTwo(tr, e, MessageComplete);
    assert s == [s[0]] + s[1..];
    if |s| == 1 {
      assert s == [s[0]];
      assert Run(o.ps, PushAll(tr, o.events), s[1..]) == Result(o.ps, PushAll(tr, o.events), 0, false);
    } else {
      BulkBody(o.ps, Push(tr, e), s[1..]);
      PushJoins(tr, Body, [s[0]], s[1..]);
    }
  }

  lemma BodyStep(q: Parser, ch: char)
    requires q.state.BodyIdentity? || q.state.ChunkData?
    ensures Step(q, ch) == OnBody(q, ch)
  {
    hide OnBody;
  }
}
