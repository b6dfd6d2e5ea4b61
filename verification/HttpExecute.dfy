/**
 `http_parser_execute` itself: a parser object that is advanced in place, marks into the caller's buffer so
 that a run of data bytes becomes one callback, bodies consumed in bulk, and leftover marks flushed at the end
 of every call. It refines the byte-at-a-time parser of `HttpStep`.
 */
module HttpExecute {
  import opened HttpTypes
  import opened HttpStep
  import opened HttpRun
  import opened HttpInvariant
  import opened HttpHeard

  datatype Mark = Unset | At(pos: nat)

  /** `url_mark`, `header_field_mark`, `header_value_mark` and `body_mark`. */
  datatype Marks = Marks(url: Mark, field: Mark, value: Mark, body: Mark)

  const NO_MARKS := Marks(Unset, Unset, Unset, Unset)

  /** Where the live mark is. */
  function MarkedAt(m: Marks): nat {
    if m.url.At? then m.url.pos else if m.field.At? then m.field.pos
    else if m.value.At? then m.value.pos else if m.body.At? then m.body.pos else 0
  }

  /** A byte keeps a mark, with no callback, or sets one where it stands itself, or leaves none. */
  predicate Moved(m: Marks, before: seq<Event>, m': Marks, after: seq<Event>, p: nat) {
    m' == NO_MARKS || (after == before && (m' == m || (m == NO_MARKS && MarkedAt(m') == p)))
  }

  function Slice(data: string, m: Mark, p: nat): string {
    if m.At? && m.pos <= p <= |data| then data[m.pos..p] else ""
  }

  predicate Before(m: Mark, p: nat) { m.At? ==> m.pos <= p }

  /** Which marks are live between two bytes: at most one, as asserted at the end of every call. */
  predicate MarksOk(s: State, m: Marks, data: string, p: nat) {
    && (m.url.At? <==> UrlState(s))
    && (m.field.At? <==> s.HeaderField?)
    && (m.value.At? <==> s.HeaderValue?)
    && (m.body.At? ==> s.ChunkDataAlmostDone? || (p == |data| && (s.BodyIdentity? || s.ChunkData?)))
    && Before(m.url, p) && Before(m.field, p) && Before(m.value, p) && Before(m.body, p)
  }

  /** The joined trace once the callback of the live mark is made with the bytes up to `p`. */
  function Pending(tr: seq<Event>, m: Marks, data: string, p: nat): seq<Event> {
    if m.field.At? then Push(tr, Data(Field, Slice(data, m.field, p)))
    else if m.value.At? then Push(tr, Data(Value, Slice(data, m.value, p)))
    else if m.url.At? then Push(tr, Data(Url, Slice(data, m.url, p)))
    else if m.body.At? then Push(tr, Data(Body, Slice(data, m.body, p)))
    else tr
  }

  /** What an error costs: at most the one data callback that was still pending. */
  ghost predicate LosesOneRun(actual: seq<Event>, full: seq<Event>) {
    actual == full || exists k: Kind, s: string :: full == Push(actual, Data(k, s))
  }

  class HttpParser {
    var state: State
    var hstate: HeaderState
    var index: nat
    var nread: nat
    var length: nat
    var flags: Flags
    var major: nat
    var minor: nat
    var verb: Method
    var errno: Errno
    var upgrade: bool
    /** The callbacks made so far. */
    var trace: seq<Event>

    ghost function View(): Parser
      reads this
    {
      Parser(state, hstate, index, nread, length, flags, major, minor, verb, errno, upgrade)
    }

    ghost predicate Valid()
      reads this
    {
      errno == OK ==> Legal(View()) && TailOk(state, Joined(trace))
    }

    /** `http_parser_init(parser, HTTP_REQUEST)`. */
    constructor ()
      ensures View() == INITIAL && trace == [] && Valid()
    {
      state, hstate, index, nread, length := StartReq, General, 0, 0, 0;
      flags, major, minor, verb := NO_FLAGS, 0, 0, DELETE;
      errno, upgrade, trace := OK, false, [];
    }

    method KeepAlive() returns (r: bool)
      ensures r == ShouldKeepAlive(View())
    {
      if major > 0 && minor > 0 {
        if flags.close {
          return false;
        }
      } else {
        if !flags.keepAlive {
          return false;
        }
      }
      return true;
    }

    method SetNewMessage()
      modifies this`state
      ensures View() == old(View()).(state := NewMessage(old(View())))
    {
      var keep := KeepAlive();
      state := if keep then StartReq else Dead;
    }

    method LineByte(ch: char)
      requires LineState(state) && Counted(View())
      modifies this
      ensures OnLine(old(View()), ch).stop <==> errno != OK
      ensures !Marked(state) && (errno != OK ==> trace == old(trace))
      ensures var o := OnLine(old(View()), ch); View() == o.ps && trace == old(trace) + o.events
    {
      match state
      case Dead =>
        if ch != CR && ch != LF {
          errno := CLOSED_CONNECTION;
        }
      case StartReq =>
        StartReqByte(ch);
      case ReqMethod =>
        MethodByte(ch);
      case ReqLineAlmostDone =>
        if ch != LF {
          errno := LF_EXPECTED;
          return;
        }
        state := HeaderFieldStart;
    }

    method StartReqByte(ch: char)
      requires state == StartReq && Counted(View())
      modifies this
      ensures !Marked(state) && (errno != OK ==> trace == old(trace))
      ensures var o := OnStartReq(old(View()), ch); View() == o.ps && trace == old(trace) + o.events
    {
      if ch == CR || ch == LF {
        return;
      }
      flags := NO_FLAGS;
      length := NO_LENGTH;
      if !IsAlpha(ch) {
        errno := INVALID_METHOD;
        return;
      }
      verb := DELETE;
      index := 1;
      match FirstMethod(ch) {
        case NoMethod =>
          errno := INVALID_METHOD;
          return;
        case Guess(m) =>
          verb := m;
      }
      state := ReqMethod;
      trace := trace + [MessageBegin];
    }

    method MethodByte(ch: char)
      requires state == ReqMethod && Counted(View())
      modifies this
      ensures !Marked(state) && (errno != OK ==> trace == old(trace))
      ensures var o := OnReqMethod(old(View()), ch); View() == o.ps && trace == old(trace) + o.events
    {
      hide SwitchMethod, MethodName;
      if ch == '\0' {
        errno := INVALID_METHOD;
        return;
      }
      var matcher := MethodName(verb);
      assert index <= |matcher|;  // the read below stays within the string and its terminator
      if ch == ' ' && CharAt(matcher, index) == '\0' {
        state := ReqSpacesBeforeUrl;
      } else if ch == CharAt(matcher, index) {
      } else {
        match SwitchMethod(verb, index, ch) {
          case NoMethod =>
            errno := INVALID_METHOD;
            return;
          case Guess(m) =>
            verb := m;
        }
      }
      index := index + 1;
    }

    /** The one case every URL state ends in. */
    method UrlStep(from: State, ch: char)
      requires errno == OK
      modifies this`state, this`errno
      ensures View() == UrlByte(old(View()), from, ch).ps
      ensures if errno == OK then UrlState(state) else state == Dead
    {
      UrlNext(from, ch);
      hide ParseUrlChar;
      state := ParseUrlChar(from, ch);
      if state == Dead {
        errno := INVALID_URL;
      }
    }

    method SpacesByte(ch: char, p: nat) returns (mark: Mark)
      requires state == ReqSpacesBeforeUrl && Counted(View())
      modifies this
      ensures OnSpacesBeforeUrl(old(View()), ch).stop <==> errno != OK
      ensures View() == OnSpacesBeforeUrl(old(View()), ch).ps && trace == old(trace)
      ensures errno == OK ==>
        if ch == ' ' then mark == Unset && !Marked(state) && OnSpacesBeforeUrl(old(View()), ch).events == []
        else mark == At(p) && UrlState(state) && OnSpacesBeforeUrl(old(View()), ch).events == [Data(Url, [ch])]
    {
      if ch == ' ' {
        return Unset;
      }
      mark := At(p);
      if verb == CONNECT {
        state := ReqServerStart;
      }
      UrlStep(state, ch);
    }

    /** CALLBACK_DATA: reports the marked bytes before `p` and clears the mark. */
    method Report(k: Kind, mark: Mark, data: string, p: nat) returns (mark': Mark)
      modifies this`trace
      ensures trace == if mark.At? then old(trace) + [Data(k, Slice(data, mark, p))] else old(trace)
      ensures mark' == Unset
    {
      if mark.At? {
        trace := trace + [Data(k, Slice(data, mark, p))];
      }
      mark' := Unset;
    }

    method UrlCharacter(ch: char, data: string, p: nat, mark: Mark) returns (mark': Mark)
      requires errno == OK
      requires UrlState(state) && Counted(View()) && mark.At?
      modifies this
      ensures OnUrl(old(View()), ch).stop <==> errno != OK
      ensures var o := OnUrl(old(View()), ch);
        View() == o.ps &&
        if errno != OK then trace == old(trace)
        else if o.events == [Data(Url, [ch])] then mark' == mark && trace == old(trace) && UrlState(state)
        else mark' == Unset && trace == old(trace) + [Data(Url, Slice(data, mark, p))] && !Marked(state) && o.events == []
    {
      hide Counted, Slice, ParseUrlChar;
      mark' := mark;
      if state.ReqSchema? || state.ReqSchemaSlash? || state.ReqSchemaSlashSlash? || state.ReqServerStart? {
        if ch == ' ' || ch == CR || ch == LF {
          errno := INVALID_URL;
          return;
        }
        UrlStep(state, ch);
      } else if ch == ' ' {
        state := ReqHttpStart;
        mark' := Report(Url, mark, data, p);
      } else if ch == CR || ch == LF {
        major := 0;
        minor := 9;
        state := if ch == CR then ReqLineAlmostDone else HeaderFieldStart;
        mark' := Report(Url, mark, data, p);
      } else {
        UrlStep(state, ch);
      }
    }

    /** STRICT_CHECK(ch != c), then go to `s`. */
    method ExpectByte(ch: char, c: char, s: State)
      requires errno == OK
      modifies this`errno, this`state
      ensures View() == Expect(old(View()), ch, c, s).ps
    {
      if ch != c {
        errno := STRICT;
        return;
      }
      state := s;
    }

    method VersionByte(ch: char)
      requires errno == OK
      requires VersionState(state) && Counted(View())
      modifies this
      ensures OnVersion(old(View()), ch).stop <==> errno != OK
      ensures !Marked(state) && OnVersion(old(View()), ch).events == []
      ensures View() == OnVersion(old(View()), ch).ps && trace == old(trace)
    {
      hide Counted;
      match state
      case ReqHttpStart =>
        if ch == 'H' {
          state := ReqHttpH;
        } else if ch != ' ' {
          errno := INVALID_CONSTANT;
        }
      case ReqHttpH => ExpectByte(ch, 'T', ReqHttpHT);
      case ReqHttpHT => ExpectByte(ch, 'T', ReqHttpHTT);
      case ReqHttpHTT => ExpectByte(ch, 'P', ReqHttpHTTP);
      case ReqHttpHTTP => ExpectByte(ch, '/', ReqFirstHttpMajor);
      case ReqFirstHttpMajor => MajorByte(ch);
      case ReqHttpMajor => MajorByte(ch);
      case ReqFirstHttpMinor => MinorByte(ch);
      case ReqHttpMinor => MinorByte(ch);
    }

    method MajorByte(ch: char)
      requires errno == OK && (state.ReqFirstHttpMajor? || state.ReqHttpMajor?)
      modifies this`state, this`errno, this`major
      ensures var o := OnVersion(old(View()), ch); View() == o.ps && (o.stop <==> errno != OK) && o.events == []
      ensures VersionState(state)
    {
      if state.ReqFirstHttpMajor? {
        if ch < '1' || ch > '9' {
          errno := INVALID_VERSION;
          return;
        }
        major := Digit(ch);
        state := ReqHttpMajor;
        return;
      }
      if ch == '.' {
        state := ReqFirstHttpMinor;
        return;
      }
      if !IsNum(ch) {
        errno := INVALID_VERSION;
        return;
      }
      major := 10 * major;
      major := major + Digit(ch);
      if major > 999 {
        errno := INVALID_VERSION;
      }
    }

    method MinorByte(ch: char)
      requires errno == OK && (state.ReqFirstHttpMinor? || state.ReqHttpMinor?)
      modifies this`state, this`errno, this`minor
      ensures var o := OnVersion(old(View()), ch); View() == o.ps && (o.stop <==> errno != OK) && o.events == []
      ensures !Marked(state)
    {
      if state.ReqFirstHttpMinor? {
        if !IsNum(ch) {
          errno := INVALID_VERSION;
          return;
        }
        minor := Digit(ch);
        state := ReqHttpMinor;
        return;
      }
      if ch == CR {
        state := ReqLineAlmostDone;
        return;
      }
      if ch == LF {
        state := HeaderFieldStart;
        return;
      }
      if !IsNum(ch) {
        errno := INVALID_VERSION;
        return;
      }
      minor := 10 * minor;
      minor := minor + Digit(ch);
      if minor > 999 {
        errno := INVALID_VERSION;
      }
    }

    // ----- headers

    method FieldStartByte(ch: char, p: nat) returns (mark: Mark, upgraded: bool)
      requires state == HeaderFieldStart && Counted(View())
      modifies this
      ensures OnHeaderFieldStart(old(View()), ch).stop <==> upgraded || errno != OK
      ensures upgraded ==> errno == OK
      ensures var o := OnHeaderFieldStart(old(View()), ch);
        View() == o.ps &&
        if errno != OK then trace == old(trace)
        else if state.HeaderField? then mark == At(p) && trace == old(trace) && o.events == [Data(Field, [ch])]
        else mark == Unset && trace == old(trace) + o.events && !Marked(state)
    {
      hide OnHeadersAlmostDone;
      mark, upgraded := Unset, false;
      if ch == CR {
        state := HeadersAlmostDone;
        return;
      }
      if ch == LF {
        state := HeadersAlmostDone;
        upgraded := HeadersAlmostDoneByte(ch);  // goto reexecute_byte
        return;
      }
      var c := Token(ch);
      if c == '\0' {
        errno := INVALID_HEADER_TOKEN;
        return;
      }
      mark := At(p);
      index := 0;
      state := HeaderField;
      hstate := FirstHeaderState(c);
    }

    method FieldCharacter(ch: char, data: string, p: nat, mark: Mark) returns (mark': Mark)
      requires state == HeaderField && Counted(View()) && mark.At?
      modifies this
      ensures OnHeaderField(old(View()), ch).stop <==> errno != OK
      ensures var o := OnHeaderField(old(View()), ch);
        View() == o.ps &&
        if errno != OK then trace == old(trace)
        else if o.events == [Data(Field, [ch])] then mark' == mark && trace == old(trace) && state.HeaderField?
        else mark' == Unset && trace == old(trace) + [Data(Field, Slice(data, mark, p))] && !Marked(state) && o.events == []
    {
      hide MethodName, LegalValue, Token, FieldByte;
      mark' := mark;
      var c := Token(ch);
      if c != '\0' {
        NameCharacter(c, ch);
      } else if ch == ':' {
        state := HeaderValueStart;
        mark' := Report(Field, mark, data, p);
      } else if ch == CR {
        state := HeaderAlmostDone;
        mark' := Report(Field, mark, data, p);
      } else if ch == LF {
        state := HeaderFieldStart;
        mark' := Report(Field, mark, data, p);
      } else {
        errno := INVALID_HEADER_TOKEN;
      }
    }

    /** The comparison step shared by all `h_matching_*` cases. */
    method MatchCharacter(c: char)
      requires index < |Matching(hstate).0|  // the read below stays within the string
      modifies this`index, this`hstate
      ensures index == old(index) + 1 && hstate == MatchNext(old(hstate), index, c)
    {
      var (word, full) := Matching(hstate);
      index := index + 1;
      if index > |word| || c != CharAt(word, index) {
        hstate := General;
      } else if index == |word| - 1 {
        hstate := full;
      }
    }

    method NameCharacter(c: char, ch: char)
      requires state == HeaderField && LegalName(hstate, index)
      modifies this`index, this`hstate
      ensures View() == FieldByte(old(View()), c, ch)
    {
      if hstate == C {
        index := index + 1;
        hstate := if c == 'o' then CO else General;
      } else if hstate == CO {
        index := index + 1;
        hstate := if c == 'n' then CON else General;
      } else if hstate == CON {
        index := index + 1;
        hstate := if c == 'n' then MatchingConnection else if c == 't' then MatchingContentLength else General;
      } else if hstate == Connection || hstate == ContentLength || hstate == TransferEncoding || hstate == UpgradeHeader {
        if ch != ' ' {
          hstate := General;
        }
      } else if hstate != General {
        MatchCharacter(c);
      }
    }

    static lemma UrlNext(from: State, ch: char)
      ensures var s := ParseUrlChar(from, ch); s.Dead? || UrlState(s)
    {
    }

    static lemma EmptySlice(data: string, p: nat)
      requires p < |data|
      ensures Slice(data, At(p), p) == ""
    {
    }

    method ValueStartByte(ch: char, data: string, p: nat) returns (mark: Mark)
      requires errno == OK
      requires state == HeaderValueStart && Counted(View())
      requires p < |data|
      modifies this
      ensures OnHeaderValueStart(old(View()), ch).stop <==> errno != OK
      ensures var o := OnHeaderValueStart(old(View()), ch);
        View() == o.ps &&
        if errno != OK then trace == old(trace)
        else if state.HeaderValue? then mark == At(p) && trace == old(trace) && o.events == [Data(Value, [ch])]
        else mark == Unset && trace == old(trace) + o.events && !Marked(state)
    {
      hide Counted, Lower, Slice;
      mark := Unset;
      if ch == ' ' || ch == '\t' {
        return;
      }
      mark := At(p);
      state := HeaderValue;
      index := 0;
      assert Slice(data, mark, p) == "" by { EmptySlice(data, p); }
      if ch == CR {
        hstate := General;
        state := HeaderAlmostDone;
        mark := Report(Value, mark, data, p);
        return;
      }
      if ch == LF {
        state := HeaderFieldStart;
        mark := Report(Value, mark, data, p);
        return;
      }
      var c := Lower(ch);
      match hstate
      case UpgradeHeader =>
        flags := flags.(upgrade := true);
        hstate := General;
      case TransferEncoding =>
        hstate := if c == 'c' then MatchingTransferEncodingChunked else General;
      case ContentLength =>
        if !IsNum(ch) {
          errno := INVALID_CONTENT_LENGTH;
          return;
        }
        length := Digit(ch);
      case Connection =>
        hstate := if c == 'k' then MatchingConnectionKeepAlive
        else if c == 'c' then MatchingConnectionClose
        else General;
      case _ =>
        hstate := General;
    }

    method ValueByte(ch: char, data: string, p: nat, mark: Mark) returns (mark': Mark)
      requires state == HeaderValue && Counted(View()) && mark.At?
      modifies this
      ensures OnHeaderValue(old(View()), ch).stop <==> errno != OK
      ensures var o := OnHeaderValue(old(View()), ch);
        View() == o.ps &&
        if errno != OK then trace == old(trace)
        else if o.events == [Data(Value, [ch])] then mark' == mark && trace == old(trace) && state.HeaderValue?
        else mark' == Unset && trace == old(trace) + [Data(Value, Slice(data, mark, p))] && !Marked(state) && o.events == []
    {
      hide AppendDigit, MatchNext, Slice;
      mark' := mark;
      if ch == CR {
        state := HeaderAlmostDone;
        mark' := Report(Value, mark, data, p);
      } else if ch == LF {
        state := HeaderAlmostDone;
        mark' := Report(Value, mark, data, p);
        LineEndByte(ch);  // goto reexecute_byte
      } else {
        ValueCharacter(ch);
      }
    }

    method ValueCharacter(ch: char)
      requires state == HeaderValue && Counted(View()) && ch != CR && ch != LF
      modifies this
      ensures var o := OnHeaderValue(old(View()), ch);
        && View() == o.ps && trace == old(trace)
        && (if o.stop then errno != OK else state.HeaderValue? && o.events == [Data(Value, [ch])])
    {
      match hstate
      case General =>
      case ContentLength =>
        if ch == ' ' {
          return;
        }
        if !IsNum(ch) {
          errno := INVALID_CONTENT_LENGTH;
          return;
        }
        var t := AppendDigit(length, 10, Digit(ch));
        if t < length || t == NO_LENGTH {
          errno := INVALID_CONTENT_LENGTH;
          return;
        }
        length := t;
      case MatchingTransferEncodingChunked => MatchCharacter(Lower(ch));
      case MatchingConnectionKeepAlive => MatchCharacter(Lower(ch));
      case MatchingConnectionClose => MatchCharacter(Lower(ch));
      case TransferEncodingChunked =>
        if ch != ' ' { hstate := General; }
      case ConnectionKeepAlive =>
        if ch != ' ' { hstate := General; }
      case ConnectionClose =>
        if ch != ' ' { hstate := General; }
      case _ =>
        assert false;  // neither "Shouldn't get here." nor the default case can occur
    }

    method LineEndByte(ch: char)
      requires errno == OK
      requires state == HeaderAlmostDone && Counted(View())
      modifies this
      ensures OnHeaderAlmostDone(old(View()), ch).stop <==> errno != OK
      ensures !Marked(state) && OnHeaderAlmostDone(old(View()), ch).events == []
      ensures View() == OnHeaderAlmostDone(old(View()), ch).ps && trace == old(trace)
    {
      hide Counted;
      if ch != LF {
        errno := STRICT;
        return;
      }
      state := HeaderValueLws;
      match hstate
      case ConnectionKeepAlive => flags := flags.(keepAlive := true);
      case ConnectionClose => flags := flags.(close := true);
      case TransferEncodingChunked => flags := flags.(chunked := true);
      case _ =>
    }

    method LwsByte(ch: char, p: nat) returns (mark: Mark, upgraded: bool)
      requires state == HeaderValueLws && Counted(View())
      modifies this
      ensures OnHeaderValueLws(old(View()), ch).stop <==> upgraded || errno != OK
      ensures upgraded ==> errno == OK
      ensures var o := OnHeaderValueLws(old(View()), ch);
        View() == o.ps &&
        if errno != OK then trace == old(trace)
        else if state.HeaderField? then mark == At(p) && trace == old(trace) && o.events == [Data(Field, [ch])]
        else mark == Unset && trace == old(trace) + o.events && !Marked(state)
    {
      hide OnHeaderFieldStart;
      mark, upgraded := Unset, false;
      if ch == ' ' || ch == '\t' {
        state := HeaderValueStart;
      } else {
        state := HeaderFieldStart;
        mark, upgraded := FieldStartByte(ch, p);  // goto reexecute_byte
      }
    }

    method HeadersAlmostDoneByte(ch: char) returns (upgraded: bool)
      requires errno == OK
      requires state == HeadersAlmostDone && Counted(View())
      modifies this
      ensures OnHeadersAlmostDone(old(View()), ch).stop <==> upgraded || errno != OK
      ensures upgraded ==> errno == OK
      ensures !Marked(state) && (errno != OK ==> trace == old(trace))
      ensures var o := OnHeadersAlmostDone(old(View()), ch); View() == o.ps && trace == old(trace) + o.events
    {
      hide Counted, ShouldKeepAlive;
      upgraded := false;
      if ch != LF {
        errno := STRICT;
        return;
      }
      if flags.trailing {
        SetNewMessage();
        trace := trace + [MessageComplete];
        return;
      }
      state := HeadersDone;
      upgrade := flags.upgrade || verb == CONNECT;
      trace := trace + [HeadersComplete(length, flags.chunked, upgrade)];
      upgraded := HeadersDoneByte(ch);  // goto reexecute_byte
    }

    method HeadersDoneByte(ch: char) returns (upgraded: bool)
      requires state == HeadersDone && errno == OK
      modifies this
      ensures OnHeadersDone(old(View()), ch).stop <==> upgraded || errno != OK
      ensures upgraded ==> errno == OK
      ensures !Marked(state) && (errno != OK ==> trace == old(trace))
      ensures var o := OnHeadersDone(old(View()), ch); View() == o.ps && trace == old(trace) + o.events
    {
      upgraded := false;
      if ch != LF {
        errno := STRICT;
        return;
      }
      nread := 0;
      if upgrade {
        SetNewMessage();
        trace := trace + [MessageComplete];
        return true;
      }
      if flags.chunked {
        state := ChunkSizeStart;
      } else if length == 0 {
        SetNewMessage();
        trace := trace + [MessageComplete];
      } else if length != NO_LENGTH {
        state := BodyIdentity;
      } else {
        SetNewMessage();
        trace := trace + [MessageComplete];
      }
    }

    // ----- bodies

    method ChunkSizeByte(ch: char)
      requires ChunkSizeState(state) && Counted(View())
      modifies this
      ensures OnChunkSize(old(View()), ch).stop <==> errno != OK
      ensures !Marked(state) && OnChunkSize(old(View()), ch).events == []
      ensures View() == OnChunkSize(old(View()), ch).ps && trace == old(trace)
    {
      hide MethodName, LegalName, LegalValue, AppendDigit;
      match state
      case ChunkSizeStart =>
        assert nread == 1;
        assert flags.chunked;
        var unhex := Unhex(ch);
        if unhex == -1 {
          errno := INVALID_CHUNK_SIZE;
          return;
        }
        length := unhex;
        state := ChunkSize;
      case ChunkSize =>
        assert flags.chunked;
        if ch == CR {
          state := ChunkSizeAlmostDone;
          return;
        }
        var unhex := Unhex(ch);
        if unhex == -1 {
          if ch == ';' || ch == ' ' {
            state := ChunkParameters;
            return;
          }
          errno := INVALID_CHUNK_SIZE;
          return;
        }
        var t := AppendDigit(length, 16, unhex);
        if t < length || t == NO_LENGTH {
          errno := INVALID_CONTENT_LENGTH;
          return;
        }
        length := t;
      case ChunkParameters =>
        assert flags.chunked;
        if ch == CR {
          state := ChunkSizeAlmostDone;
        }
      case ChunkSizeAlmostDone =>
        assert flags.chunked;
        if ch != LF {
          errno := STRICT;
          return;
        }
        nread := 0;
        if length == 0 {
          flags := flags.(trailing := true);
          state := HeaderFieldStart;
        } else {
          state := ChunkData;
        }
    }

    /** `s_body_identity`: takes as much of the buffer as the body still needs. Returns the new `p`. */
    method BodyIdentityBytes(data: string, p: nat, mark: Mark) returns (p': nat, mark': Mark)
      requires state == BodyIdentity && Legal(View()) && p < |data| && mark == Unset
      modifies this
      ensures var n := if old(length) < |data| - p then old(length) else |data| - p;
        && p' + 1 == p + n
        && View() == old(View()).(length := old(length) - n,
                                  state := if n == old(length) then NewMessage(old(View())) else BodyIdentity)
        && if n == old(length)
           then mark' == Unset && trace == old(trace) + [Data(Body, data[p..p + n])] + [MessageComplete]
           else mark' == At(p) && trace == old(trace)
    {
      var toRead := if length < |data| - p then length else |data| - p;
      assert length != 0 && length != NO_LENGTH;
      mark' := At(p);
      length := length - toRead;
      p' := p + toRead - 1;
      if length == 0 {
        state := MessageDone;
        mark' := Report(Body, mark', data, p' + 1);
        MessageDoneByte();  // goto reexecute_byte
      }
    }

    method MessageDoneByte()
      modifies this
      ensures View() == old(View()).(state := NewMessage(old(View()))) && trace == old(trace) + [MessageComplete]
    {
      SetNewMessage();
      trace := trace + [MessageComplete];
    }

    /** `s_chunk_data`. */
    method ChunkDataBytes(data: string, p: nat, mark: Mark) returns (p': nat, mark': Mark)
      requires state == ChunkData && Legal(View()) && p < |data| && mark == Unset
      modifies this
      ensures var n := if old(length) < |data| - p then old(length) else |data| - p;
        && p' + 1 == p + n
        && View() == old(View()).(length := old(length) - n,
                                  state := if n == old(length) then ChunkDataAlmostDone else ChunkData)
        && mark' == At(p) && trace == old(trace)
    {
      var toRead := if length < |data| - p then length else |data| - p;
      assert flags.chunked;
      assert length != 0 && length != NO_LENGTH;
      mark' := At(p);
      length := length - toRead;
      p' := p + toRead - 1;
      if length == 0 {
        state := ChunkDataAlmostDone;
      }
    }

    method ChunkEndByte(ch: char, data: string, p: nat, mark: Mark) returns (mark': Mark)
      requires state == ChunkDataAlmostDone || state == ChunkDataDone
      requires Legal(View())
      requires state == ChunkDataDone ==> mark == Unset
      modifies this
      ensures OnBody(old(View()), ch).stop <==> errno != OK
      ensures var o := OnBody(old(View()), ch);
        View() == o.ps && o.events == [] &&
        (errno == OK ==> mark' == Unset) &&
        if errno == OK && mark.At? then trace == old(trace) + [Data(Body, Slice(data, mark, p))]
        else trace == old(trace)
    {
      hide MethodName, LegalName, LegalValue;
      mark' := mark;
      assert flags.chunked;
      if state == ChunkDataAlmostDone {
        assert length == 0;
        if ch != CR {
          errno := STRICT;
          return;
        }
        state := ChunkDataDone;
        mark' := Report(Body, mark, data, p);
      } else {
        if ch != LF {
          errno := STRICT;
          return;
        }
        nread := 0;
        state := ChunkSizeStart;
      }
    }

    // ----- one byte, with its marks

    /** The object did what the reference parser does: `before` is the joined trace up to this byte. */
    ghost predicate Did(o: Outcome, before: seq<Event>, m: Marks, data: string, p: nat)
      reads this
    {
      && View() == o.ps
      && (errno == OK ==> MarksOk(state, m, data, p + 1)
                          && Pending(Joined(trace), m, data, p + 1) == PushAll(before, o.events))
    }

    /** The states in which no mark is live before or after the byte. */
    method UnmarkedByte(ch: char, data: string, p: nat, marks: Marks) returns (upgraded: bool)
      requires errno == OK
      requires Counted(View()) && MarksOk(state, marks, data, p) && p < |data| && data[p] == ch
      requires LineState(state) || VersionState(state) || ChunkSizeState(state) || state.HeaderAlmostDone?
               || state.HeadersAlmostDone?
      modifies this
      ensures Dispatch(old(View()), ch).stop <==> upgraded || errno != OK
      ensures upgraded ==> errno == OK
      ensures Did(Dispatch(old(View()), ch), Pending(Joined(old(trace)), marks, data, p), marks, data, p)
      ensures errno != OK ==> trace == old(trace)
      ensures marks == NO_MARKS
    {
      hide OnLine, OnVersion, OnChunkSize, OnHeaderAlmostDone, OnHeadersAlmostDone, Counted, OnUrl,
        OnSpacesBeforeUrl, OnHeaderFieldStart, OnHeaderField, OnHeaderValueStart, OnHeaderValue, OnHeaderValueLws,
        OnHeadersDone, OnBody, Push, PushAll, Joined, Slice;
      JoinedAppend(trace, Dispatch(View(), ch).events);
      PushNone(Joined(trace));
      upgraded := false;
      if LineState(state) {
        LineByte(ch);
      } else if VersionState(state) {
        VersionByte(ch);
      } else if ChunkSizeState(state) {
        ChunkSizeByte(ch);
      } else if state.HeaderAlmostDone? {
        LineEndByte(ch);
      } else {
        upgraded := HeadersAlmostDoneByte(ch);
      }
    }

    /** The states in which a byte may set a mark. */
    method MarkingByte(ch: char, data: string, p: nat, marks: Marks) returns (marks': Marks, upgraded: bool)
      requires errno == OK
      requires Counted(View()) && MarksOk(state, marks, data, p) && p < |data| && data[p] == ch
      requires state.ReqSpacesBeforeUrl? || state.HeaderFieldStart? || state.HeaderValueStart? || state.HeaderValueLws?
      modifies this
      ensures Dispatch(old(View()), ch).stop <==> upgraded || errno != OK
      ensures upgraded ==> errno == OK
      ensures Did(Dispatch(old(View()), ch), Pending(Joined(old(trace)), marks, data, p), marks', data, p)
      ensures errno != OK ==> trace == old(trace)
      ensures errno == OK ==> Moved(marks, old(trace), marks', trace, p)
    {
      hide OnLine, OnVersion, OnChunkSize, OnHeaderAlmostDone, OnHeadersAlmostDone, Counted, OnUrl,
        OnSpacesBeforeUrl, OnHeaderFieldStart, OnHeaderField, OnHeaderValueStart, OnHeaderValue, OnHeaderValueLws,
        OnHeadersDone, OnBody, Push, PushAll, Joined, Slice;
      JoinedAppend(trace, Dispatch(View(), ch).events);
      PushNone(Joined(trace));
      ghost var tr := Joined(trace);
      var mark;
      upgraded := false;
      if state.ReqSpacesBeforeUrl? {
        RunStarts(tr, Url, data, p);
        mark := SpacesByte(ch, p);
        marks' := marks.(url := mark);
      } else if state.HeaderValueStart? {
        RunStarts(tr, Value, data, p);
        mark := ValueStartByte(ch, data, p);
        marks' := marks.(value := mark);
      } else if state.HeaderFieldStart? {
        RunStarts(tr, Field, data, p);
        mark, upgraded := FieldStartByte(ch, p);
        marks' := marks.(field := mark);
      } else {
        RunStarts(tr, Field, data, p);
        mark, upgraded := LwsByte(ch, p);
        marks' := marks.(field := mark);
      }
    }

    /** The states in which a mark is live: the byte prolongs the run of data or ends it. */
    method MarkedByte(ch: char, data: string, p: nat, marks: Marks) returns (marks': Marks)
      requires errno == OK
      requires Counted(View()) && MarksOk(state, marks, data, p) && p < |data| && data[p] == ch
      requires Marked(state)
      modifies this
      ensures Dispatch(old(View()), ch).stop <==> errno != OK
      ensures Did(Dispatch(old(View()), ch), Pending(Joined(old(trace)), marks, data, p), marks', data, p)
      ensures errno != OK ==> trace == old(trace)
      ensures errno == OK ==> Moved(marks, old(trace), marks', trace, p)
    {
      hide OnLine, OnVersion, OnChunkSize, OnHeaderAlmostDone, OnHeadersAlmostDone, Counted, OnUrl,
        OnSpacesBeforeUrl, OnHeaderFieldStart, OnHeaderField, OnHeaderValueStart, OnHeaderValue, OnHeaderValueLws,
        OnHeadersDone, OnBody, Push, PushAll, Joined, Slice;
      PushNone(Pending(Joined(trace), marks, data, p));
      var mark;
      if UrlState(state) {
        RunGrows(trace, Url, data, marks.url, p);
        mark := UrlCharacter(ch, data, p, marks.url);
        marks' := marks.(url := mark);
      } else if state.HeaderField? {
        RunGrows(trace, Field, data, marks.field, p);
        mark := FieldCharacter(ch, data, p, marks.field);
        marks' := marks.(field := mark);
      } else {
        RunGrows(trace, Value, data, marks.value, p);
        mark := ValueByte(ch, data, p, marks.value);
        marks' := marks.(value := mark);
      }
    }

    /** The two bytes after the data of a chunk. */
    method ChunkTailByte(ch: char, data: string, p: nat, marks: Marks) returns (marks': Marks)
      requires errno == OK
      requires Counted(View()) && MarksOk(state, marks, data, p) && p < |data| && data[p] == ch
      requires state.ChunkDataAlmostDone? || state.ChunkDataDone?
      modifies this
      ensures Dispatch(old(View()), ch).stop <==> errno != OK
      ensures Did(Dispatch(old(View()), ch), Pending(Joined(old(trace)), marks, data, p), marks', data, p)
      ensures errno != OK ==> trace == old(trace)
      ensures errno == OK ==> Moved(marks, old(trace), marks', trace, p)
    {
      hide Push;
      if marks.body.At? {
        JoinedSnoc(trace, Data(Body, Slice(data, marks.body, p)));
      }
      var mark := ChunkEndByte(ch, data, p, marks.body);
      marks' := marks.(body := mark);
    }

    /** One byte in any state but the two that copy in bulk. */
    method Byte(ch: char, data: string, p: nat, marks: Marks) returns (marks': Marks, upgraded: bool)
      requires errno == OK
      requires Counted(View()) && MarksOk(state, marks, data, p) && p < |data| && data[p] == ch
      requires !state.BodyIdentity? && !state.ChunkData?
      modifies this
      ensures Did(Dispatch(old(View()), ch), Pending(Joined(old(trace)), marks, data, p), marks', data, p)
      ensures errno != OK ==> trace == old(trace)
      ensures errno == OK ==> Moved(marks, old(trace), marks', trace, p)
      ensures Dispatch(old(View()), ch).stop <==> upgraded || errno != OK
      ensures upgraded ==> errno == OK
    {
      hide Dispatch, Did, MarksOk, Pending, ShouldKeepAlive;
      marks', upgraded := marks, false;
      if state.ReqSpacesBeforeUrl? || state.HeaderFieldStart? || state.HeaderValueStart? || state.HeaderValueLws? {
        marks', upgraded := MarkingByte(ch, data, p, marks);
      } else if state.ChunkDataAlmostDone? || state.ChunkDataDone? {
        marks' := ChunkTailByte(ch, data, p, marks);
      } else if Marked(state) {
        marks' := MarkedByte(ch, data, p, marks);
      } else {
        upgraded := UnmarkedByte(ch, data, p, marks);
      }
    }

    /** One byte in any of those states, counted against the header size limit first. */
    method CountedByte(ch: char, data: string, p: nat, marks: Marks) returns (marks': Marks, upgraded: bool)
      requires errno == OK
      requires Legal(View()) && MarksOk(state, marks, data, p) && p < |data| && data[p] == ch
      requires !state.BodyIdentity? && !state.ChunkData?
      modifies this
      ensures var o := Step(old(View()), ch);
        && Did(o, Pending(Joined(old(trace)), marks, data, p), marks', data, p)
        && (o.stop <==> upgraded || errno != OK)
        && (errno != OK ==> trace == old(trace) && o.events == [])
        && (errno == OK ==> Moved(marks, old(trace), marks', trace, p))
      ensures errno == OK ==> Legal(View())
      ensures upgraded ==> errno == OK && (state.StartReq? || state.Dead?)
    {
      hide Legal, Dispatch, Push, PushAll, Joined, MarksOk, Pending, ShouldKeepAlive, Counted;
      marks', upgraded := marks, false;
      StepDispatches(View(), ch);
      StepKeeps(View(), ch);
      if ParsingHeader(state) {
        nread := nread + 1;
        if nread > MAX_HEADER_SIZE {
          errno := HEADER_OVERFLOW;
          return;
        }
      }
      marks', upgraded := Byte(ch, data, p, marks);
    }

    /** Runs the callback of the mark left over at the end of the buffer, if there is one. */
    method Flush(data: string, marks: Marks)
      requires MarksOk(state, marks, data, |data|)
      modifies this`trace
      ensures Joined(trace) == Pending(Joined(old(trace)), marks, data, |data|)
    {
      hide Push, Joined;
      assert (if marks.field.At? then 1 else 0) + (if marks.value.At? then 1 else 0)
             + (if marks.url.At? then 1 else 0) + (if marks.body.At? then 1 else 0) <= 1;
      JoinedSnoc(trace, Data(Field, Slice(data, marks.field, |data|)));
      JoinedSnoc(trace, Data(Value, Slice(data, marks.value, |data|)));
      JoinedSnoc(trace, Data(Url, Slice(data, marks.url, |data|)));
      JoinedSnoc(trace, Data(Body, Slice(data, marks.body, |data|)));
      var _ := Report(Field, marks.field, data, |data|);
      var _ := Report(Value, marks.value, data, |data|);
      var _ := Report(Url, marks.url, data, |data|);
      var _ := Report(Body, marks.body, data, |data|);
    }

    /** A bulk step is the run of the reference parser over the bytes it takes. */
    method BodyBytes(data: string, p: nat, marks: Marks) returns (p': nat, marks': Marks)
      requires (state.BodyIdentity? || state.ChunkData?) && Legal(View())
      requires MarksOk(state, marks, data, p) && p < |data|
      modifies this
      ensures p <= p' < |data|
      ensures errno == OK && Legal(View()) && MarksOk(state, marks', data, p' + 1)
      ensures Run(old(View()), Joined(old(trace)), data[p..p' + 1])
           == Result(View(), Pending(Joined(trace), marks', data, p' + 1), p' + 1 - p, false)
      ensures Moved(marks, old(trace), marks', trace, p)
      ensures p' + 1 < |data| ==> p' + 1 - p == old(length) && (marks' == NO_MARKS <==> old(state).BodyIdentity?)
    {
      hide Push, Run, ShouldKeepAlive, Joined;
      NoPending(state, marks, Joined(trace), data, p);
      var mark;
      ghost var n := if length < |data| - p then length else |data| - p;
      ghost var tr := Joined(trace);
      BulkBody(View(), tr, data[p..p + n]);
      if state.BodyIdentity? {
        p', mark := BodyIdentityBytes(data, p, marks.body);
        JoinedSnoc(old(trace), Data(Body, data[p..p + n]));
        JoinedSnoc(old(trace) + [Data(Body, data[p..p + n])], MessageComplete);
      } else {
        p', mark := ChunkDataBytes(data, p, marks.body);
      }
      marks' := marks.(body := mark);
    }

    /** Where the loop of `http_parser_execute` stands in a call that began with `v` and `tr` and will end as `r`. */
    ghost predicate Going(v: Parser, tr: seq<Event>, data: string, r: Result, p: nat, marks: Marks)
      reads this
    {
      && p <= |data| && errno == OK && Legal(View()) && MarksOk(state, marks, data, p)
      && r == After(p, Run(View(), Pending(Joined(trace), marks, data, p), data[p..]))
      && Held(v, tr, data, p, View(), marks, Joined(trace))
    }

    /** What the call has to leave behind. */
    ghost predicate Ended(v: Parser, tr: seq<Event>, data: string, r: Result, p: nat)
      reads this
    {
      && View() == r.ps && p == r.consumed && Joined(trace) == Heard(v, tr, data)
      && (errno != OK ==> LosesOneRun(Joined(trace), r.trace))
    }

    /** One round of the loop over bytes that are copied in bulk. */
    method BulkRound(data: string, p: nat, marks: Marks, ghost v: Parser, ghost tr: seq<Event>, ghost r: Result)
      returns (p': nat, marks': Marks)
      requires p < |data| && Going(v, tr, data, r, p, marks) && (state.BodyIdentity? || state.ChunkData?)
      modifies this
      ensures p < p' && Going(v, tr, data, r, p', marks')
    {
      hide Legal, Step, Push, Joined, MarksOk, Pending, Run, Held, Moved;
      ghost var here, n, made := Pending(Joined(trace), marks, data, p), View(), trace;
      NoPending(state, marks, Joined(trace), data, p);
      var last;
      last, marks' := BodyBytes(data, p, marks);
      p' := last + 1;
      RunConcat(n, here, data[p..p'], data[p'..]);
      assert data[p..p'] + data[p'..] == data[p..];
      HeldThroughBody(v, tr, data, p, p', n, marks, made, View(), marks', trace);
    }

    /** One round of the loop over any other byte. */
    method ByteRound(data: string, p: nat, marks: Marks, ghost v: Parser, ghost tr: seq<Event>, ghost r: Result)
      returns (p': nat, marks': Marks, ended: bool)
      requires p < |data| && Going(v, tr, data, r, p, marks) && !state.BodyIdentity? && !state.ChunkData?
      requires r == Run(v, tr, data)
      modifies this
      ensures if ended then Ended(v, tr, data, r, p') else p < p' && Going(v, tr, data, r, p', marks')
    {
      hide Legal, Step, Push, Joined, MarksOk, Pending, Run, LosesOneRun, Held, Heard, Moved;
      ghost var here, n, made := Pending(Joined(trace), marks, data, p), View(), trace;
      RunUnfolds(n, here, data, p);
      PendingIsOneRun(Joined(trace), marks, data, p);
      var upgraded;
      marks', upgraded := CountedByte(data[p], data, p, marks);
      p', ended := p + 1, errno != OK || upgraded;
      if errno != OK {
        p' := p;
        HeardBeforeError(v, tr, data, p, n, marks, Joined(trace), r);
      } else if upgraded {
        HeardWithoutError(v, tr, data);
        NoPending(state, marks', Joined(trace), data, p + 1);
      } else {
        HeldThroughByte(v, tr, data, p, n, marks, made, View(), marks', trace);
      }
    }

    /** The loop of `http_parser_execute` over a non-empty buffer, and the leftover callbacks after it. */
    method ParseBytes(data: string) returns (nparsed: nat)
      requires errno == OK && Legal(View()) && TailOk(state, Joined(trace)) && data != []
      modifies this
      ensures Ended(old(View()), Joined(old(trace)), data, Run(old(View()), Joined(old(trace)), data), nparsed)
    {
      hide Legal, Push, Joined, MarksOk, Pending, Run, TailOk, EndsIn, Heard, Held, LosesOneRun;
      ghost var v, tr := View(), Joined(trace);
      ghost var r := Run(v, tr, data);
      var marks := NO_MARKS.(
        field := if state == HeaderField then At(0) else Unset,
        value := if state == HeaderValue then At(0) else Unset,
        url := if UrlState(state) then At(0) else Unset);
      Resume(state, tr, data, marks);
      HeldFromStart(v, tr, data, marks);
      var p := 0;
      assert data[0..] == data;
      while p < |data|
        invariant Going(v, tr, data, r, p, marks)
        decreases |data| - p
      {
        if state.BodyIdentity? || state.ChunkData? {
          p, marks := BulkRound(data, p, marks, v, tr, r);
        } else {
          var ended;
          p, marks, ended := ByteRound(data, p, marks, v, tr, r);
          if ended {
            return p;
          }
        }
      }
      assert data[|data|..] == "";
      RunEnds(View(), Pending(Joined(trace), marks, data, p));
      HeardWithoutError(v, tr, data);
      Flush(data, marks);
      return |data|;
    }

    /**
     `http_parser_execute`. However the bytes are cut into calls, the parser ends up where the byte-at-a-time
     parser does and the joined callbacks are the same; an error costs the run of data bytes that was going on.
     */
    method Execute(data: string) returns (nparsed: nat)
      requires Valid()
      modifies this
      ensures Valid()
      ensures old(errno) != OK ==> nparsed == 0 && View() == old(View()) && trace == old(trace)
      ensures old(errno) == OK && data == [] ==>
        trace == old(trace) &&
        if old(state) == Dead || old(state) == StartReq then nparsed == 0 && View() == old(View())
        else nparsed == 1 && View() == old(View()).(errno := INVALID_EOF_STATE)
      ensures old(errno) == OK && data != [] ==>
        var r := Run(old(View()), Joined(old(trace)), data);
        && View() == r.ps && nparsed == r.consumed
        && Joined(trace) == Heard(old(View()), Joined(old(trace)), data)
        && (errno == OK ==> Joined(trace) == r.trace)
        && (errno != OK ==> LosesOneRun(Joined(trace), r.trace))
    {
      hide Legal, Push, Joined, Run, LosesOneRun, TailOk, Heard;
      HeardWithoutError(View(), Joined(trace), data);
      nparsed := 0;
      if errno != OK {
        return;
      }
      if |data| == 0 {
        if state == Dead || state == StartReq {
          return;
        }
        errno := INVALID_EOF_STATE;
        return 1;
      }
      RunKeeps(View(), Joined(trace), data);
      nparsed := ParseBytes(data);
    }
  }

  /** Setting the mark of a state carried over from the last call adds nothing to the trace yet. */
  lemma Resume(s: State, tr: seq<Event>, data: string, m: Marks)
    requires TailOk(s, tr)
    requires m == Marks(if UrlState(s) then At(0) else Unset, if s.HeaderField? then At(0) else Unset,
                        if s.HeaderValue? then At(0) else Unset, Unset)
    ensures MarksOk(s, m, data, 0) && Pending(tr, m, data, 0) == tr
  {
    assert data[0..0] == "";
    if UrlState(s) {
      PushNothing(tr, Url);
    } else if s.HeaderField? {
      PushNothing(tr, Field);
    } else if s.HeaderValue? {
      PushNothing(tr, Value);
    }
  }

  lemma NoPending(s: State, m: Marks, tr: seq<Event>, data: string, p: nat)
    requires MarksOk(s, m, data, p) && !Marked(s) && !s.ChunkDataAlmostDone?
    requires s.BodyIdentity? || s.ChunkData? ==> p < |data|
    ensures m == NO_MARKS && Pending(tr, m, data, p) == tr
  {
  }

  lemma PendingIsOneRun(tr: seq<Event>, m: Marks, data: string, p: nat)
    ensures LosesOneRun(tr, Pending(tr, m, data, p))
  {
  }

  /** Forward from the start of the call: what has been reported and, if a mark is live, what it stands for. */
  ghost predicate Held(v: Parser, tr: seq<Event>, data: string, p: nat, q: Parser, m: Marks, made: seq<Event>) {
    p <= |data| &&
    var r := Run(v, tr, data[..p]);
    && r.ps == q && !r.stopped && r.trace == Pending(made, m, data, p)
    && (p < |data| ==>
          && made == Run(v, tr, data[..DataStart(v, tr, data, p)]).trace
          && DataStart(v, tr, data, p) == if m == NO_MARKS then p else MarkedAt(m))
  }

  lemma HeldFromStart(v: Parser, tr: seq<Event>, data: string, m: Marks)
    requires MarkedAt(m) == 0 && Pending(tr, m, data, 0) == tr
    ensures Held(v, tr, data, 0, v, m, tr)
  {
    assert data[..0] == "";
    RunEnds(v, tr);
  }

  lemma HeldThroughByte(v: Parser, tr: seq<Event>, data: string, p: nat, q: Parser, m: Marks, made: seq<Event>,
                        q': Parser, m': Marks, made': seq<Event>)
    requires p < |data| && Held(v, tr, data, p, q, m, Joined(made)) && Legal(q)
    requires MarksOk(q.state, m, data, p) && MarksOk(q'.state, m', data, p + 1)
    requires !q.state.BodyIdentity? && !q.state.ChunkData?
    requires var o := Step(q, data[p]);
      !o.stop && o.ps == q' && Pending(Joined(made'), m', data, p + 1) == PushAll(Pending(Joined(made), m, data, p), o.events)
    requires Moved(m, made, m', made', p)
    ensures Held(v, tr, data, p + 1, q', m', Joined(made'))
  {
    hide Legal, Step, Push, Joined, PushAll, Pending, Run, DataByte;
    assert data[..p + 1] == data[..p] + [data[p]];
    RunSnoc(v, tr, data[..p], data[p]);
    StartNext(v, tr, data, p);
    MarksFollowData(q, data[p]);
    if p + 1 < |data| {
      MarkedMeans(q'.state, m', data, p + 1);
    }
    if m' == NO_MARKS {
      NothingPending(Joined(made'), data, p + 1);
    }
  }

  lemma MarkedMeans(s: State, m: Marks, data: string, p: nat)
    requires MarksOk(s, m, data, p) && !s.ChunkDataAlmostDone? && p < |data|
    ensures m == NO_MARKS <==> !Marked(s)
  {
  }

  lemma NothingPending(tr: seq<Event>, data: string, p: nat)
    ensures Pending(tr, NO_MARKS, data, p) == tr
  {
  }

  lemma HeldThroughBody(v: Parser, tr: seq<Event>, data: string, p: nat, p': nat, q: Parser, m: Marks, made: seq<Event>,
                        q': Parser, m': Marks, made': seq<Event>)
    requires p < p' <= |data| && Held(v, tr, data, p, q, m, Joined(made)) && Legal(q) && m == NO_MARKS
    requires q.state.BodyIdentity? || q.state.ChunkData?
    requires Run(q, Pending(Joined(made), m, data, p), data[p..p'])
          == Result(q', Pending(Joined(made'), m', data, p'), p' - p, false)
    requires Moved(m, made, m', made', p)
    requires p' < |data| ==> p' - p == q.length && (m' == NO_MARKS <==> q.state.BodyIdentity?)
    ensures Held(v, tr, data, p', q', m', Joined(made'))
  {
    hide Legal, Step, Push, Joined, PushAll, Pending, Run, DataByte;
    assert data[..p'] == data[..p] + data[p..p'];
    RunConcat(v, tr, data[..p], data[p..p']);
    if p' < |data| {
      if q.state.BodyIdentity? {
        BodyEnds(v, tr, data, p, p' - p);
        NothingPending(Joined(made'), data, p');
      } else {
        ChunkIsOneRun(v, tr, data, p, p' - p);
      }
    }
  }

  lemma HeardBeforeError(v: Parser, tr: seq<Event>, data: string, p: nat, q: Parser, m: Marks, made: seq<Event>, r: Result)
    requires p < |data| && Held(v, tr, data, p, q, m, made) && r == Run(v, tr, data) && r.consumed == p && r.ps.errno != OK
    ensures Heard(v, tr, data) == made
  {
    hide Run, DataStart;
  }

  lemma HeardWithoutError(v: Parser, tr: seq<Event>, data: string)
    ensures Run(v, tr, data).ps.errno == OK ==> Heard(v, tr, data) == Run(v, tr, data).trace
  {
    hide Run, DataStart;
  }

  function Count(ps: Parser): Parser {
    if ParsingHeader(ps.state) then ps.(nread := ps.nread + 1) else ps
  }

  lemma StepDispatches(ps: Parser, ch: char)
    requires Legal(ps)
    ensures Step(ps, ch)
         == if Count(ps).nread > MAX_HEADER_SIZE then Fail(Count(ps), HEADER_OVERFLOW) else Dispatch(Count(ps), ch)
    ensures Count(ps).nread <= MAX_HEADER_SIZE ==> Counted(Count(ps))
    ensures !ParsingHeader(ps.state) ==> Count(ps).nread <= MAX_HEADER_SIZE
  {
    hide Dispatch;
  }

  lemma RunEnds(ps: Parser, tr: seq<Event>)
    ensures Run(ps, tr, "") == Result(ps, tr, 0, false)
  {
  }

  lemma RunUnfolds(ps: Parser, tr: seq<Event>, data: string, p: nat)
    requires p < |data|
    ensures var o := Step(ps, data[p]);
      var tr' := PushAll(tr, o.events);
      Run(ps, tr, data[p..])
      == if o.stop then Result(o.ps, tr', if o.ps.errno == OK then 1 else 0, true)
         else After(1, Run(o.ps, tr', data[p + 1..]))
  {
    hide Step, PushAll;
    assert data[p..][0] == data[p] && data[p..][1..] == data[p + 1..];
  }

  lemma RunStarts(tr: seq<Event>, k: Kind, data: string, p: nat)
    requires p < |data|
    ensures Push(tr, Data(k, Slice(data, At(p), p + 1))) == PushAll(tr, [Data(k, [data[p]])])
  {
    assert data[p..p + 1] == [data[p]];
    var e := Data(k, [data[p]]);
    assert PushAll(tr, [e]) == PushAll(Push(tr, e), [e][1..]);
  }

  lemma RunGrows(trace: seq<Event>, k: Kind, data: string, m: Mark, p: nat)
    requires m.At? && m.pos <= p < |data|
    ensures var tr := Push(Joined(trace), Data(k, Slice(data, m, p)));
      && Push(Joined(trace), Data(k, Slice(data, m, p + 1))) == PushAll(tr, [Data(k, [data[p]])])
      && Joined(trace + [Data(k, Slice(data, m, p))]) == tr
  {
    var e := Data(k, [data[p]]);
    var tr := Push(Joined(trace), Data(k, Slice(data, m, p)));
    assert PushAll(tr, [e]) == PushAll(Push(tr, e), [e][1..]);
    PushJoins(Joined(trace), k, data[m.pos..p], [data[p]]);
    assert data[m.pos..p] + [data[p]] == data[m.pos..p + 1];
    JoinedSnoc(trace, Data(k, Slice(data, m, p)));
  }
}
