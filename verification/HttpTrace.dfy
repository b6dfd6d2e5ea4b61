/**
 The shape of a callback trace and the conservation of body bytes, over whole pipelined runs: callbacks come
 in the order of the message, an identity body has exactly its Content-Length bytes when the message completes,
 and a chunked body has exactly the bytes of the chunk sizes that were accepted.
 */
module HttpTrace {
  import opened HttpTypes
  import opened HttpStep
  import opened HttpRun
  import opened HttpInvariant

  datatype Phase = Idle | Begun | InUrl | InField(trailer: bool) | InValue(trailer: bool) | InBody | Broken

  datatype Due = ByChunks | Exactly(n: nat)

  /** What an observer of the callbacks knows: where in the message, body bytes seen, body bytes announced. */
  datatype Monitor = Monitor(phase: Phase, seen: nat, due: Due)

  const FRESH := Monitor(Idle, 0, Exactly(0))

  function Announced(length: nat, chunked: bool, upgrade: bool): Due {
    if upgrade then Exactly(0) else if chunked then ByChunks
    else if length == NO_LENGTH then Exactly(0) else Exactly(length)
  }

  predicate InHead(ph: Phase) {
    ph.InUrl? || ph == InField(false) || ph == InValue(false)
  }

  predicate AfterHead(ph: Phase) {
    ph.InBody? || ph == InField(true) || ph == InValue(true)
  }

  /** The grammar of callbacks; anything out of place breaks the monitor for good. */
  function Observe(m: Monitor, e: Event): Monitor {
    match e
    case MessageBegin => if m.phase.Idle? then Monitor(Begun, 0, Exactly(0)) else m.(phase := Broken)
    case Data(Url, _) => m.(phase := if m.phase.Begun? || m.phase.InUrl? then InUrl else Broken)
    case Data(Field, _) =>
      m.(phase := if InHead(m.phase) then InField(false)
                  else if AfterHead(m.phase) && m.due.ByChunks? then InField(true)
                  else Broken)
    case Data(Value, _) =>
      m.(phase := if m.phase.InField? || m.phase.InValue? then InValue(m.phase.trailer) else Broken)
    case HeadersComplete(length, chunked, upgrade) =>
      if InHead(m.phase) then Monitor(InBody, 0, Announced(length, chunked, upgrade)) else m.(phase := Broken)
    case Data(Body, s) => if m.phase.InBody? then m.(seen := m.seen + |s|) else m.(phase := Broken)
    case MessageComplete =>
      m.(phase := if AfterHead(m.phase) && (m.due.Exactly? ==> m.seen == m.due.n) then Idle else Broken)
  }

  function ObserveAll(m: Monitor, es: seq<Event>): Monitor
    decreases |es|
  {
    if es == [] then m else ObserveAll(Observe(m, es[0]), es[1..])
  }

  lemma ObserveConcat(m: Monitor, a: seq<Event>, b: seq<Event>)
    ensures ObserveAll(m, a + b) == ObserveAll(ObserveAll(m, a), b)
    decreases |a|
  {
    hide Observe;
    if a == [] {
      assert a + b == b;
    } else {
      assert (a + b)[0] == a[0] && (a + b)[1..] == a[1..] + b;
      ObserveConcat(Observe(m, a[0]), a[1..], b);
    }
  }

  lemma ObserveSnoc(m: Monitor, a: seq<Event>, e: Event)
    ensures ObserveAll(m, a + [e]) == Observe(ObserveAll(m, a), e)
  {
    hide Observe;
    ObserveConcat(m, a, [e]);
    var x := ObserveAll(m, a);
    assert ObserveAll(x, [e]) == ObserveAll(Observe(x, e), [e][1..]);
  }

  /** The monitor cannot tell a data callback from the same bytes in two callbacks. */
  lemma ObserveJoins(m: Monitor, k: Kind, x: string, y: string)
    ensures Observe(Observe(m, Data(k, x)), Data(k, y)) == Observe(m, Data(k, x + y))
  {
  }

  lemma ObservePush(m: Monitor, tr: seq<Event>, e: Event)
    ensures ObserveAll(m, Push(tr, e)) == Observe(ObserveAll(m, tr), e)
  {
    hide Observe;
    if e.Data? && EndsIn(tr, e.kind) {
      var init, last := tr[..|tr| - 1], tr[|tr| - 1];
      assert tr == init + [last];
      ObserveSnoc(m, init, last);
      ObserveSnoc(m, init, Data(e.kind, last.bytes + e.bytes));
      ObserveJoins(ObserveAll(m, init), e.kind, last.bytes, e.bytes);
    } else {
      ObserveSnoc(m, tr, e);
    }
  }

  /** So it may as well watch the joined trace. */
  lemma ObservePushAll(m: Monitor, tr: seq<Event>, es: seq<Event>)
    ensures ObserveAll(m, PushAll(tr, es)) == ObserveAll(ObserveAll(m, tr), es)
    decreases |es|
  {
    hide Observe, Push;
    if es != [] {
      ObservePush(m, tr, es[0]);
      ObservePushAll(m, Push(tr, es[0]), es[1..]);
    }
  }

  /** `accepted`: the chunk sizes read so far in this message. `balanced`: no message completed short or long. */
  datatype Ledger = Ledger(m: Monitor, accepted: nat, balanced: bool)

  predicate ChunkAccepted(ps: Parser, after: Parser) {
    ps.state.ChunkSizeAlmostDone? && after.state.ChunkData?
  }

  function Book(l: Ledger, ps: Parser, o: Outcome): Ledger {
    Ledger(
      ObserveAll(l.m, o.events),
      if ps.state.StartReq? then 0
      else if ChunkAccepted(ps, o.ps) then l.accepted + o.ps.length
      else l.accepted,
      l.balanced && (MessageComplete in o.events && l.m.due.ByChunks? ==> l.m.seen == l.accepted))
  }

  /** The ledger kept alongside a run. */
  function Watch(l: Ledger, ps: Parser, data: string): Ledger
    decreases |data|
  {
    if data == [] then l
    else
      var o := Step(ps, data[0]);
      var l' := Book(l, ps, o);
      if o.stop then l' else Watch(l', o.ps, data[1..])
  }

  /** How the ledger stands in each state. */
  predicate Agrees(ps: Parser, l: Ledger) {
    var ph := l.m.phase;
    var even := l.m.due.ByChunks? && l.m.seen == l.accepted;
    && l.balanced
    && match ps.state {
      case Dead => ph.Idle?
      case StartReq => ph.Idle?
      case ReqMethod => ph.Begun? && Open(ps, l)
      case ReqSpacesBeforeUrl => ph.Begun? && Open(ps, l)
      case ReqLineAlmostDone => ph.InUrl? && Open(ps, l)
      case HeaderFieldStart => InHeaders(ps, l)
      case HeadersAlmostDone => InHeaders(ps, l)
      case HeaderField => ph.InField? && InHeaders(ps, l)
      case HeaderValueStart => (ph.InField? || ph.InValue?) && InHeaders(ps, l)
      case HeaderValue => ph.InValue? && InHeaders(ps, l)
      case HeaderValueLws => (ph.InField? || ph.InValue?) && InHeaders(ps, l)
      case HeaderAlmostDone => (ph.InField? || ph.InValue?) && InHeaders(ps, l)
      case ChunkData =>
        ph.InBody? && !ps.flags.trailing && l.m.due.ByChunks? && l.m.seen + ps.length == l.accepted
      case BodyIdentity =>
        ph.InBody? && l.m.due.Exactly? && l.m.seen + ps.length == l.m.due.n
      case _ =>
        if ChunkState(ps.state) then ph.InBody? && !ps.flags.trailing && even
        else if UrlState(ps.state) || VersionState(ps.state) then ph.InUrl? && Open(ps, l)
        else false
    }
  }

  predicate InHeaders(ps: Parser, l: Ledger) {
    if ps.flags.trailing then AfterHead(l.m.phase) && l.m.due.ByChunks? && l.m.seen == l.accepted
    else InHead(l.m.phase) && Open(ps, l)
  }

  /** Nothing announced and no chunk read yet. */
  predicate Open(ps: Parser, l: Ledger) {
    !ps.flags.trailing && l.accepted == 0 && l.m.due.Exactly?
  }

  lemma ObserveShort(m: Monitor, es: seq<Event>)
    ensures |es| == 0 ==> ObserveAll(m, es) == m
    ensures |es| == 1 ==> ObserveAll(m, es) == Observe(m, es[0])
    ensures |es| == 2 ==> ObserveAll(m, es) == Observe(Observe(m, es[0]), es[1])
  {
    hide Observe;
    if |es| == 2 {
      assert ObserveAll(Observe(m, es[0]), es[1..]) == ObserveAll(Observe(Observe(m, es[0]), es[1]), es[1..][1..]);
    }
  }

  predicate Balanced(q: Parser, l: Ledger, o: Outcome) {
    o.ps.errno == OK ==> Agrees(o.ps, Book(l, q, o))
  }

  lemma LineBooks(q: Parser, ch: char, l: Ledger)
    requires Counted(q) && LineState(q.state) && Agrees(q, l)
    ensures Balanced(q, l, OnLine(q, ch))
  {
    hide SwitchMethod, MethodName;
    ObserveShort(l.m, OnLine(q, ch).events);
  }

  lemma UrlByteBooks(q: Parser, from: State, ch: char, l: Ledger)
    requires (UrlState(q.state) || q.state.ReqSpacesBeforeUrl?) && Agrees(q, l)
    ensures Balanced(q, l, UrlByte(q, from, ch))
  {
    ParseUrlStays(from, ch);
    ObserveShort(l.m, UrlByte(q, from, ch).events);
    hide ParseUrlChar;
  }

  lemma SpacesBook(q: Parser, ch: char, l: Ledger)
    requires q.state.ReqSpacesBeforeUrl? && Agrees(q, l)
    ensures Balanced(q, l, OnSpacesBeforeUrl(q, ch))
  {
    UrlByteBooks(q, if q.verb == CONNECT then ReqServerStart else ReqSpacesBeforeUrl, ch, l);
    ObserveShort(l.m, []);
    hide UrlByte, Observe;
  }

  lemma UrlBooks(q: Parser, ch: char, l: Ledger)
    requires UrlState(q.state) && Agrees(q, l)
    ensures Balanced(q, l, OnUrl(q, ch))
  {
    UrlByteBooks(q, q.state, ch, l);
    ObserveShort(l.m, []);
    hide UrlByte, Observe;
  }

  lemma ParseUrlStays(s: State, ch: char)
    ensures ParseUrlChar(s, ch).Dead? || UrlState(ParseUrlChar(s, ch))
  {
  }

  lemma VersionBooks(q: Parser, ch: char, l: Ledger)
    requires Counted(q) && VersionState(q.state) && Agrees(q, l)
    ensures Balanced(q, l, OnVersion(q, ch))
  {
    hide Legal, Observe, Digit;
    ObserveShort(l.m, []);
  }

  lemma HeadersDoneBooks(q: Parser, ch: char, l: Ledger)
    requires q.state.HeadersAlmostDone? && Legal(q) && Agrees(q, l)
    ensures Balanced(q, l, OnHeadersAlmostDone(q, ch))
  {
    hide ShouldKeepAlive;
    ObserveShort(l.m, OnHeadersAlmostDone(q, ch).events);
  }

  lemma FieldStartBooks(q: Parser, ch: char, l: Ledger)
    requires Legal(q) && q.state.HeaderFieldStart? && Agrees(q, l)
    ensures Balanced(q, l, OnHeaderFieldStart(q, ch))
  {
    ObserveShort(l.m, OnHeaderFieldStart(q, ch).events);
    if ch == LF {
      HeadersDoneBooks(q.(state := HeadersAlmostDone), ch, l);
    }
    hide MethodName, LegalName, LegalValue, OnHeadersAlmostDone, Token;
  }

  lemma FieldBooks(q: Parser, ch: char, l: Ledger)
    requires Legal(q) && q.state.HeaderField? && Agrees(q, l)
    ensures Balanced(q, l, OnHeaderField(q, ch))
  {
    ObserveShort(l.m, OnHeaderField(q, ch).events);
    var c := Token(ch);
    if c != '\0' {
      FieldByteKeeps(q, c, ch);
    }
    hide FieldByte, Token;
  }

  lemma ValueStartBooks(q: Parser, ch: char, l: Ledger)
    requires Legal(q) && q.state.HeaderValueStart? && Agrees(q, l)
    ensures Balanced(q, l, OnHeaderValueStart(q, ch))
  {
    ObserveShort(l.m, OnHeaderValueStart(q, ch).events);
    hide Legal, Lower;
  }

  lemma ValueBooks(q: Parser, ch: char, l: Ledger)
    requires Legal(q) && q.state.HeaderValue? && Agrees(q, l)
    ensures Balanced(q, l, OnHeaderValue(q, ch))
  {
    hide Legal, Lower, MatchNext, AppendDigit;
    ObserveShort(l.m, OnHeaderValue(q, ch).events);
  }

  lemma LineEndBooks(q: Parser, ch: char, l: Ledger)
    requires Legal(q) && q.state.HeaderAlmostDone? && Agrees(q, l)
    ensures Balanced(q, l, OnHeaderAlmostDone(q, ch))
  {
    hide Legal, Observe, Digit;
    ObserveShort(l.m, []);
  }

  lemma LwsBooks(q: Parser, ch: char, l: Ledger)
    requires Legal(q) && q.state.HeaderValueLws? && Agrees(q, l)
    ensures Balanced(q, l, OnHeaderValueLws(q, ch))
  {
    hide OnHeaderFieldStart;
    ObserveShort(l.m, []);
    if ch != ' ' && ch != '\t' {
      FieldStartBooks(q.(state := HeaderFieldStart), ch, l);
    }
  }

  lemma ChunkBooks(q: Parser, ch: char, l: Ledger)
    requires Counted(q) && ChunkSizeState(q.state) && Agrees(q, l)
    ensures Balanced(q, l, OnChunkSize(q, ch))
  {
    hide Unhex, AppendDigit, Legal, Observe;
    ObserveShort(l.m, []);
  }

  lemma BodyBooks(q: Parser, ch: char, l: Ledger)
    requires Legal(q) && !ParsingHeader(q.state) && Agrees(q, l)
    ensures Balanced(q, l, OnBody(q, ch))
  {
    hide ShouldKeepAlive;
    ObserveShort(l.m, OnBody(q, ch).events);
  }

  lemma DispatchBooks(q: Parser, ch: char, l: Ledger)
    requires Counted(q) && Agrees(q, l)
    ensures Balanced(q, l, Dispatch(q, ch))
  {
    hide Agrees, OnLine, OnUrl, OnSpacesBeforeUrl, OnVersion, OnChunkSize, OnHeaderFieldStart, OnHeaderField,
      OnHeaderValueStart, OnHeaderValue, OnHeaderValueLws, OnHeaderAlmostDone, OnHeadersAlmostDone, OnBody;
    if LineState(q.state) {
      LineBooks(q, ch, l);
    } else if UrlState(q.state) {
      UrlBooks(q, ch, l);
    } else if VersionState(q.state) {
      VersionBooks(q, ch, l);
    } else if ChunkSizeState(q.state) {
      ChunkBooks(q, ch, l);
    } else {
      match q.state
      case ReqSpacesBeforeUrl => SpacesBook(q, ch, l);
      case HeaderFieldStart => FieldStartBooks(q, ch, l);
      case HeaderField => FieldBooks(q, ch, l);
      case HeaderValueStart => ValueStartBooks(q, ch, l);
      case HeaderValue => ValueBooks(q, ch, l);
      case HeaderValueLws => LwsBooks(q, ch, l);
      case HeaderAlmostDone => LineEndBooks(q, ch, l);
      case HeadersAlmostDone => HeadersDoneBooks(q, ch, l);
      case _ => BodyBooks(q, ch, l);
    }
  }

  lemma StepBooks(ps: Parser, ch: char, l: Ledger)
    requires Legal(ps) && Agrees(ps, l)
    ensures Balanced(ps, l, Step(ps, ch))
  {
    hide Dispatch, Observe;
    var q := if ParsingHeader(ps.state) then ps.(nread := ps.nread + 1) else ps;
    if q.nread <= MAX_HEADER_SIZE {
      assert Counted(q);
      DispatchBooks(q, ch, l);
      assert Book(l, q, Dispatch(q, ch)) == Book(l, ps, Dispatch(q, ch));
    }
  }

  /** The ledger stays balanced along every run, and what it says is what the joined trace says. */
  lemma {:induction false} RunBooks(ps: Parser, tr: seq<Event>, data: string, l: Ledger)
    requires Legal(ps) && Agrees(ps, l) && ObserveAll(FRESH, tr) == l.m
    ensures var r, w := Run(ps, tr, data), Watch(l, ps, data);
      && (r.ps.errno == OK ==> Agrees(r.ps, w))
      && w.balanced
      && ObserveAll(FRESH, r.trace) == w.m && !w.m.phase.Broken?
    decreases |data|
  {
    hide Step, Observe, Legal;
    NotBroken(ps, l);
    if data != [] {
      var o := Step(ps, data[0]);
      StepKeeps(ps, data[0]);
      StepBooks(ps, data[0], l);
      ObservePushAll(FRESH, tr, o.events);
      ObserveShort(l.m, []);
      if o.ps.errno == OK {
        NotBroken(o.ps, Book(l, ps, o));
      }
      if !o.stop {
        RunBooks(o.ps, PushAll(tr, o.events), data[1..], Book(l, ps, o));
      }
    }
  }

  lemma NotBroken(ps: Parser, l: Ledger)
    requires Agrees(ps, l)
    ensures l.balanced && !l.m.phase.Broken?
  {
  }

  /**
   Over every run of a fresh parser: callbacks are in grammatical order (which includes that every identity body
   is as long as announced), and every chunked message is as long as its accepted chunk sizes.
   */
  lemma EveryRunIsInOrder(data: string)
    ensures !ObserveAll(FRESH, Run(INITIAL, [], data).trace).phase.Broken?
    ensures Watch(Ledger(FRESH, 0, true), INITIAL, data).balanced
  {
    RunBooks(INITIAL, [], data, Ledger(FRESH, 0, true));
  }

  lemma {:induction false} BrokenStays(m: Monitor, es: seq<Event>)
    requires m.phase.Broken?
    ensures ObserveAll(m, es).phase.Broken?
    decreases |es|
  {
    if es != [] {
      BrokenStays(Observe(m, es[0]), es[1..]);
    }
  }

  /** The callbacks really made are in order too, even when an error swallowed the last data run. */
  lemma ActualCallbacksInOrder(trace: seq<Event>, full: seq<Event>, lost: Event)
    requires full == Joined(trace) || full == Push(Joined(trace), lost)
    requires !ObserveAll(FRESH, full).phase.Broken?
    ensures !ObserveAll(FRESH, trace).phase.Broken?
  {
    hide Observe, Push;
    ObservePushAll(FRESH, [], trace);
    if full != Joined(trace) {
      ObservePush(FRESH, Joined(trace), lost);
      if ObserveAll(FRESH, trace).phase.Broken? {
        BrokenStays(ObserveAll(FRESH, trace), [lost]);
        ObserveShort(ObserveAll(FRESH, trace), [lost]);
      }
    }
  }

  /** After "Connection: close" nothing is ever reported again. */
  lemma {:induction false} DeadIsSilent(ps: Parser, tr: seq<Event>, data: string)
    requires ps.state.Dead?
    ensures var r := Run(ps, tr, data); r.trace == tr && r.ps.state.Dead?
    decreases |data|
  {
    if data != [] {
      var o := Step(ps, data[0]);
      assert o.events == [] && o.ps.state.Dead?;
      if !o.stop {
        DeadIsSilent(o.ps, tr, data[1..]);
      }
    }
  }
}
