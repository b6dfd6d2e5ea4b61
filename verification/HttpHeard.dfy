/**
 What a call that ends in an error has reported: everything but the run of data bytes, of this call, that was still
 going on before the byte in error.
 */
module HttpHeard {
  import opened HttpTypes
  import opened HttpStep
  import opened HttpRun
  import opened HttpInvariant

  /** The states between whose bytes a mark is live. */
  predicate Marked(s: State) {
    UrlState(s) || s.HeaderField? || s.HeaderValue?
  }

  /** The byte belongs to a run of data that is not over yet. */
  predicate DataByte(q: Parser, ch: char) {
    var o := Step(q, ch);
    |o.events| == 1 && o.events[0].Data? && (Marked(o.ps.state) || q.state.ChunkData?)
  }

  /** Where the run of data bytes before byte `n` starts; `n` itself if there is none. */
  function DataStart(ps: Parser, tr: seq<Event>, data: string, n: nat): (m: nat)
    requires n <= |data|
    ensures m <= n
  {
    if n == 0 then 0
    else if DataByte(Run(ps, tr, data[..n - 1]).ps, data[n - 1]) then DataStart(ps, tr, data, n - 1)
    else n
  }

  /** The joined callbacks after one call. */
  function Heard(ps: Parser, tr: seq<Event>, data: string): seq<Event> {
    var r := Run(ps, tr, data);
    if r.ps.errno == OK then r.trace
    else
      RunTakesAll(ps, tr, data);
      Run(ps, tr, data[..DataStart(ps, tr, data, r.consumed)]).trace
  }

  lemma StartNext(ps: Parser, tr: seq<Event>, data: string, p: nat)
    requires p < |data|
    ensures DataStart(ps, tr, data, p + 1)
         == if DataByte(Run(ps, tr, data[..p]).ps, data[p]) then DataStart(ps, tr, data, p) else p + 1
  {
  }

  /** Where a byte leaves a mark, and nowhere else, it belongs to a run of data. */
  lemma MarksFollowData(q: Parser, ch: char)
    requires Legal(q) && !q.state.BodyIdentity? && !q.state.ChunkData? && !Step(q, ch).stop
    ensures DataByte(q, ch) <==> Marked(Step(q, ch).ps.state)
    ensures !Step(q, ch).ps.state.ChunkDataAlmostDone?
  {
    hide Step, Legal;
    StepKeeps(q, ch);
    NoChunkEnds(q, ch);
  }

  lemma NoChunkEnds(q: Parser, ch: char)
    requires !q.state.ChunkData? && !Step(q, ch).stop
    ensures !Step(q, ch).ps.state.ChunkDataAlmostDone?
  {
    hide Dispatch;
    NoEndDispatched(q.(nread := q.nread + 1), ch);
    NoEndDispatched(q, ch);
  }

  lemma NoEndDispatched(q: Parser, ch: char)
    requires !q.state.ChunkData?
    ensures Dispatch(q, ch).stop || !Dispatch(q, ch).ps.state.ChunkDataAlmostDone?
  {
    hide *;
    if InLine(q.state) {
      NoEndInLine(q, ch);
    } else if InVersion(q.state) {
      NoEndInVersion(q, ch);
    } else {
      NoEndInHeaders(q, ch);
    }
  }

  predicate InLine(s: State) {
    LineState(s) || s.ReqSpacesBeforeUrl? || UrlState(s)
  }

  predicate InVersion(s: State) { !InLine(s) && (VersionState(s) || ChunkSizeState(s)) }

  lemma NoEndInLine(q: Parser, ch: char)
    requires InLine(q.state)
    ensures Dispatch(q, ch).stop || !Dispatch(q, ch).ps.state.ChunkDataAlmostDone?
  {
    hide MethodName, SwitchMethod, FirstMethod, ParseUrlChar, CharAt, OnVersion, OnChunkSize, OnHeaderFieldStart,
      OnHeaderField, OnHeaderValueStart, OnHeaderValue, OnHeaderValueLws, OnHeaderAlmostDone, OnHeadersAlmostDone,
      OnHeadersDone, OnBody;
    UrlNext(q.state, ch);
    UrlNext(ReqServerStart, ch);
    UrlNext(ReqSpacesBeforeUrl, ch);
  }

  lemma NoEndInVersion(q: Parser, ch: char)
    requires InVersion(q.state)
    ensures Dispatch(q, ch).stop || !Dispatch(q, ch).ps.state.ChunkDataAlmostDone?
  {
    hide AppendDigit, Overflows, Unhex, OnLine, OnUrl, OnSpacesBeforeUrl, OnHeaderFieldStart,
      OnHeaderField, OnHeaderValueStart, OnHeaderValue, OnHeaderValueLws, OnHeaderAlmostDone, OnHeadersAlmostDone,
      OnHeadersDone, OnBody;
  }

  lemma NoEndInHeaders(q: Parser, ch: char)
    requires !InLine(q.state) && !InVersion(q.state) && !q.state.ChunkData?
    ensures Dispatch(q, ch).stop || !Dispatch(q, ch).ps.state.ChunkDataAlmostDone?
  {
    hide Token, Lower, FieldByte, MatchNext, AppendDigit, Overflows, ShouldKeepAlive, FirstHeaderState, OnLine,
      OnSpacesBeforeUrl, OnUrl, OnVersion, OnChunkSize;
    FieldByteStays(q, ch);
  }

  lemma UrlNext(s: State, ch: char)
    ensures var s' := ParseUrlChar(s, ch); s'.Dead? || UrlState(s')
  {
  }

  lemma FieldByteStays(q: Parser, ch: char)
    ensures FieldByte(q, Token(ch), ch).state == q.state
  {
    hide Token, MatchNext;
  }

  /** The bytes of a chunk are one run, whether or not the chunk ends with them. */
  lemma {:induction false} ChunkIsOneRun(ps: Parser, tr: seq<Event>, data: string, p: nat, n: nat)
    requires p + n <= |data| && !Run(ps, tr, data[..p]).stopped
    requires var q := Run(ps, tr, data[..p]).ps; Legal(q) && q.state.ChunkData? && n <= q.length
    ensures DataStart(ps, tr, data, p + n) == DataStart(ps, tr, data, p)
    decreases n
  {
    hide Legal, Push, Run, DataByte, DataStart;
    if n > 0 {
      ChunkIsOneRun(ps, tr, data, p, n - 1);
      var q, t := Run(ps, tr, data[..p]).ps, Run(ps, tr, data[..p]).trace;
      assert data[..p + n - 1] == data[..p] + data[p..p + n - 1];
      RunConcat(ps, tr, data[..p], data[p..p + n - 1]);
      if n > 1 {
        BulkBody(q, t, data[p..p + n - 1]);
      } else {
        assert data[p..p] == "" && data[..p] + "" == data[..p];
      }
      var q' := Run(ps, tr, data[..p + n - 1]).ps;
      assert q'.state.ChunkData?;
      ChunkByte(q', data[p + n - 1]);
      StartNext(ps, tr, data, p + n - 1);
    }
  }

  lemma ChunkByte(q: Parser, ch: char)
    requires q.state.ChunkData?
    ensures DataByte(q, ch)
  {
  }

  /** The last byte of an identity body completes the message, so that nothing is pending behind it. */
  lemma BodyEnds(ps: Parser, tr: seq<Event>, data: string, p: nat, n: nat)
    requires p + n <= |data| && n > 0 && !Run(ps, tr, data[..p]).stopped
    requires var q := Run(ps, tr, data[..p]).ps; Legal(q) && q.state.BodyIdentity? && n == q.length
    ensures DataStart(ps, tr, data, p + n) == p + n
  {
    hide Legal, Push, Run, DataByte, DataStart;
    var q, t := Run(ps, tr, data[..p]).ps, Run(ps, tr, data[..p]).trace;
    assert data[..p + n - 1] == data[..p] + data[p..p + n - 1];
    RunConcat(ps, tr, data[..p], data[p..p + n - 1]);
    if n > 1 {
      BulkBody(q, t, data[p..p + n - 1]);
    } else {
      assert data[p..p] == "" && data[..p] + "" == data[..p];
    }
    StartNext(ps, tr, data, p + n - 1);
    LastByte(Run(ps, tr, data[..p + n - 1]).ps, data[p + n - 1]);
  }

  lemma LastByte(q: Parser, ch: char)
    requires q.state.BodyIdentity? && q.length == 1
    ensures !DataByte(q, ch)
  {
  }
}
