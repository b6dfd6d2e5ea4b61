/**
 Request heads: which versions and targets are accepted, and that a head that is written out and fed to the parser is
 reported as it was meant.
 */
module HttpRequest {
  import opened HttpTypes
  import opened HttpStep
  import opened HttpRun
  import opened HttpInvariant
  import opened HttpNames
  import opened HttpHeaders
  import HttpUrl

  // ----- versions

  lemma {:induction false} DecimalGrows(d: string, k: nat)
    requires AllDigits(d) && k <= |d|
    ensures Decimal(d[..k]) <= Decimal(d)
    decreases |d|
  {
    if k < |d| {
      var u := d[..|d| - 1];
      assert u[..k] == d[..k];
      DecimalGrows(u, k);
    } else {
      assert d[..k] == d;
    }
  }

  lemma MajorStep(q: Parser, ch: char)
    requires (q.state.ReqFirstHttpMajor? || q.state.ReqHttpMajor?) && Room(q, 1) && q.errno == OK && IsNum(ch)
    ensures var n := if q.state.ReqHttpMajor? then 10 * q.major + Digit(ch) else Digit(ch);
      var o := Step(q, ch);
      if n > 999 || (q.state.ReqFirstHttpMajor? && ch == '0') then o.stop && o.ps.errno == INVALID_VERSION
      else o == Quiet(q.(state := ReqHttpMajor, major := n, nread := q.nread + 1))
  {
  }

  lemma MinorStep(q: Parser, ch: char)
    requires (q.state.ReqFirstHttpMinor? || q.state.ReqHttpMinor?) && Room(q, 1) && q.errno == OK && IsNum(ch)
    ensures var n := if q.state.ReqHttpMinor? then 10 * q.minor + Digit(ch) else Digit(ch);
      var o := Step(q, ch);
      if n > 999 then o.stop && o.ps.errno == INVALID_VERSION
      else o == Quiet(q.(state := ReqHttpMinor, minor := n, nread := q.nread + 1))
  {
  }

  lemma DecimalOne(d: string)
    requires |d| == 1 && AllDigits(d)
    ensures Decimal(d) == Digit(d[0])
  {
    assert Decimal(d[..0]) == 0;
  }

  lemma {:induction false} MajorRun(ps: Parser, tr: seq<Event>, d: string)
    requires ps.state.ReqFirstHttpMajor? && ps.errno == OK && Room(ps, |d|) && d != "" && AllDigits(d)
    ensures var r := Run(ps, tr, d);
      if d[0] != '0' && Decimal(d) <= 999
      then r == Result(ps.(state := ReqHttpMajor, major := Decimal(d), nread := ps.nread + |d|), tr, |d|, false)
      else r.stopped && r.ps.errno == INVALID_VERSION
    decreases |d|
  {
    hide Step;
    RunTakesAll(ps, tr, d);
    if |d| == 1 {
      DecimalOne(d);
      MajorStep(ps, d[0]);
      assert d == [d[0]];
      RunOne(ps, tr, d[0]);
      PushNone(tr);
    } else {
      var u, ch := d[..|d| - 1], d[|d| - 1];
      assert d == u + [ch];
      MajorRun(ps, tr, u);
      RunConcat(ps, tr, u, [ch]);
      var r := Run(ps, tr, u);
      if !r.stopped {
        MajorStep(r.ps, ch);
        RunSnoc(ps, tr, u, ch);
        PushNone(tr);
      }
    }
  }

  lemma {:induction false} MinorRun(ps: Parser, tr: seq<Event>, d: string)
    requires ps.state.ReqFirstHttpMinor? && ps.errno == OK && Room(ps, |d|) && d != "" && AllDigits(d)
    ensures var r := Run(ps, tr, d);
      if Decimal(d) <= 999
      then r == Result(ps.(state := ReqHttpMinor, minor := Decimal(d), nread := ps.nread + |d|), tr, |d|, false)
      else r.stopped && r.ps.errno == INVALID_VERSION
    decreases |d|
  {
    hide Step;
    RunTakesAll(ps, tr, d);
    if |d| == 1 {
      DecimalOne(d);
      MinorStep(ps, d[0]);
      assert d == [d[0]];
      RunOne(ps, tr, d[0]);
      PushNone(tr);
    } else {
      var u, ch := d[..|d| - 1], d[|d| - 1];
      assert d == u + [ch];
      MinorRun(ps, tr, u);
      RunConcat(ps, tr, u, [ch]);
      var r := Run(ps, tr, u);
      if !r.stopped {
        MinorStep(r.ps, ch);
        RunSnoc(ps, tr, u, ch);
        PushNone(tr);
      }
    }
  }

  lemma QuietByte(ps: Parser, tr: seq<Event>, ch: char, q: Parser)
    requires Step(ps, ch) == Quiet(q) && q.errno == OK
    ensures Run(ps, tr, [ch]) == Result(q, tr, 1, false)
  {
    hide Step;
    RunOne(ps, tr, ch);
    PushNone(tr);
  }

  lemma HttpLetters(q: Parser)
    requires Room(q, 1)
    ensures var n := q.nread + 1;
      && (q.state.ReqHttpStart? ==> Step(q, 'H') == Quiet(q.(state := ReqHttpH, nread := n)))
      && (q.state.ReqHttpH? ==> Step(q, 'T') == Quiet(q.(state := ReqHttpHT, nread := n)))
      && (q.state.ReqHttpHT? ==> Step(q, 'T') == Quiet(q.(state := ReqHttpHTT, nread := n)))
      && (q.state.ReqHttpHTT? ==> Step(q, 'P') == Quiet(q.(state := ReqHttpHTTP, nread := n)))
      && (q.state.ReqHttpHTTP? ==> Step(q, '/') == Quiet(q.(state := ReqFirstHttpMajor, nread := n)))
  {
  }

  lemma HttpSlash(ps: Parser, tr: seq<Event>)
    requires ps.state.ReqHttpStart? && ps.errno == OK && Room(ps, 5)
    ensures Run(ps, tr, "HTTP/") == Result(ps.(state := ReqFirstHttpMajor, nread := ps.nread + 5), tr, 5, false)
  {
    hide Step, Run;
    var a := ps.(state := ReqHttpH, nread := ps.nread + 1);
    var b := ps.(state := ReqHttpHT, nread := ps.nread + 2);
    var c := ps.(state := ReqHttpHTT, nread := ps.nread + 3);
    var d := ps.(state := ReqHttpHTTP, nread := ps.nread + 4);
    HttpLetters(ps);
    HttpLetters(a);
    HttpLetters(b);
    HttpLetters(c);
    HttpLetters(d);
    RunQuietPair(ps, tr, 'H', 'T');
    RunQuietPair(b, tr, 'T', 'P');
    QuietByte(d, tr, '/', ps.(state := ReqFirstHttpMajor, nread := ps.nread + 5));
    RunConcat(ps, tr, ['H', 'T'], ['T', 'P']);
    RunConcat(ps, tr, ['H', 'T'] + ['T', 'P'], ['/']);
    assert "HTTP/" == ['H', 'T'] + ['T', 'P'] + ['/'];
  }

  predicate GoodVersion(major: string, minor: string) {
    && major != "" && minor != "" && AllDigits(major) && AllDigits(minor)
    && major[0] != '0' && Decimal(major) <= 999 && Decimal(minor) <= 999
  }

  lemma DotStep(q: Parser)
    requires q.state.ReqHttpMajor? && Room(q, 1)
    ensures Step(q, '.') == Quiet(q.(state := ReqFirstHttpMinor, nread := q.nread + 1))
  {
  }

  /** The version is accepted exactly when both numbers are at most 999 and the first does not start with a zero. */
  lemma VersionIsExact(ps: Parser, tr: seq<Event>, major: string, minor: string)
    requires ps.state.ReqHttpStart? && ps.errno == OK && Room(ps, |major| + |minor| + 6)
    requires major != "" && minor != "" && AllDigits(major) && AllDigits(minor)
    ensures var r := Run(ps, tr, "HTTP/" + major + "." + minor);
      if GoodVersion(major, minor)
      then r == Result(ps.(state := ReqHttpMinor, major := Decimal(major), minor := Decimal(minor),
                           nread := ps.nread + |major| + |minor| + 6), tr, |major| + |minor| + 6, false)
      else r.stopped && r.ps.errno == INVALID_VERSION
  {
    hide Step, Decimal, AllDigits;
    HttpSlash(ps, tr);
    var a := Run(ps, tr, "HTTP/").ps;
    RunConcat(ps, tr, "HTTP/", major);
    MajorRun(a, tr, major);
    var b := Run(a, tr, major);
    RunConcat(ps, tr, "HTTP/" + major, ".");
    RunConcat(ps, tr, "HTTP/" + major + ".", minor);
    if !b.stopped {
      DotStep(b.ps);
      var c := b.ps.(state := ReqFirstHttpMinor, nread := b.ps.nread + 1);
      QuietByte(b.ps, tr, '.', c);
      MinorRun(c, tr, minor);
    }
  }

  // ----- request targets

  predicate NoBreak(u: string) { ' ' !in u && CR !in u && LF !in u }

  /** States in which a target may not end. */
  predicate MidUrl(s: State) {
    s.ReqSchema? || s.ReqSchemaSlash? || s.ReqSchemaSlashSlash? || s.ReqServerStart?
  }

  /** What the URL automaton makes of a target. */
  function TargetState(verb: Method, u: string): State { HttpUrl.ScanRun(u, verb == CONNECT).state }

  predicate GoodTarget(verb: Method, u: string) {
    u != "" && NoBreak(u) && !TargetState(verb, u).Dead? && !MidUrl(TargetState(verb, u))
  }

  lemma UrlNext(s: State, ch: char)
    ensures var s' := ParseUrlChar(s, ch); s'.Dead? || UrlState(s')
  {
  }

  lemma UrlFirst(q: Parser, ch: char)
    requires q.state.ReqSpacesBeforeUrl? && Room(q, 1) && ch != ' '
    ensures var s := ParseUrlChar(if q.verb == CONNECT then ReqServerStart else ReqSpacesBeforeUrl, ch);
      var o := Step(q, ch);
      if s.Dead? then o.stop && o.ps.errno == INVALID_URL
      else o == Emit(q.(state := s, nread := q.nread + 1), Data(Url, [ch]))
  {
    hide ParseUrlChar;
  }

  lemma UrlNextByte(q: Parser, ch: char)
    requires UrlState(q.state) && Room(q, 1) && ch != ' ' && ch != CR && ch != LF
    ensures var s := ParseUrlChar(q.state, ch);
      var o := Step(q, ch);
      if s.Dead? then o.stop && o.ps.errno == INVALID_URL
      else o == Emit(q.(state := s, nread := q.nread + 1), Data(Url, [ch]))
  {
    hide ParseUrlChar;
  }

  lemma ScanState(verb: Method, u: string)
    requires u != ""
    ensures TargetState(verb, u) == ParseUrlChar(TargetState(verb, u[..|u| - 1]), u[|u| - 1])
    ensures TargetState(verb, "") == if verb == CONNECT then ReqServerStart else ReqSpacesBeforeUrl
    ensures |u| > 1 && TargetState(verb, u[..|u| - 1]).Dead? ==> TargetState(verb, u).Dead?
  {
  }

  /** The parser follows the URL automaton, and reports the target in one piece. */
  lemma {:induction false} TargetRun(ps: Parser, tr: seq<Event>, u: string)
    requires ps.state.ReqSpacesBeforeUrl? && ps.errno == OK && Room(ps, |u|) && u != "" && NoBreak(u)
    ensures var s, r := TargetState(ps.verb, u), Run(ps, tr, u);
      if s.Dead? then r.stopped && r.ps.errno == INVALID_URL
      else r == Result(ps.(state := s, nread := ps.nread + |u|), Push(tr, Data(Url, u)), |u|, false) && UrlState(s)
    decreases |u|
  {
    hide Step, TargetState, ParseUrlChar, UrlState, Push;
    ScanState(ps.verb, u);
    RunTakesAll(ps, tr, u);
    var v, ch := u[..|u| - 1], u[|u| - 1];
    UrlNext(TargetState(ps.verb, v), ch);
    assert ch in u && u == v + [ch];
    if v == "" {
      assert u == [ch];
      UrlFirst(ps, ch);
      RunOne(ps, tr, ch);
      PushOne(tr, Data(Url, u));
    } else {
      TargetRun(ps, tr, v);
      RunConcat(ps, tr, v, [ch]);
      if !Run(ps, tr, v).stopped {
        TargetMore(ps, tr, v, ch);
      }
    }
  }

  lemma TargetMore(ps: Parser, tr: seq<Event>, v: string, ch: char)
    requires ps.errno == OK && Room(ps, |v| + 1) && ch != ' ' && ch != CR && ch != LF
    requires var r := Run(ps, tr, v);
      r == Result(ps.(state := r.ps.state, nread := ps.nread + |v|), Push(tr, Data(Url, v)), |v|, false) && UrlState(r.ps.state)
    ensures var s, r := ParseUrlChar(Run(ps, tr, v).ps.state, ch), Run(ps, tr, v + [ch]);
      if s.Dead? then r.stopped && r.ps.errno == INVALID_URL
      else r == Result(ps.(state := s, nread := ps.nread + |v| + 1), Push(tr, Data(Url, v + [ch])), |v| + 1, false)
  {
    hide Step, ParseUrlChar, UrlState, Push;
    var r := Run(ps, tr, v);
    UrlNextByte(r.ps, ch);
    RunSnoc(ps, tr, v, ch);
    RunTakesAll(ps, tr, v + [ch]);
    PushOne(r.trace, Data(Url, [ch]));
    PushJoins(tr, Url, v, [ch]);
  }

  lemma EndTarget(q: Parser)
    requires UrlState(q.state) && Room(q, 1)
    ensures var o := Step(q, ' ');
      if MidUrl(q.state) then o.stop && o.ps.errno == INVALID_URL
      else o == Quiet(q.(state := ReqHttpStart, nread := q.nread + 1))
  {
  }

  /** A target is accepted exactly when the URL automaton may end on it. */
  lemma TargetsAreExact(ps: Parser, tr: seq<Event>, u: string)
    requires ps.state.ReqSpacesBeforeUrl? && ps.errno == OK && Room(ps, |u| + 1) && u != "" && NoBreak(u)
    ensures var r := Run(ps, tr, u + " ");
      if GoodTarget(ps.verb, u)
      then r == Result(ps.(state := ReqHttpStart, nread := ps.nread + |u| + 1), Push(tr, Data(Url, u)), |u| + 1, false)
      else r.stopped && r.ps.errno == INVALID_URL
  {
    hide Step, TargetState, Push, UrlState, MidUrl;
    TargetRun(ps, tr, u);
    var r := Run(ps, tr, u);
    RunConcat(ps, tr, u, " ");
    if !r.stopped {
      EndTarget(r.ps);
      RunOne(r.ps, r.trace, ' ');
      PushNone(r.trace);
    }
  }

  lemma {:induction false} AliveHasNoBreak(u: string, isConnect: bool)
    requires !HttpUrl.ScanRun(u, isConnect).state.Dead?
    ensures NoBreak(u)
    decreases |u|
  {
    if u != "" {
      var v, ch := u[..|u| - 1], u[|u| - 1];
      HttpUrl.DeadStays(HttpUrl.ScanRun(v, isConnect), ch);
      AliveHasNoBreak(v, isConnect);
      assert u == v + [ch] && ch != ' ' && ch != CR && ch != LF;
    }
  }

  lemma MidHasNoHost(a: HttpUrl.Scan, isConnect: bool)
    requires HttpUrl.Good(a, isConnect) && MidUrl(a.state)
    ensures a.head.host == "" && (a.head.schema != "" || isConnect)
  {
    hide HttpUrl.All, HttpUrl.AtsApart, HttpUrl.LegalTail, HttpUrl.Fits;
  }

  lemma NoHostIsNoUrl()
    ensures !HttpUrl.HostAccepts(HttpUrl.HostRun("", false).state)
  {
  }

  /** Every URL that `http_parser_parse_url` takes apart is a target the parser accepts. */
  lemma LegalUrlIsTarget(verb: Method, u: string)
    requires HttpUrl.Reading(u, verb == CONNECT).Some? && u != ""
    ensures GoodTarget(verb, u)
  {
    hide HttpUrl.ScanRun, HttpUrl.HostRun, HttpUrl.HostAccepts, HttpUrl.Good, MidUrl, NoBreak;
    var connect := verb == CONNECT;
    var a := HttpUrl.ScanRun(u, connect);
    HttpUrl.ScanRunKeeps(u, connect);
    AliveHasNoBreak(u, connect);
    NoHostIsNoUrl();
    if MidUrl(a.state) {
      MidHasNoHost(a, connect);
    }
  }

  /** The parts of a target: what precedes the path, path, query and fragment. */
  predicate TargetParts(h: HttpUrl.Head, t: HttpUrl.Tail, isConnect: bool) {
    && HttpUrl.LegalHead(h, isConnect) && HttpUrl.LegalTail(t)
    && if t == HttpUrl.NO_TAIL then h.host != "" else HttpUrl.Fits(HttpUrl.HeadState(h, isConnect), t)
  }

  /** The targets accepted are exactly those composed of legal parts. */
  lemma TargetsHaveParts(verb: Method, u: string)
    ensures var c := verb == CONNECT;
      GoodTarget(verb, u) <==> exists h, t :: TargetParts(h, t, c) && u == HttpUrl.HeadText(h) + HttpUrl.TailText(t)
  {
    hide HttpUrl.LegalHead, HttpUrl.LegalTail, HttpUrl.HeadText, HttpUrl.TailText, HttpUrl.ScanRun, NoBreak, HttpUrl.HeadState;
    var c := verb == CONNECT;
    if GoodTarget(verb, u) {
      var a := HttpUrl.ScanRun(u, c);
      HttpUrl.ScanRunKeeps(u, c);
      NoMiddle(a, c);
      assert TargetParts(a.head, a.tail, c);
    }
    if h, t :| TargetParts(h, t, c) && u == HttpUrl.HeadText(h) + HttpUrl.TailText(t) {
      PartsAreTarget(h, t, verb);
    }
  }

  lemma NoMiddle(a: HttpUrl.Scan, isConnect: bool)
    requires HttpUrl.Good(a, isConnect) && !MidUrl(a.state) && HttpUrl.ScanText(a) != ""
    ensures TargetParts(a.head, a.tail, isConnect)
  {
    hide HttpUrl.All, HttpUrl.AtsApart, HttpUrl.LegalTail, HttpUrl.Fits;
    HttpUrl.NoTailText();
    assert "://"[..0] == "";
  }

  lemma PartsAreTarget(h: HttpUrl.Head, t: HttpUrl.Tail, verb: Method)
    requires TargetParts(h, t, verb == CONNECT)
    ensures GoodTarget(verb, HttpUrl.HeadText(h) + HttpUrl.TailText(t))
  {
    var c := verb == CONNECT;
    var a := HttpUrl.Scan(if t == HttpUrl.NO_TAIL then HttpUrl.HeadState(h, c) else HttpUrl.TailState(t), h, t);
    assert HttpUrl.Good(a, c) && !MidUrl(a.state) by { hide HttpUrl.LegalHead, HttpUrl.LegalTail, HttpUrl.Fits; }
    var u := HttpUrl.ScanText(a);
    assert u != "" by { TextOfTarget(h, t, c); }
    hide HttpUrl.Good, HttpUrl.ScanText, HttpUrl.ScanRun, MidUrl, NoBreak;
    HttpUrl.ScanIsComplete(a, c);
    AliveHasNoBreak(u, c);
  }

  lemma TextOfTarget(h: HttpUrl.Head, t: HttpUrl.Tail, isConnect: bool)
    requires TargetParts(h, t, isConnect)
    ensures HttpUrl.HeadText(h) + HttpUrl.TailText(t) != ""
  {
    hide HttpUrl.All, HttpUrl.AtsApart;
  }

  // ----- heads

  /** `eol` ends the request line, `end` is the empty line behind the headers. */
  datatype Head = Head(verb: Method, target: string, major: string, minor: string, eol: Eol, headers: seq<Header>, end: Eol)

  function RequestLine(r: Head): string {
    MethodName(r.verb) + " " + r.target + " " + "HTTP/" + r.major + "." + r.minor + Break(r.eol)
  }

  function HeadText(r: Head): string { RequestLine(r) + HeadersText(r.headers) + Break(r.end) }

  const NO_FRAMING := Framing(NO_LENGTH, NO_FLAGS)

  function FramingFor(r: Head): Framing { ApplyAll(NO_FRAMING, r.headers) }

  predicate GoodHead(r: Head) {
    && GoodTarget(r.verb, r.target) && GoodVersion(r.major, r.minor)
    && forall i :: 0 <= i < |r.headers| ==> GoodHeader(r.headers[i])
  }

  lemma NameHasNoSpace(m: Method)
    ensures var w := MethodName(m); w != "" && ' ' !in w && w[0] != CR && w[0] != LF
  {
  }

  lemma NamesDiffer(m: Method, n: Method)
    requires MethodName(m) == MethodName(n)
    ensures m == n
  {
    var w := MethodName(m);
    assert w == w[..|w|];
    RecogniseComplete(m, |w|);
    RecogniseComplete(n, |w|);
    PathEnds(m);
    PathEnds(n);
  }

  lemma EndVersion(q: Parser, tr: seq<Event>, eol: Eol)
    requires q.state.ReqHttpMinor? && q.errno == OK && Room(q, |Break(eol)|)
    ensures Run(q, tr, Break(eol))
         == Result(q.(state := HeaderFieldStart, nread := q.nread + |Break(eol)|), tr, |Break(eol)|, false)
  {
    if eol.CrLf? {
      var a := q.(state := ReqLineAlmostDone, nread := q.nread + 1);
      assert Step(q, CR) == Quiet(a);
      assert Step(a, LF) == Quiet(q.(state := HeaderFieldStart, nread := q.nread + 2));
      hide Step;
      RunQuietPair(q, tr, CR, LF);
      assert Break(eol) == [CR, LF];
    } else {
      var a := q.(state := HeaderFieldStart, nread := q.nread + 1);
      assert Step(q, LF) == Quiet(a);
      hide Step;
      QuietByte(q, tr, LF, a);
      assert Break(eol) == [LF];
    }
  }

  /** The version and the end of the request line. */
  lemma VersionRun(q: Parser, tr: seq<Event>, major: string, minor: string, eol: Eol)
    requires q.state.ReqHttpStart? && q.errno == OK && GoodVersion(major, minor)
    requires Room(q, |"HTTP/" + major + "." + minor + Break(eol)|)
    ensures var text := "HTTP/" + major + "." + minor + Break(eol);
      Run(q, tr, text) == Result(q.(state := HeaderFieldStart, major := Decimal(major), minor := Decimal(minor), nread := q.nread + |text|),
                                 tr, |text|, false)
  {
    hide Step, Run, Decimal, AllDigits;
    var version := "HTTP/" + major + "." + minor;
    VersionIsExact(q, tr, major, minor);
    var c := Run(q, tr, version);
    EndVersion(c.ps, c.trace, eol);
    RunConcat(q, tr, version, Break(eol));
  }

  lemma PushTarget(tr: seq<Event>, u: string)
    ensures Push(tr + [MessageBegin], Data(Url, u)) == tr + [MessageBegin, Data(Url, u)]
  {
  }

  /** The request line is read as it was meant, and begins a new message. */
  lemma RequestLineRun(ps: Parser, tr: seq<Event>, r: Head)
    requires ps.state.StartReq? && ps.errno == OK && Room(ps, |RequestLine(r)|) && GoodHead(r)
    ensures var x := Run(ps, tr, RequestLine(r));
      && !x.stopped && x.trace == tr + [MessageBegin, Data(Url, r.target)]
      && x.ps == ps.(state := HeaderFieldStart, verb := r.verb, index := x.ps.index, flags := NO_FLAGS, length := NO_LENGTH,
                     major := Decimal(r.major), minor := Decimal(r.minor), nread := ps.nread + |RequestLine(r)|)
  {
    hide Step, Run, MethodName, Decimal, AllDigits, TargetState, MidUrl, NoBreak, GoodHeader, Push;
    var w := MethodName(r.verb);
    NameHasNoSpace(r.verb);
    MethodsAreExact(ps, tr, w);
    var a := Run(ps, tr, w + " ");
    NamesDiffer(a.ps.verb, r.verb);
    var target := r.target + " ";
    TargetsAreExact(a.ps, a.trace, r.target);
    RunConcat(ps, tr, w + " ", target);
    var b := Run(a.ps, a.trace, target);
    assert b.trace == tr + [MessageBegin, Data(Url, r.target)] by { PushTarget(tr, r.target); }
    var version := "HTTP/" + r.major + "." + r.minor + Break(r.eol);
    VersionRun(b.ps, b.trace, r.major, r.minor, r.eol);
    RunConcat(ps, tr, w + " " + target, version);
    assert RequestLine(r) == w + " " + target + version;
  }

  /** No body follows: the message is complete at its head. */
  predicate Bodiless(f: Framing) { !f.flags.chunked && (f.length == 0 || f.length == NO_LENGTH) }

  function Upgrades(r: Head): bool { FramingFor(r).flags.upgrade || r.verb == CONNECT }

  function HeadReports(r: Head): seq<Event> {
    var f := FramingFor(r);
    [MessageBegin, Data(Url, r.target)] + HeaderReports(r.headers)
    + [HeadersComplete(f.length, f.flags.chunked, Upgrades(r))]
    + if Upgrades(r) || Bodiless(f) then [MessageComplete] else []
  }

  /** The state behind the head. */
  function BehindHead(q: Parser): State {
    if q.upgrade then NewMessage(q) else if q.flags.chunked then ChunkSizeStart
    else if Bodiless(FramingOf(q)) then NewMessage(q) else BodyIdentity
  }

  lemma HeadEnd(q: Parser, tr: seq<Event>, eol: Eol)
    requires AtLineStart(q) && q.errno == OK && Room(q, |Break(eol)|) && !q.flags.trailing
    ensures var x, up := Run(q, tr, Break(eol)), q.flags.upgrade || q.verb == CONNECT;
      var q' := q.(upgrade := up, nread := 0);
      && x.stopped == up && x.ps == q'.(state := BehindHead(q')) && x.consumed == |Break(eol)|
      && x.trace == tr + [HeadersComplete(q.length, q.flags.chunked, up)]
                    + if up || Bodiless(FramingOf(q)) then [MessageComplete] else []
  {
    if eol.CrLf? {
      var a := q.(state := HeadersAlmostDone, nread := q.nread + 1);
      assert Step(q, CR) == Quiet(a);
      HeadLineFeed(a, tr);
      hide Step;
      QuietByte(q, tr, CR, a);
      RunOne(a, tr, LF);
      RunConcat(q, tr, [CR], [LF]);
      assert Break(eol) == [CR] + [LF];
      SameEnd(q, a);
    } else {
      HeadLineFeed(q, tr);
      hide Step;
      RunOne(q, tr, LF);
      assert Break(eol) == [LF];
    }
  }

  lemma SameEnd(q: Parser, a: Parser)
    requires q.(state := a.state, nread := a.nread) == a
    ensures var up := q.flags.upgrade || q.verb == CONNECT;
      BehindHead(a.(upgrade := up, nread := 0)) == BehindHead(q.(upgrade := up, nread := 0))
  {
  }

  lemma HeadLineFeed(a: Parser, tr: seq<Event>)
    requires (a.state.HeadersAlmostDone? || AtLineStart(a)) && a.errno == OK && Room(a, 1) && !a.flags.trailing
    ensures var o, up := Step(a, LF), a.flags.upgrade || a.verb == CONNECT;
      var a' := a.(upgrade := up, nread := 0);
      && o.stop == up && o.ps == a'.(state := BehindHead(a'))
      && PushAll(tr, o.events) == tr + [HeadersComplete(a.length, a.flags.chunked, up)]
                                  + if up || Bodiless(FramingOf(a)) then [MessageComplete] else []
  {
    var up := a.flags.upgrade || a.verb == CONNECT;
    var e := HeadersComplete(a.length, a.flags.chunked, up);
    PushOne(tr, e);
    PushTwo(tr, e, MessageComplete);
    LineFeedStep(a);
    hide PushAll, Step, BehindHead, Bodiless;
  }

  lemma LineFeedStep(a: Parser)
    requires (a.state.HeadersAlmostDone? || AtLineStart(a)) && a.errno == OK && Room(a, 1) && !a.flags.trailing
    ensures var o, up := Step(a, LF), a.flags.upgrade || a.verb == CONNECT;
      var a', e := a.(upgrade := up, nread := 0), HeadersComplete(a.length, a.flags.chunked, up);
      && o.stop == up && o.ps == a'.(state := BehindHead(a'))
      && o.events == if up || Bodiless(FramingOf(a)) then [e, MessageComplete] else [e]
  {
    hide OnLine, OnUrl, OnVersion, OnChunkSize, OnBody, OnHeaderField, OnHeaderValue, OnHeaderValueStart, Token;
  }

  /**
   A head that is written out is reported as it was meant; the parser then holds the method, the version and
   the framing, and is where the body (or the next message) begins.
   */
  lemma HeadIsReceived(ps: Parser, tr: seq<Event>, r: Head)
    requires ps.state.StartReq? && ps.errno == OK && Room(ps, |HeadText(r)|) && GoodHead(r)
    ensures var x, f := Run(ps, tr, HeadText(r)), FramingFor(r);
      && x.trace == tr + HeadReports(r) && x.stopped == Upgrades(r) && x.consumed == |HeadText(r)|
      && x.ps == ps.(state := BehindHead(x.ps), hstate := x.ps.hstate, index := x.ps.index, nread := 0,
                     length := f.length, flags := f.flags, major := Decimal(r.major), minor := Decimal(r.minor),
                     verb := r.verb, upgrade := Upgrades(r))
  {
    hide Step, Run, Decimal, RequestLine, GoodTarget, BehindHead, Bodiless, EndsIn, GoodHeader;
    var line, rest := RequestLine(r), HeadersText(r.headers);
    RequestLineRun(ps, tr, r);
    var a := Run(ps, tr, line);
    assert !EndsIn(a.trace, Field) by { EndsInUrl(tr, r.target); }
    HeaderLines(a.ps, a.trace, r.headers);
    RunConcat(ps, tr, line, rest);
    NoTrailer(NO_FRAMING, r.headers);
    var b := Run(a.ps, a.trace, rest);
    HeadEnd(b.ps, b.trace, r.end);
    RunConcat(ps, tr, line + rest, Break(r.end));
    RunTakesAll(ps, tr, line + rest);
    assert b.ps == ps.(state := b.ps.state, verb := r.verb, index := b.ps.index, hstate := b.ps.hstate,
                       flags := FramingFor(r).flags, length := FramingFor(r).length,
                       major := Decimal(r.major), minor := Decimal(r.minor), nread := ps.nread + |line| + |rest|);
    var x := Run(b.ps, b.trace, Break(r.end));
    assert BehindHead(x.ps) == x.ps.state by { BehindAgain(b.ps.(upgrade := Upgrades(r), nread := 0)); }
    assert x.trace == tr + HeadReports(r);
  }

  lemma BehindAgain(q: Parser)
    ensures BehindHead(q.(state := BehindHead(q))) == BehindHead(q)
  {
  }

  lemma EndsInUrl(tr: seq<Event>, u: string)
    ensures !EndsIn(tr + [MessageBegin, Data(Url, u)], Field)
  {
  }

  lemma {:induction false} NoTrailer(f: Framing, hs: seq<Header>)
    ensures ApplyAll(f, hs).flags.trailing == f.flags.trailing
    decreases |hs|
  {
    if hs != [] {
      assert Apply(f, hs[0]).flags.trailing == f.flags.trailing by { hide LowerAll, Says, LengthIn; }
      hide Apply;
      NoTrailer(Apply(f, hs[0]), hs[1..]);
    }
  }
}
