/** `http_parser_parse_url` and `http_parse_host`: which URLs are accepted, and how they are taken apart. */
module HttpUrl {
  import opened HttpTypes
  import opened Wrappers

  // ----- URLs

  datatype Authority = Authority(at: bool, userinfo: string, v6: bool, host: string, hasPort: bool, port: string)

  /** `hashes`: any number of '#' before the first other character of the fragment are skipped. */
  datatype Tail = Tail(path: string, hasQuery: bool, query: string, hashes: nat, fragment: string)

  /** `authority` is absent from "/path" and "*"; `schema` is empty there and in CONNECT requests. */
  datatype UrlParts = UrlParts(schema: string, authority: Option<Authority>, tail: Tail)

  predicate All(s: string, p: char -> bool) { forall i :: 0 <= i < |s| ==> p(s[i]) }

  predicate IsHostChar(c: char) { IsAlphaNum(c) || c == '.' || c == '-' }

  predicate IsV6Char(c: char) { IsHex(c) || c == ':' || c == '.' }

  predicate IsQueryChar(c: char) { IsUrlChar(c) || c == '?' }

  predicate IsFragmentChar(c: char) { IsQueryChar(c) || c == '#' }

  function Hashes(n: nat): (s: string)
    ensures |s| == n
  {
    if n == 0 then "" else Hashes(n - 1) + "#"
  }

  function HostText(a: Authority): string {
    (if a.at then a.userinfo + "@" else "") + if a.v6 then "[" + a.host + "]" else a.host
  }

  function AuthorityText(a: Authority): string {
    if a.hasPort then HostText(a) + ":" + a.port else HostText(a)
  }

  function PathText(t: Tail): string {
    if t.hasQuery then t.path + "?" + t.query else t.path
  }

  function TailText(t: Tail): string {
    if t.hashes > 0 then PathText(t) + Hashes(t.hashes) + t.fragment else PathText(t)
  }

  /** A URL, put together. */
  function UrlText(u: UrlParts): string {
    (if u.schema != "" then u.schema + "://" else "")
    + (if u.authority.Some? then AuthorityText(u.authority.value) else "")
    + TailText(u.tail)
  }

  predicate LegalAuthority(a: Authority) {
    && All(a.userinfo, IsUserinfoChar) && (a.at || a.userinfo == "")
    && a.host != "" && All(a.host, if a.v6 then IsV6Char else IsHostChar)
    && All(a.port, IsNum) && (a.hasPort <==> a.port != "")
  }

  predicate LegalTail(t: Tail) {
    && (t.path != "" ==> All(t.path[1..], IsUrlChar))
    && All(t.query, IsQueryChar) && (t.hasQuery || t.query == "")
    && All(t.fragment, IsFragmentChar) && (t.fragment != "" ==> t.hashes > 0 && t.fragment[0] != '#')
    && (t.hashes > 0 ==> t.path != "" || t.hasQuery)
  }

  const NO_TAIL := Tail("", false, "", 0, "")

  predicate LegalUrl(u: UrlParts, isConnect: bool) {
    && All(u.schema, IsAlpha) && LegalTail(u.tail) && (u.authority.Some? ==> LegalAuthority(u.authority.value))
    && if isConnect then
         && u.schema == "" && u.authority.Some? && u.authority.value.userinfo == "" && u.authority.value.hasPort
         && u.tail.path == "" && u.tail.query == "" && u.tail.fragment == ""
       else if u.authority.Some? then
         u.schema != "" && (u.tail.path != "" ==> u.tail.path[0] == '/')
       else
         u.schema == "" && (u.tail.path != "" ==> u.tail.path[0] in "/*") && (u.tail.path == "" ==> u.tail == NO_TAIL)
  }

  // ----- the first automaton, with what it has read

  /** `slashes`: how much of "://" has been read. */
  datatype Head = Head(schema: string, slashes: nat, host: string)

  datatype Scan = Scan(state: State, head: Head, tail: Tail)

  const NO_HEAD := Head("", 0, "")

  function ScanStart(isConnect: bool): Scan {
    Scan(if isConnect then ReqServerStart else ReqSpacesBeforeUrl, NO_HEAD, NO_TAIL)
  }

  /** Where a character goes, by the state it leads to. */
  function NextHead(h: Head, s: State, ch: char): Head {
    match s
    case ReqSchema => h.(schema := h.schema + [ch])
    case ReqSchemaSlash => h.(slashes := h.slashes + 1)
    case ReqSchemaSlashSlash => h.(slashes := h.slashes + 1)
    case ReqServerStart => h.(slashes := h.slashes + 1)
    case ReqServer => h.(host := h.host + [ch])
    case ReqServerWithAt => h.(host := h.host + [ch])
    case _ => h
  }

  function NextTail(t: Tail, s: State, ch: char): Tail {
    match s
    case ReqPath => t.(path := t.path + [ch])
    case ReqQueryStringStart => t.(hasQuery := true)
    case ReqQueryString => t.(query := t.query + [ch])
    case ReqFragmentStart => t.(hashes := t.hashes + 1)
    case ReqFragment => t.(fragment := t.fragment + [ch])
    case _ => t
  }

  function ScanStep(a: Scan, ch: char): Scan {
    var s := ParseUrlChar(a.state, ch);
    Scan(s, NextHead(a.head, s, ch), NextTail(a.tail, s, ch))
  }

  function ScanRun(s: string, isConnect: bool): Scan
    decreases |s|
  {
    if s == "" then ScanStart(isConnect) else ScanStep(ScanRun(s[..|s| - 1], isConnect), s[|s| - 1])
  }

  function HeadText(h: Head): string {
    (if h.slashes <= 3 then h.schema + "://"[..h.slashes] else "") + h.host
  }

  function ScanText(a: Scan): string {
    HeadText(a.head) + TailText(a.tail)
  }

  predicate IsServerChar(c: char) { IsUserinfoChar(c) || c == '[' || c == ']' || c == '@' }

  /** No two '@' in a row. */
  predicate AtsApart(s: string) { forall i :: 0 < i < |s| ==> s[i - 1] != '@' || s[i] != '@' }

  predicate LegalHead(h: Head, isConnect: bool) {
    && All(h.schema, IsAlpha) && All(h.host, IsServerChar) && AtsApart(h.host)
    && h.slashes <= 3 && (h.slashes > 0 ==> h.schema != "") && (isConnect ==> h.schema == "")
    && (h.host != "" ==> h.slashes == 3 || isConnect)
  }

  /** The state follows from what was read last. */
  function HeadState(h: Head, isConnect: bool): State {
    if h.host != "" then if h.host[|h.host| - 1] == '@' then ReqServerWithAt else ReqServer
    else if h.slashes == 3 || isConnect then ReqServerStart
    else if h.slashes == 2 then ReqSchemaSlashSlash
    else if h.slashes == 1 then ReqSchemaSlash
    else if h.schema != "" then ReqSchema
    else ReqSpacesBeforeUrl
  }

  function TailState(t: Tail): State {
    if t.fragment != "" then ReqFragment
    else if t.hashes > 0 then ReqFragmentStart
    else if t.query != "" then ReqQueryString
    else if t.hasQuery then ReqQueryStringStart
    else ReqPath
  }

  /** The head may be followed by this tail. */
  predicate Fits(s: State, t: Tail) {
    && (s.ReqSpacesBeforeUrl? || s.ReqServerStart? || s.ReqServer? || s.ReqServerWithAt?)
    && (if t.path != "" then t.path[0] == '/' || (t.path[0] == '*' && s.ReqSpacesBeforeUrl?)
        else !s.ReqSpacesBeforeUrl?)
  }

  predicate Good(a: Scan, isConnect: bool) {
    var s := HeadState(a.head, isConnect);
    && LegalHead(a.head, isConnect) && LegalTail(a.tail)
    && if a.tail == NO_TAIL then a.state == s else a.state == TailState(a.tail) && Fits(s, a.tail)
  }

  predicate InTail(s: State) {
    s.ReqPath? || s.ReqQueryStringStart? || s.ReqQueryString? || s.ReqFragmentStart? || s.ReqFragment?
  }

  // ----- nothing that is read gets lost

  lemma AllSnoc(s: string, c: char, p: char -> bool)
    requires All(s, p) && p(c)
    ensures All(s + [c], p)
  {
  }

  /** One more character of the tail, read from a tail or, if there is none yet, from a head. */
  lemma TailStepLegal(t: Tail, s: State, ch: char)
    requires LegalTail(t) && (if t == NO_TAIL then !InTail(s) else s == TailState(t))
    requires InTail(ParseUrlChar(s, ch))
    ensures var u := NextTail(t, ParseUrlChar(s, ch), ch);
      && LegalTail(u) && u != NO_TAIL && TailState(u) == ParseUrlChar(s, ch)
      && (t == NO_TAIL ==> Fits(s, u)) && (t != NO_TAIL ==> forall h :: Fits(h, t) ==> Fits(h, u))
  {
    var u := NextTail(t, ParseUrlChar(s, ch), ch);
    if u.path != t.path && t.path != "" {
      AllSnoc(t.path[1..], ch, IsUrlChar);
      assert u.path[1..] == t.path[1..] + [ch];
    } else if u.query != t.query {
      AllSnoc(t.query, ch, IsQueryChar);
    } else if u.fragment != t.fragment {
      AllSnoc(t.fragment, ch, IsFragmentChar);
    }
    hide All;
  }

  lemma TailStepText(t: Tail, s: State, ch: char)
    requires LegalTail(t) && (if t == NO_TAIL then !InTail(s) else s == TailState(t))
    requires InTail(ParseUrlChar(s, ch))
    ensures TailText(NextTail(t, ParseUrlChar(s, ch), ch)) == TailText(t) + [ch]
  {
    TailGrows(t, s, ch);
    hide *;
    var u := NextTail(t, ParseUrlChar(s, ch), ch);
    if t.hashes > 0 {
      FragmentText(t, ch);
    } else {
      QueryText(t, ch);
    }
    if u == t.(hashes := t.hashes + 1) {
      HashText(t);
    }
  }

  /** Which piece a character goes to. */
  lemma TailGrows(t: Tail, s: State, ch: char)
    requires LegalTail(t) && (if t == NO_TAIL then !InTail(s) else s == TailState(t))
    requires InTail(ParseUrlChar(s, ch))
    ensures var u := NextTail(t, ParseUrlChar(s, ch), ch);
      || (u == t.(fragment := t.fragment + [ch]) && t.hashes > 0)
      || (u == t.(hashes := t.hashes + 1) && t.fragment == "" && ch == '#')
      || (u == t.(query := t.query + [ch]) && t.hasQuery && t.hashes == 0)
      || (u == t.(hasQuery := true) && !t.hasQuery && t.query == "" && t.hashes == 0 && ch == '?')
      || (u == t.(path := t.path + [ch]) && !t.hasQuery && t.hashes == 0)
  {
    hide All;
  }

  lemma FragmentText(t: Tail, ch: char)
    requires t.hashes > 0
    ensures TailText(t.(fragment := t.fragment + [ch])) == TailText(t) + [ch]
  {
    var p := PathText(t) + Hashes(t.hashes);
    assert p + (t.fragment + [ch]) == p + t.fragment + [ch];
  }

  lemma QueryText(t: Tail, ch: char)
    requires t.hashes == 0
    ensures t.hasQuery ==> TailText(t.(query := t.query + [ch])) == TailText(t) + [ch]
    ensures !t.hasQuery && t.query == "" ==> TailText(t.(hasQuery := true)) == TailText(t) + "?"
    ensures !t.hasQuery ==> TailText(t.(path := t.path + [ch])) == TailText(t) + [ch]
  {
    assert t.path + "?" + (t.query + [ch]) == t.path + "?" + t.query + [ch];
    assert t.path + "?" + "" == t.path + "?";
  }

  lemma HashText(t: Tail)
    requires t.fragment == ""
    ensures TailText(t.(hashes := t.hashes + 1)) == TailText(t) + "#"
  {
    var p := PathText(t);
    assert p + (Hashes(t.hashes) + "#") + "" == p + Hashes(t.hashes) + "#";
    if t.hashes > 0 {
      assert TailText(t) == p + Hashes(t.hashes);
    } else {
      assert TailText(t) == p + Hashes(0);
    }
  }

  lemma HeadStepLegal(h: Head, isConnect: bool, ch: char)
    requires LegalHead(h, isConnect)
    requires var s := ParseUrlChar(HeadState(h, isConnect), ch); !InTail(s) && !s.Dead?
    ensures var s := ParseUrlChar(HeadState(h, isConnect), ch);
      LegalHead(NextHead(h, s, ch), isConnect) && HeadState(NextHead(h, s, ch), isConnect) == s
  {
    var g := NextHead(h, ParseUrlChar(HeadState(h, isConnect), ch), ch);
    if g.schema != h.schema {
      AllSnoc(h.schema, ch, IsAlpha);
    } else if g.host != h.host {
      AllSnoc(h.host, ch, IsServerChar);
      AtsSnoc(h.host, ch);
    }
    hide All, AtsApart;
  }

  lemma AtsSnoc(s: string, c: char)
    requires AtsApart(s) && (s != "" && s[|s| - 1] == '@' ==> c != '@')
    ensures AtsApart(s + [c])
  {
  }

  lemma HeadStepText(h: Head, isConnect: bool, ch: char)
    requires LegalHead(h, isConnect)
    requires var s := ParseUrlChar(HeadState(h, isConnect), ch); !InTail(s) && !s.Dead?
    ensures HeadText(NextHead(h, ParseUrlChar(HeadState(h, isConnect), ch), ch)) == HeadText(h) + [ch]
  {
    hide All, AtsApart;
    var g := NextHead(h, ParseUrlChar(HeadState(h, isConnect), ch), ch);
    if g.host != h.host {
      assert h.schema + "://"[..h.slashes] + g.host == HeadText(h) + [ch];
    } else {
      assert h.host == "";
      assert g.slashes != h.slashes ==> "://"[..g.slashes] == "://"[..h.slashes] + [ch];
      assert g.slashes != h.slashes ==> h.schema + "://"[..g.slashes] == h.schema + "://"[..h.slashes] + [ch];
      assert HeadText(h) == h.schema + "://"[..h.slashes];
      assert h.slashes == 0 ==> "://"[..h.slashes] == "";
    }
  }

  /** Reading keeps everything that was read. */
  lemma ScanStepKeeps(a: Scan, ch: char, isConnect: bool)
    requires Good(a, isConnect) && !ScanStep(a, ch).state.Dead?
    ensures Good(ScanStep(a, ch), isConnect) && ScanText(ScanStep(a, ch)) == ScanText(a) + [ch]
  {
    hide LegalHead, LegalTail, HeadText, TailText;
    var s := ParseUrlChar(a.state, ch);
    if InTail(s) {
      TailStepLegal(a.tail, a.state, ch);
      TailStepText(a.tail, a.state, ch);
    } else {
      HeadStepLegal(a.head, isConnect, ch);
      HeadStepText(a.head, isConnect, ch);
      NoTailText();
    }
  }

  lemma NoTailText()
    ensures TailText(NO_TAIL) == ""
  {
  }

  lemma {:induction false} ScanRunKeeps(s: string, isConnect: bool)
    requires !ScanRun(s, isConnect).state.Dead?
    ensures Good(ScanRun(s, isConnect), isConnect) && ScanText(ScanRun(s, isConnect)) == s
    decreases |s|
  {
    hide Good, ScanText, ScanStep;
    if s == "" {
      StartIsGood(isConnect);
    } else {
      var t, c := s[..|s| - 1], s[|s| - 1];
      DeadStays(ScanRun(t, isConnect), c);
      ScanRunKeeps(t, isConnect);
      ScanStepKeeps(ScanRun(t, isConnect), c, isConnect);
      assert s == t + [c];
    }
  }

  lemma StartIsGood(isConnect: bool)
    ensures Good(ScanStart(isConnect), isConnect) && ScanText(ScanStart(isConnect)) == ""
  {
  }

  lemma DeadStays(a: Scan, ch: char)
    ensures a.state.Dead? ==> ScanStep(a, ch).state.Dead?
  {
  }

  // ----- every combination of legal pieces is read

  lemma AllInit(s: string, p: char -> bool)
    requires s != "" && All(s, p)
    ensures All(s[..|s| - 1], p) && p(s[|s| - 1])
  {
  }

  /** The tail without its last character, and that character. */
  function TailInit(u: Tail): (Tail, char)
    requires u != NO_TAIL
  {
    if u.fragment != "" then (u.(fragment := u.fragment[..|u.fragment| - 1]), u.fragment[|u.fragment| - 1])
    else if u.hashes > 0 then (u.(hashes := u.hashes - 1), '#')
    else if u.query != "" then (u.(query := u.query[..|u.query| - 1]), u.query[|u.query| - 1])
    else if u.hasQuery then (u.(hasQuery := false), '?')
    else (u.(path := u.path[..|u.path| - 1]), u.path[|u.path| - 1])
  }

  /** The step that read the last character of a tail can be taken back. */
  predicate StepsBack(u: Tail, h: State)
    requires u != NO_TAIL
  {
    var (t, ch) := TailInit(u);
    var s := if t == NO_TAIL then h else TailState(t);
    && LegalTail(t) && (t != NO_TAIL ==> Fits(h, t))
    && InTail(ParseUrlChar(s, ch)) && NextTail(t, ParseUrlChar(s, ch), ch) == u
  }

  lemma TailStepBack(u: Tail, h: State)
    requires LegalTail(u) && u != NO_TAIL && Fits(h, u)
    ensures StepsBack(u, h)
  {
    hide StepsBack, All, Fits;
    if u.fragment != "" || u.hashes > 0 {
      FragmentStepBack(u, h);
    } else if u.hasQuery {
      QueryStepBack(u, h);
    } else {
      assert u == NO_TAIL.(path := u.path);
      PathStepBack(u, h);
    }
  }

  lemma FragmentStepBack(u: Tail, h: State)
    requires LegalTail(u) && Fits(h, u) && (u.fragment != "" || u.hashes > 0)
    ensures StepsBack(u, h)
  {
    if u.fragment != "" {
      AllInit(u.fragment, IsFragmentChar);
    }
    hide All;
  }

  lemma QueryStepBack(u: Tail, h: State)
    requires LegalTail(u) && Fits(h, u) && u.fragment == "" && u.hashes == 0 && u.hasQuery
    ensures StepsBack(u, h)
  {
    if u.query != "" {
      AllInit(u.query, IsQueryChar);
    }
    hide All;
  }

  lemma PathStepBack(u: Tail, h: State)
    requires LegalTail(u) && Fits(h, u) && u != NO_TAIL && u == NO_TAIL.(path := u.path)
    ensures StepsBack(u, h)
  {
    var path := u.path;
    if |path| > 1 {
      AllInit(path[1..], IsUrlChar);
      assert path[..|path| - 1][1..] == path[1..][..|path| - 2];
    }
    hide All;
  }

  function HeadInit(g: Head): (Head, char)
    requires g != NO_HEAD
  {
    if g.host != "" then (g.(host := g.host[..|g.host| - 1]), g.host[|g.host| - 1])
    else if g.slashes > 0 then (g.(slashes := g.slashes - 1), if g.slashes == 1 then ':' else '/')
    else (g.(schema := g.schema[..|g.schema| - 1]), g.schema[|g.schema| - 1])
  }

  lemma HeadStepBack(g: Head, isConnect: bool)
    requires LegalHead(g, isConnect) && g != NO_HEAD
    ensures var (h, ch) := HeadInit(g);
      var s := ParseUrlChar(HeadState(h, isConnect), ch);
      LegalHead(h, isConnect) && !InTail(s) && !s.Dead? && NextHead(h, s, ch) == g
  {
    if g.host != "" {
      AllInit(g.host, IsServerChar);
    } else if g.slashes == 0 {
      AllInit(g.schema, IsAlpha);
    }
    hide All;
  }

  lemma {:induction false} ScanIsComplete(a: Scan, isConnect: bool)
    requires Good(a, isConnect)
    ensures ScanRun(ScanText(a), isConnect) == a
    decreases |ScanText(a)|, 1
  {
    hide LegalHead, LegalTail, HeadText, TailText, ParseUrlChar, NextHead, NextTail, TailState, InTail;
    if a.tail != NO_TAIL {
      TailStepBack(a.tail, HeadState(a.head, isConnect));
      var (t, ch) := TailInit(a.tail);
      var b := Scan(if t == NO_TAIL then HeadState(a.head, isConnect) else TailState(t), a.head, t);
      HeadIsNoTail(a.head, isConnect);
      TailStepLegal(t, b.state, ch);
      TailStepText(t, b.state, ch);
      HeadUnchanged(a.head, ParseUrlChar(b.state, ch), ch);
      ScanExtends(a, b, ch, isConnect);
    } else if a.head != NO_HEAD {
      HeadStepBack(a.head, isConnect);
      var (h, ch) := HeadInit(a.head);
      var b := Scan(HeadState(h, isConnect), h, NO_TAIL);
      HeadStepText(h, isConnect, ch);
      HeadStepLegal(h, isConnect, ch);
      NoTailText();
      TailUnchanged(ParseUrlChar(b.state, ch), ch);
      ScanExtends(a, b, ch, isConnect);
    } else {
      StartIsGood(isConnect);
    }
  }

  lemma HeadIsNoTail(h: Head, isConnect: bool)
    ensures !InTail(HeadState(h, isConnect))
  {
  }

  lemma HeadUnchanged(h: Head, s: State, ch: char)
    requires InTail(s)
    ensures NextHead(h, s, ch) == h
  {
  }

  lemma TailUnchanged(s: State, ch: char)
    requires !InTail(s)
    ensures NextTail(NO_TAIL, s, ch) == NO_TAIL
  {
  }

  lemma ScanExtends(a: Scan, b: Scan, ch: char, isConnect: bool)
    requires Good(b, isConnect) && ScanStep(b, ch) == a && ScanText(a) == ScanText(b) + [ch]
    ensures ScanRun(ScanText(a), isConnect) == a
    decreases |ScanText(a)|, 0
  {
    hide Good, ScanStep, ScanText;
    ScanIsComplete(b, isConnect);
    var s := ScanText(a);
    assert s[..|s| - 1] == ScanText(b) && s[|s| - 1] == ch;
  }

  // ----- the second automaton, on the authority

  /** `enum http_host_state`. */
  datatype HostState =
    | HostDead | UserinfoStart | Userinfo | HostStart | HostV6Start | Host | HostV6 | HostV6End | PortStart | Port

  /** `http_parse_host_char`. */
  function ParseHostChar(s: HostState, ch: char): HostState {
    match s
    case UserinfoStart => if ch == '@' then HostStart else if IsUserinfoChar(ch) then Userinfo else HostDead
    case Userinfo => if ch == '@' then HostStart else if IsUserinfoChar(ch) then Userinfo else HostDead
    case HostStart => if ch == '[' then HostV6Start else if IsHostChar(ch) then Host else HostDead
    case Host => if IsHostChar(ch) then Host else if ch == ':' then PortStart else HostDead
    case HostV6End => if ch == ':' then PortStart else HostDead
    case HostV6 => if ch == ']' then HostV6End else if IsV6Char(ch) then HostV6 else HostDead
    case HostV6Start => if IsV6Char(ch) then HostV6 else HostDead
    case PortStart => if IsNum(ch) then Port else HostDead
    case Port => if IsNum(ch) then Port else HostDead
    case HostDead => HostDead
  }

  /** What has been read; `closed`: also the closing bracket. */
  datatype HostScan = HostScan(state: HostState, a: Authority, closed: bool)

  const NO_AUTHORITY := Authority(false, "", false, "", false, "")

  function HostStartState(found: bool): HostScan {
    HostScan(if found then UserinfoStart else HostStart, NO_AUTHORITY, false)
  }

  function HostStep(b: HostScan, ch: char): HostScan {
    var s, a := ParseHostChar(b.state, ch), b.a;
    match s
    case Userinfo => b.(state := s, a := a.(userinfo := a.userinfo + [ch]))
    case HostStart => b.(state := s, a := a.(at := true))
    case HostV6Start => b.(state := s, a := a.(v6 := true))
    case Host => b.(state := s, a := a.(host := a.host + [ch]))
    case HostV6 => b.(state := s, a := a.(host := a.host + [ch]))
    case HostV6End => b.(state := s, closed := true)
    case PortStart => b.(state := s, a := a.(hasPort := true))
    case Port => b.(state := s, a := a.(port := a.port + [ch]))
    case _ => b.(state := s)
  }

  function HostRun(s: string, found: bool): HostScan
    decreases |s|
  {
    if s == "" then HostStartState(found) else HostStep(HostRun(s[..|s| - 1], found), s[|s| - 1])
  }

  /** The authority as far as it has been read. */
  function HostScanText(b: HostScan): string {
    var a := b.a;
    var front := if a.at then a.userinfo + "@" else a.userinfo;
    var host := if a.v6 then if b.closed then front + "[" + a.host + "]" else front + "[" + a.host else front + a.host;
    if a.hasPort then host + ":" + a.port else host
  }

  function HostStateOf(b: HostScan, found: bool): HostState {
    var a := b.a;
    if a.port != "" then Port
    else if a.hasPort then PortStart
    else if b.closed then HostV6End
    else if a.host != "" then if a.v6 then HostV6 else Host
    else if a.v6 then HostV6Start
    else if a.at || !found then HostStart
    else if a.userinfo != "" then Userinfo
    else UserinfoStart
  }

  predicate HostGood(b: HostScan, found: bool) {
    var a := b.a;
    && All(a.userinfo, IsUserinfoChar) && All(a.host, if a.v6 then IsV6Char else IsHostChar) && All(a.port, IsNum)
    && (a.at ==> found) && (!found ==> a.userinfo == "")
    && (a.v6 || a.host != "" ==> a.at || !found)
    && (b.closed ==> a.v6 && a.host != "")
    && (a.hasPort ==> a.host != "" && (a.v6 ==> b.closed)) && (a.port != "" ==> a.hasPort)
    && b.state == HostStateOf(b, found)
  }

  /** "Make sure we don't end somewhere unexpected". */
  predicate HostAccepts(s: HostState) {
    !s.HostStart? && !s.HostV6Start? && !s.HostV6? && !s.PortStart? && !s.Userinfo? && !s.UserinfoStart?
  }

  lemma HostStepGood(b: HostScan, ch: char, found: bool)
    requires HostGood(b, found) && !HostStep(b, ch).state.HostDead?
    ensures HostGood(HostStep(b, ch), found)
  {
    var a, c := b.a, HostStep(b, ch).a;
    if a.userinfo != c.userinfo {
      AllSnoc(a.userinfo, ch, IsUserinfoChar);
    } else if a.host != c.host {
      AllSnoc(a.host, ch, if a.v6 then IsV6Char else IsHostChar);
    } else if a.port != c.port {
      AllSnoc(a.port, ch, IsNum);
    }
    hide All;
  }

  lemma HostStepText(b: HostScan, ch: char, found: bool)
    requires HostGood(b, found) && !HostStep(b, ch).state.HostDead?
    ensures HostScanText(HostStep(b, ch)) == HostScanText(b) + [ch]
  {
    hide All;
    var a, c := b.a, HostStep(b, ch).a;
    if c.port != a.port {
      HostGrows(HostScanText(b.(a := a.(hasPort := false, port := ""))) + ":", a.port, ch);
    } else if c.host != a.host {
      HostGrows((if a.at then a.userinfo + "@" else a.userinfo) + if a.v6 then "[" else "", a.host, ch);
      assert (if a.at then a.userinfo + "@" else a.userinfo) + "" == if a.at then a.userinfo + "@" else a.userinfo;
    }
  }

  lemma HostGrows(s: string, t: string, ch: char)
    ensures s + (t + [ch]) == s + t + [ch]
  {
  }

  lemma {:induction false} HostRunKeeps(s: string, found: bool)
    requires !HostRun(s, found).state.HostDead?
    ensures HostGood(HostRun(s, found), found) && HostScanText(HostRun(s, found)) == s
    decreases |s|
  {
    hide HostGood, HostScanText, HostStep;
    if s == "" {
      HostStartIsGood(found);
    } else {
      var t, c := s[..|s| - 1], s[|s| - 1];
      HostDeadStays(HostRun(t, found), c);
      HostRunKeeps(t, found);
      HostStepGood(HostRun(t, found), c, found);
      HostStepText(HostRun(t, found), c, found);
      assert s == t + [c];
    }
  }

  lemma HostStartIsGood(found: bool)
    ensures HostGood(HostStartState(found), found) && HostScanText(HostStartState(found)) == ""
  {
  }

  lemma HostDeadStays(b: HostScan, ch: char)
    ensures b.state.HostDead? ==> HostStep(b, ch).state.HostDead?
  {
  }

  /** What was read before the last character, and that character. */
  function HostInit(b: HostScan, found: bool): (HostScan, char) {
    var a := b.a;
    var (a', closed, ch) :=
      if a.port != "" then (a.(port := a.port[..|a.port| - 1]), b.closed, a.port[|a.port| - 1])
      else if a.hasPort then (a.(hasPort := false), b.closed, ':')
      else if b.closed then (a, false, ']')
      else if a.host != "" then (a.(host := a.host[..|a.host| - 1]), false, a.host[|a.host| - 1])
      else if a.v6 then (a.(v6 := false), false, '[')
      else if a.at then (a.(at := false), false, '@')
      else if a.userinfo != "" then (a.(userinfo := a.userinfo[..|a.userinfo| - 1]), false, a.userinfo[|a.userinfo| - 1])
      else (a, false, '\0');
    var c := HostScan(HostDead, a', closed);
    (c.(state := HostStateOf(c, found)), ch)
  }

  ghost predicate GoesBack(b: HostScan, found: bool) {
    var (c, ch) := HostInit(b, found);
    HostGood(c, found) && HostStep(c, ch) == b && !b.state.HostDead?
  }

  lemma HostStepBack(b: HostScan, found: bool)
    requires HostGood(b, found) && b != HostStartState(found)
    ensures GoesBack(b, found)
  {
    if b.a.hasPort {
      PortBack(b, found);
    } else if b.closed || b.a.host != "" || b.a.v6 {
      HostBack(b, found);
    } else {
      UserinfoBack(b, found);
    }
  }

  lemma PortBack(b: HostScan, found: bool)
    requires HostGood(b, found) && b.a.hasPort
    ensures GoesBack(b, found)
  {
    if b.a.port != "" {
      AllInit(b.a.port, IsNum);
    }
    hide All, IsHex, IsAlphaNum, IsMark;
  }

  lemma HostBack(b: HostScan, found: bool)
    requires HostGood(b, found) && !b.a.hasPort && (b.closed || b.a.host != "" || b.a.v6)
    ensures GoesBack(b, found)
  {
    if !b.closed && b.a.host != "" {
      AllInit(b.a.host, if b.a.v6 then IsV6Char else IsHostChar);
    }
    hide All, IsHex, IsAlphaNum, IsMark;
  }

  lemma UserinfoBack(b: HostScan, found: bool)
    requires HostGood(b, found) && b != HostStartState(found) && !b.a.hasPort && !b.closed && b.a.host == "" && !b.a.v6
    ensures GoesBack(b, found)
  {
    if !b.a.at && b.a.userinfo != "" {
      AllInit(b.a.userinfo, IsUserinfoChar);
    }
    hide All, IsHex, IsAlphaNum, IsMark;
  }

  lemma {:induction false} HostIsComplete(b: HostScan, found: bool)
    requires HostGood(b, found)
    ensures HostRun(HostScanText(b), found) == b
    decreases |HostScanText(b)|
  {
    hide HostGood, HostScanText, HostStep, HostInit;
    if b == HostStartState(found) {
      HostStartIsGood(found);
    } else {
      HostStepBack(b, found);
      var (c, ch) := HostInit(b, found);
      HostStepText(c, ch, found);
      HostIsComplete(c, found);
      var s := HostScanText(b);
      assert s[..|s| - 1] == HostScanText(c) && s[|s| - 1] == ch;
    }
  }

  // ----- both together

  /** How `http_parser_parse_url` reads a URL, the range of the port aside. */
  function Reading(s: string, isConnect: bool): Option<UrlParts> {
    var a := ScanRun(s, isConnect);
    if a.state.Dead? then None
    else if a.head.schema == "" && a.head.host == "" then
      if isConnect then None else Some(UrlParts("", None, a.tail))
    else
      var b := HostRun(a.head.host, '@' in a.head.host);
      var u := UrlParts(a.head.schema, Some(b.a), a.tail);
      if b.state.HostDead? || !HostAccepts(b.state) || (isConnect && !OnlyHostAndPort(u)) then None else Some(u)
  }

  /** `field_set` is UF_HOST and UF_PORT exactly. Empty fields do not show: "@host:80?" passes. */
  predicate OnlyHostAndPort(u: UrlParts)
    requires u.authority.Some?
  {
    && u.authority.value.userinfo == "" && u.authority.value.hasPort
    && u.tail.path == "" && u.tail.query == "" && u.tail.fragment == ""
  }

  lemma AcceptedHost(b: HostScan, found: bool)
    requires HostGood(b, found) && !b.state.HostDead? && HostAccepts(b.state)
    ensures LegalAuthority(b.a) && HostScanText(b) == AuthorityText(b.a) && b.a.at == found && b.closed == b.a.v6
  {
    hide All;
  }

  lemma LegalHost(a: Authority, b: HostScan)
    requires LegalAuthority(a) && b == HostScan(HostStateOf(HostScan(HostDead, a, a.v6), a.at), a, a.v6)
    ensures HostGood(b, a.at) && HostScanText(b) == AuthorityText(a) && HostAccepts(b.state) && !b.state.HostDead?
  {
    hide All;
  }

  function HeadOf(u: UrlParts): Head {
    Head(u.schema, if u.schema == "" then 0 else 3, if u.authority.Some? then AuthorityText(u.authority.value) else "")
  }

  lemma TextOfParts(u: UrlParts)
    ensures UrlText(u) == HeadText(HeadOf(u)) + TailText(u.tail)
  {
    hide AuthorityText, TailText;
    assert "://"[..3] == "://" && "://"[..0] == "";
    assert u.schema == "" ==> u.schema + "://"[..0] == "";
  }

  /** Whatever is accepted is a legal URL, taken apart without losing anything. */
  lemma ReadingIsSound(s: string, isConnect: bool)
    requires Reading(s, isConnect).Some?
    ensures LegalUrl(Reading(s, isConnect).value, isConnect) && UrlText(Reading(s, isConnect).value) == s
  {
    var a, u := ScanRun(s, isConnect), Reading(s, isConnect).value;
    ScanRunKeeps(s, isConnect);
    TextOfParts(u);
    if a.head.schema != "" || a.head.host != "" {
      var host := a.head.host;
      HostRunKeeps(host, '@' in host);
      AcceptedHost(HostRun(host, '@' in host), '@' in host);
      AuthorityNotEmpty(u.authority.value);
    }
    hide All, AtsApart, HostGood, HostRun, ScanRun, IsHex, IsAlphaNum, HostScanText, ScanText, AuthorityText, TailText, UrlText, LegalTail, LegalAuthority, HeadText;
    assert a.head == HeadOf(u);
  }

  lemma AuthorityNotEmpty(a: Authority)
    requires LegalAuthority(a)
    ensures AuthorityText(a) != ""
  {
    hide All;
  }

  // ----- every legal URL is accepted

  lemma AllMore(s: string, p: char -> bool, q: char -> bool)
    requires All(s, p) && forall c :: p(c) ==> q(c)
    ensures All(s, q)
  {
  }

  predicate NoAt(c: char) { IsServerChar(c) && c != '@' }

  /** What follows the userinfo. */
  function RestText(a: Authority): string {
    (if a.v6 then "[" + a.host + "]" else a.host) + if a.hasPort then ":" + a.port else ""
  }

  lemma AuthorityHasOneAt(a: Authority)
    requires LegalAuthority(a)
    ensures AuthorityText(a) == (if a.at then a.userinfo + "@" else "") + RestText(a)
    ensures All(a.userinfo, NoAt) && All(RestText(a), NoAt)
  {
    var host := if a.v6 then "[" + a.host + "]" else a.host;
    var front := if a.at then a.userinfo + "@" else "";
    assert front + host + ":" + a.port == front + (host + (":" + a.port));
    assert host + "" == host;
    AllMore(a.userinfo, IsUserinfoChar, NoAt);
    AllMore(a.port, IsNum, NoAt);
    if a.v6 {
      AllMore(a.host, IsV6Char, NoAt);
    } else {
      AllMore(a.host, IsHostChar, NoAt);
    }
  }

  lemma AuthorityIsRead(a: Authority)
    requires LegalAuthority(a)
    ensures var s := AuthorityText(a); All(s, IsServerChar) && AtsApart(s) && ('@' in s <==> a.at)
  {
    AuthorityHasOneAt(a);
    var s, r := AuthorityText(a), RestText(a);
    hide LegalAuthority, AuthorityText, RestText;
    AllMore(a.userinfo, NoAt, IsServerChar);
    AllMore(r, NoAt, IsServerChar);
    if a.at {
      assert s[|a.userinfo|] == '@';
      assert forall i :: 0 <= i < |a.userinfo| ==> s[i] == a.userinfo[i];
      assert forall i :: |a.userinfo| < i < |s| ==> s[i] == r[i - |a.userinfo| - 1];
    } else {
      assert s == r;
    }
  }

  lemma ReadingIsComplete(u: UrlParts, isConnect: bool)
    requires LegalUrl(u, isConnect)
    ensures Reading(UrlText(u), isConnect) == Some(u)
  {
    var h := HeadOf(u);
    var a := Scan(if u.tail == NO_TAIL then HeadState(h, isConnect) else TailState(u.tail), h, u.tail);
    TextOfParts(u);
    if u.authority.Some? {
      AuthorityIsRead(u.authority.value);
      AuthorityNotEmpty(u.authority.value);
      var b := HostScan(HostDead, u.authority.value, u.authority.value.v6);
      var c := b.(state := HostStateOf(b, u.authority.value.at));
      LegalHost(u.authority.value, c);
      HostIsComplete(c, u.authority.value.at);
    }
    LegalScan(u, a, isConnect);
    ScanIsComplete(a, isConnect);
    hide All, AtsApart, HostGood, HostRun, ScanRun, AuthorityText, TailText, UrlText, LegalTail, LegalAuthority, HeadText;
  }

  lemma LegalScan(u: UrlParts, a: Scan, isConnect: bool)
    requires LegalUrl(u, isConnect) && a.head == HeadOf(u) && a.tail == u.tail
    requires a.state == if u.tail == NO_TAIL then HeadState(a.head, isConnect) else TailState(u.tail)
    requires u.authority.Some? ==> All(a.head.host, IsServerChar) && AtsApart(a.head.host) && a.head.host != ""
    ensures Good(a, isConnect)
  {
    hide AuthorityText, LegalAuthority, LegalTail;
    hide IsAlpha, IsServerChar;
  }

  /** The URLs accepted are exactly the legal ones, and no URL can be taken apart in two ways. */
  lemma LegalUrlsAreAccepted(s: string, isConnect: bool)
    ensures Reading(s, isConnect).Some? <==> exists u :: LegalUrl(u, isConnect) && UrlText(u) == s
    ensures forall u :: LegalUrl(u, isConnect) && UrlText(u) == s ==> Reading(s, isConnect) == Some(u)
  {
    hide LegalUrl, UrlText, Reading;
    if Reading(s, isConnect).Some? {
      ReadingIsSound(s, isConnect);
    }
    forall u | LegalUrl(u, isConnect) && UrlText(u) == s ensures Reading(s, isConnect) == Some(u) {
      ReadingIsComplete(u, isConnect);
    }
  }

  // ----- CONNECT targets

  /** "hostname:port", with brackets around an IPv6 address. */
  function HostAndPort(a: Authority): string {
    (if a.v6 then "[" + a.host + "]" else a.host) + ":" + a.port
  }

  predicate NoMarks(s: string) { '@' !in s && '?' !in s && '#' !in s }

  /** Around host and port only empty pieces are left: of each at most the character that announces it. */
  lemma ConnectText(u: UrlParts)
    requires LegalUrl(u, true)
    ensures var a, t := u.authority.value, u.tail;
      UrlText(u) == (if a.at then "@" else "") + HostAndPort(a) + (if t.hasQuery then "?" else "") + Hashes(t.hashes)
  {
    ConnectParts(u);
    hide *;
    var a, t := u.authority.value, u.tail;
    AroundHost(a);
    AroundPort(t);
    Regroup(if a.at then "@" else "", HostAndPort(a), if t.hasQuery then "?" else "", Hashes(t.hashes));
  }

  lemma Regroup(a: string, b: string, c: string, d: string)
    ensures (a + b) + (c + d) == a + b + c + d
  {
  }

  lemma ConnectParts(u: UrlParts)
    requires LegalUrl(u, true)
    ensures UrlText(u) == AuthorityText(u.authority.value) + TailText(u.tail)
    ensures u.authority.value.userinfo == "" && u.authority.value.hasPort
    ensures u.tail.path == "" && u.tail.query == "" && u.tail.fragment == ""
  {
    hide LegalAuthority, LegalTail, AuthorityText, TailText, All;
  }

  lemma AroundHost(a: Authority)
    requires a.userinfo == "" && a.hasPort
    ensures AuthorityText(a) == (if a.at then "@" else "") + HostAndPort(a)
  {
    var h := if a.v6 then "[" + a.host + "]" else a.host;
    assert "" + "@" == "@" && "" + h == h;
    assert "@" + h + ":" + a.port == "@" + (h + ":" + a.port);
  }

  lemma AroundPort(t: Tail)
    requires t.path == "" && t.query == "" && t.fragment == ""
    ensures TailText(t) == (if t.hasQuery then "?" else "") + Hashes(t.hashes)
  {
    var p := if t.hasQuery then "?" else "";
    assert "" + "?" + "" == "?" && p + Hashes(t.hashes) + "" == p + Hashes(t.hashes);
    assert t.hashes == 0 ==> Hashes(t.hashes) == "" && p + "" == p;
  }

  lemma HostAndPortHasNoMarks(a: Authority)
    requires LegalAuthority(a)
    ensures NoMarks(HostAndPort(a))
  {
    hide IsHex, IsAlphaNum;
    forall c | c in a.host ensures c != '@' && c != '?' && c != '#' {
      HostHasNoMarks(c);
    }
  }

  lemma HostHasNoMarks(c: char)
    ensures IsV6Char(c) || IsHostChar(c) ==> c != '@' && c != '?' && c != '#'
  {
  }

  /** An accepted CONNECT target is "hostname:port" and nothing else exactly when it has no '@', '?' and '#'. */
  lemma ConnectIsHostAndPort(s: string)
    requires Reading(s, true).Some?
    ensures Reading(s, true).value.authority.Some?
    ensures s == HostAndPort(Reading(s, true).value.authority.value) <==> NoMarks(s)
  {
    ReadingIsSound(s, true);
    var u := Reading(s, true).value;
    var a, t := u.authority.value, u.tail;
    ConnectText(u);
    HostAndPortHasNoMarks(a);
    hide *;
    var front, middle, back := if a.at then "@" else "", HostAndPort(a), if t.hasQuery then "?" else "";
    if front == "" && back == "" && t.hashes == 0 {
      NothingAround(middle);
    } else {
      MarksShow(front, middle, back, t.hashes);
    }
  }

  lemma NothingAround(middle: string)
    ensures "" + middle + "" + Hashes(0) == middle
  {
  }

  lemma MarksShow(front: string, middle: string, back: string, n: nat)
    requires (front == "" || front == "@") && (back == "" || back == "?")
    requires front != "" || back != "" || n > 0
    ensures !NoMarks(front + middle + back + Hashes(n))
  {
    var s := front + middle + back + Hashes(n);
    if front != "" {
      assert s[0] == '@';
    } else if back != "" {
      assert s[|middle|] == '?';
    } else {
      assert s[|s| - 1] == Hashes(n)[n - 1] == '#';
    }
  }

  /** Not all are: this one has an empty userinfo and an empty query. */
  lemma ConnectAcceptsMore()
    ensures Reading("@host:80?", true).Some?
  {
    var u := UrlParts("", Some(Authority(true, "", false, "host", true, "80")), Tail("", true, "", 0, ""));
    assert UrlText(u) == "@host:80?";
    ReadingIsComplete(u, true);
  }
}
