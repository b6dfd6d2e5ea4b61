/** `struct http_parser_url` and the two loops that fill it. */
module HttpUrlParser {
  import opened HttpTypes
  import opened Wrappers
  import opened HttpNames
  import opened HttpUrl

  datatype Range = Range(off: nat, len: nat)

  datatype UF = SCHEMA | HOST | PORT | PATH | QUERY | FRAGMENT | USERINFO

  // ----- where the pieces are

  function RangeOf(off: nat, s: string): Option<Range> {
    if s == "" then None else Some(Range(off, |s|))
  }

  /** While the first automaton runs, userinfo, host and port are one piece. */
  function ScanRange(a: Scan, f: UF): Option<Range> {
    var base := |a.head.schema| + a.head.slashes;
    match f
    case SCHEMA => RangeOf(0, a.head.schema)
    case HOST => RangeOf(base, a.head.host)
    case PATH => RangeOf(base + |a.head.host|, a.tail.path)
    case QUERY => RangeOf(base + |a.head.host| + |a.tail.path| + 1, a.tail.query)
    case FRAGMENT => RangeOf(|HeadText(a.head)| + |PathText(a.tail)| + a.tail.hashes, a.tail.fragment)
    case _ => None
  }

  /** The piece that was extended last. */
  function Current(a: Scan): Option<UF> {
    if a.tail.fragment != "" then Some(FRAGMENT)
    else if a.tail.query != "" then Some(QUERY)
    else if a.tail.path != "" then Some(PATH)
    else if a.head.host != "" then Some(HOST)
    else if a.head.schema != "" then Some(SCHEMA)
    else None
  }

  /** The piece a character belongs to; delimiters belong to none. */
  function PieceOf(s: State): Option<UF> {
    match s
    case ReqSchema => Some(SCHEMA)
    case ReqServer => Some(HOST)
    case ReqServerWithAt => Some(HOST)
    case ReqPath => Some(PATH)
    case ReqQueryString => Some(QUERY)
    case ReqFragment => Some(FRAGMENT)
    case _ => None
  }

  /** A field when a character that goes to `s` has been read: prolonged, begun, or left alone. */
  function NextRange(a: Scan, s: State, f: UF): Option<Range> {
    if PieceOf(s) != Some(f) then ScanRange(a, f)
    else if Current(a) == Some(f) && ScanRange(a, f).Some? then
      Some(Range(ScanRange(a, f).value.off, ScanRange(a, f).value.len + 1))
    else Some(Range(|ScanText(a)|, 1))
  }

  /** Positions are counted from the start, so what is read later does not move what was read before. */
  lemma RangeStep(a: Scan, ch: char, isConnect: bool, f: UF)
    requires Good(a, isConnect) && !ScanStep(a, ch).state.Dead?
    ensures ScanRange(ScanStep(a, ch), f) == NextRange(a, ScanStep(a, ch).state, f)
  {
    if InTail(ScanStep(a, ch).state) {
      TailRangeStep(a, ch, isConnect, f);
    } else {
      HeadRangeStep(a, ch, isConnect, f);
    }
  }

  lemma TailRangeStep(a: Scan, ch: char, isConnect: bool, f: UF)
    requires Good(a, isConnect) && InTail(ScanStep(a, ch).state)
    ensures ScanRange(ScanStep(a, ch), f) == NextRange(a, ScanStep(a, ch).state, f)
  {
    hide All, AtsApart;
    assert ScanStep(a, ch).head == a.head;
  }

  lemma HeadRangeStep(a: Scan, ch: char, isConnect: bool, f: UF)
    requires Good(a, isConnect) && !ScanStep(a, ch).state.Dead? && !InTail(ScanStep(a, ch).state)
    ensures ScanRange(ScanStep(a, ch), f) == NextRange(a, ScanStep(a, ch).state, f)
  {
    hide All, AtsApart;
    assert ScanStep(a, ch).tail == a.tail == NO_TAIL;
    assert TailText(NO_TAIL) == "";
  }

  lemma CurrentStep(a: Scan, ch: char, isConnect: bool)
    requires Good(a, isConnect) && !ScanStep(a, ch).state.Dead?
    ensures var b := ScanStep(a, ch);
      Current(b) == if PieceOf(b.state).None? then Current(a) else PieceOf(b.state)
    ensures Current(a).Some? ==> ScanRange(a, Current(a).value).Some?
  {
    hide All, AtsApart;
  }

  /** The pieces of an authority that starts at `base`. */
  function HostRange(b: HostScan, base: nat, f: UF): Option<Range> {
    var a := b.a;
    var front := base + (if a.at then |a.userinfo| + 1 else 0) + (if a.v6 then 1 else 0);
    match f
    case USERINFO => RangeOf(base, a.userinfo)
    case HOST => RangeOf(front, a.host)
    case PORT => RangeOf(front + |a.host| + (if b.closed then 2 else 1), a.port)
    case _ => None
  }

  function HostPieceOf(s: HostState): Option<UF> {
    match s
    case Userinfo => Some(USERINFO)
    case Host => Some(HOST)
    case HostV6 => Some(HOST)
    case Port => Some(PORT)
    case _ => None
  }

  /** A piece is extended when the state stays the same, and starts otherwise. */
  lemma HostRangeStep(b: HostScan, base: nat, ch: char, found: bool, f: UF)
    requires HostGood(b, found) && !HostStep(b, ch).state.HostDead?
    ensures var c := HostStep(b, ch);
      HostRange(c, base, f) ==
        if HostPieceOf(c.state) != Some(f) then HostRange(b, base, f)
        else if c.state == b.state && HostRange(b, base, f).Some? then
          Some(Range(HostRange(b, base, f).value.off, HostRange(b, base, f).value.len + 1))
        else Some(Range(base + |HostScanText(b)|, 1))
    ensures var c := HostStep(b, ch);
      HostPieceOf(c.state) == Some(f) ==> (c.state == b.state <==> HostRange(b, base, f).Some?)
  {
    hide All;
  }

  // ----- the result

  function Piece(u: UrlParts, f: UF): string {
    match f
    case SCHEMA => u.schema
    case USERINFO => if u.authority.Some? then u.authority.value.userinfo else ""
    case HOST => if u.authority.Some? then u.authority.value.host else ""
    case PORT => if u.authority.Some? then u.authority.value.port else ""
    case PATH => u.tail.path
    case QUERY => u.tail.query
    case FRAGMENT => u.tail.fragment
  }

  function Offset(u: UrlParts, f: UF): nat {
    var base := if u.schema == "" then 0 else |u.schema| + 3;
    var end := base + if u.authority.Some? then |AuthorityText(u.authority.value)| else 0;
    match f
    case SCHEMA => 0
    case USERINFO => base
    case HOST =>
      if u.authority.None? then base
      else base + (if u.authority.value.at then |u.authority.value.userinfo| + 1 else 0)
                + (if u.authority.value.v6 then 1 else 0)
    case PORT => if u.authority.None? then base else base + |HostText(u.authority.value)| + 1
    case PATH => end
    case QUERY => end + |u.tail.path| + 1
    case FRAGMENT => end + |PathText(u.tail)| + u.tail.hashes
  }

  function FieldRange(u: UrlParts, f: UF): Option<Range> {
    RangeOf(Offset(u, f), Piece(u, f))
  }

  /** The order the pieces come in. */
  function Order(f: UF): nat {
    match f
    case SCHEMA => 0
    case USERINFO => 1
    case HOST => 2
    case PORT => 3
    case PATH => 4
    case QUERY => 5
    case FRAGMENT => 6
  }

  /** The runs come in order and do not overlap. */
  lemma FieldsAreInOrder(u: UrlParts, isConnect: bool, f: UF, g: UF)
    requires LegalUrl(u, isConnect) && Piece(u, f) != "" && Piece(u, g) != "" && Order(f) < Order(g)
    ensures Offset(u, f) + |Piece(u, f)| <= Offset(u, g)
  {
    hide All;
  }

  predicate RunAt(s: string, off: nat, piece: string) {
    off + |piece| <= |s| && s[off..off + |piece|] == piece
  }

  lemma Whole(piece: string)
    ensures RunAt(piece, 0, piece)
  {
  }

  lemma RunLeft(s: string, t: string, off: nat, piece: string)
    requires RunAt(s, off, piece)
    ensures RunAt(s + t, off, piece)
  {
  }

  lemma RunRight(s: string, t: string, off: nat, piece: string)
    requires RunAt(t, off, piece)
    ensures RunAt(s + t, |s| + off, piece)
  {
  }

  lemma RunInThree(a: string, b: string, c: string, off: nat, piece: string)
    ensures RunAt(a, off, piece) ==> RunAt(a + b + c, off, piece)
    ensures RunAt(b, off, piece) ==> RunAt(a + b + c, |a| + off, piece)
    ensures RunAt(c, off, piece) ==> RunAt(a + b + c, |a| + |b| + off, piece)
  {
    if RunAt(a, off, piece) {
      RunLeft(a, b, off, piece);
      RunLeft(a + b, c, off, piece);
    }
    if RunAt(b, off, piece) {
      RunRight(a, b, off, piece);
      RunLeft(a + b, c, |a| + off, piece);
    }
    if RunAt(c, off, piece) {
      RunRight(a + b, c, off, piece);
    }
    hide RunAt;
  }

  /** Every field is a contiguous run of the URL. */
  lemma FieldsAreRuns(u: UrlParts, isConnect: bool, f: UF)
    requires LegalUrl(u, isConnect) && Piece(u, f) != ""
    ensures RunAt(UrlText(u), Offset(u, f), Piece(u, f))
  {
    hide RunAt, All, AuthorityText, TailText, HostText, PathText, LegalTail, LegalAuthority;
    var a := if u.schema != "" then u.schema + "://" else "";
    var b := if u.authority.Some? then AuthorityText(u.authority.value) else "";
    var c := TailText(u.tail);
    if f == SCHEMA {
      Whole(u.schema);
      RunLeft(u.schema, "://", 0, u.schema);
      RunInThree(a, b, c, 0, u.schema);
    } else if Order(f) <= 3 {
      AuthorityRuns(u.authority.value, f);
      RunInThree(a, b, c, Offset(UrlParts("", u.authority, NO_TAIL), f), Piece(u, f));
    } else {
      TailRuns(u.tail, f);
      RunInThree(a, b, c, Offset(UrlParts("", None, u.tail), f), Piece(u, f));
    }
  }

  lemma AuthorityRuns(a: Authority, f: UF)
    requires LegalAuthority(a) && (f == USERINFO || f == HOST || f == PORT)
    ensures var u := UrlParts("", Some(a), NO_TAIL);
      Piece(u, f) != "" ==> RunAt(AuthorityText(a), Offset(u, f), Piece(u, f))
  {
    hide RunAt, All;
    var front := if a.at then a.userinfo + "@" else "";
    if f == USERINFO {
      HostRuns(a, front);
      if a.at {
        BeforePort(a, 0, a.userinfo);
      }
    } else if f == HOST {
      HostRuns(a, front);
      BeforePort(a, |front| + if a.v6 then 1 else 0, a.host);
    } else {
      Whole(a.port);
      RunRight(HostText(a) + ":", a.port, 0, a.port);
    }
  }

  lemma BeforePort(a: Authority, off: nat, piece: string)
    requires RunAt(HostText(a), off, piece)
    ensures RunAt(AuthorityText(a), off, piece)
  {
    hide RunAt, HostText;
    RunLeft(HostText(a), ":", off, piece);
    RunLeft(HostText(a) + ":", a.port, off, piece);
  }

  lemma HostRuns(a: Authority, front: string)
    requires front == if a.at then a.userinfo + "@" else ""
    ensures a.at ==> RunAt(HostText(a), 0, a.userinfo)
    ensures RunAt(HostText(a), |front| + if a.v6 then 1 else 0, a.host)
  {
    hide RunAt;
    var host := if a.v6 then "[" + a.host + "]" else a.host;
    if a.at {
      Whole(a.userinfo);
      RunLeft(a.userinfo, "@", 0, a.userinfo);
      RunLeft(front, host, 0, a.userinfo);
    }
    Whole(a.host);
    RunRight("[", a.host, 0, a.host);
    RunLeft("[" + a.host, "]", 1, a.host);
    RunRight(front, host, if a.v6 then 1 else 0, a.host);
  }

  lemma TailRuns(t: Tail, f: UF)
    requires LegalTail(t) && (f == PATH || f == QUERY || f == FRAGMENT)
    ensures var u := UrlParts("", None, t);
      Piece(u, f) != "" ==> RunAt(TailText(t), Offset(u, f), Piece(u, f))
  {
    if f == PATH {
      Whole(t.path);
      RunLeft(t.path, "?", 0, t.path);
      RunLeft(t.path + "?", t.query, 0, t.path);
      RunLeft(PathText(t), Hashes(t.hashes), 0, t.path);
      RunLeft(PathText(t) + Hashes(t.hashes), t.fragment, 0, t.path);
    } else if f == QUERY {
      Whole(t.query);
      RunRight(t.path + "?", t.query, 0, t.query);
      if t.hasQuery {
        RunLeft(PathText(t), Hashes(t.hashes), |t.path| + 1, t.query);
        RunLeft(PathText(t) + Hashes(t.hashes), t.fragment, |t.path| + 1, t.query);
      }
    } else {
      Whole(t.fragment);
      RunRight(PathText(t) + Hashes(t.hashes), t.fragment, 0, t.fragment);
    }
    hide RunAt, All;
  }

  // ----- the port

  /** `strtoul(text + at, NULL, 10)` where a digit stands; it goes on as long as there are digits. */
  function Strtoul(text: string, at: nat): nat {
    Decimal(DigitsFrom(text, at))
  }

  function DigitsFrom(text: string, at: nat): (d: string)
    ensures AllDigits(d) && |d| <= if at <= |text| then |text| - at else 0
    decreases if at <= |text| then |text| - at else 0
  {
    if at < |text| && IsNum(text[at]) then [text[at]] + DigitsFrom(text, at + 1) else ""
  }

  /** The conversion reads on behind a run of digits. */
  lemma {:induction false} DigitsGoOn(text: string, at: nat, end: nat)
    requires at <= end <= |text| && AllDigits(text[at..end])
    ensures DigitsFrom(text, at) == text[at..end] + DigitsFrom(text, end)
    decreases end - at
  {
    if at < end {
      assert text[at] == text[at..end][0];
      assert text[at..end] == [text[at]] + text[at + 1..end];
      DigitsGoOn(text, at + 1, end);
    }
  }

  predicate Zeros(d: string) { forall i :: 0 <= i < |d| ==> d[i] == '0' }

  lemma {:induction false} OnlyZerosAreZero(d: string)
    requires AllDigits(d)
    ensures Decimal(d) == 0 <==> Zeros(d)
    decreases |d|
  {
    if d != "" {
      OnlyZerosAreZero(d[..|d| - 1]);
    }
  }

  lemma {:induction false} MoreDigits(d: string, e: string)
    requires AllDigits(d) && AllDigits(e) && e != ""
    ensures AllDigits(d + e) && Decimal(d + e) >= 10 * Decimal(d)
    decreases |e|
  {
    var init, all := e[..|e| - 1], d + e;
    assert all[..|all| - 1] == d + init;
    assert AllDigits(all) by {
      assert forall i :: 0 <= i < |all| ==> all[i] == if i < |d| then d[i] else e[i - |d|];
    }
    if init == "" {
      assert d + init == d;
    } else {
      MoreDigits(d, init);
    }
  }

  /** Digits behind a number leave its value alone exactly when all of them, and all before them, are zero. */
  lemma MoreDigitsMatter(d: string, e: string)
    requires AllDigits(d) && AllDigits(e) && e != ""
    ensures AllDigits(d + e) && (Decimal(d + e) == Decimal(d) <==> Zeros(d + e))
  {
    MoreDigits(d, e);
    OnlyZerosAreZero(d + e);
    OnlyZerosAreZero(d);
    if Zeros(d + e) {
      assert forall i :: 0 <= i < |d| ==> (d + e)[i] == d[i];
    }
  }

  /** The port as `http_parser_parse_url` computes it. */
  function PortOf(text: string, u: UrlParts): nat {
    if Piece(u, PORT) == "" then 0 else Strtoul(text, Offset(u, PORT))
  }

  lemma RunAndMore(text: string, at: nat, end: nat)
    requires at <= end <= |text| && AllDigits(text[at..end])
    ensures Strtoul(text, at) == Decimal(text[at..end]) <==> !IsNum(CharAt(text, end)) || Zeros(DigitsFrom(text, at))
  {
    hide Zeros, Decimal;
    DigitsGoOn(text, at, end);
    var run, more := text[at..end], DigitsFrom(text, end);
    if IsNum(CharAt(text, end)) {
      MoreDigitsMatter(run, more);
    } else {
      assert run + more == run;
    }
  }

  /** The buffer goes on behind the port, or what follows the buffer is no digit. */
  predicate PortIsDelimited(text: string, buflen: nat, u: UrlParts) {
    Offset(u, PORT) + |Piece(u, PORT)| < buflen || !IsNum(CharAt(text, buflen))
  }

  /**
   The conversion does not know where the URL ends: the port is the value of its run exactly when something in the
   buffer or the character behind the buffer delimits it, or all digits up to the next other character are zeros.
   */
  lemma PortIsExact(text: string, buflen: nat, u: UrlParts, isConnect: bool)
    requires buflen <= |text| && LegalUrl(u, isConnect) && UrlText(u) == text[..buflen] && Piece(u, PORT) != ""
    ensures AllDigits(Piece(u, PORT))
    ensures PortOf(text, u) == Decimal(Piece(u, PORT)) <==>
      PortIsDelimited(text, buflen, u) || Zeros(DigitsFrom(text, Offset(u, PORT)))
  {
    hide *;
    PortIsRun(text, buflen, u, isConnect);
    PortIsStrtoul(text, u);
    RunAndMore(text, Offset(u, PORT), Offset(u, PORT) + |Piece(u, PORT)|);
  }

  lemma PortIsStrtoul(text: string, u: UrlParts)
    requires Piece(u, PORT) != ""
    ensures PortOf(text, u) == Strtoul(text, Offset(u, PORT))
  {
  }

  lemma PortIsRun(text: string, buflen: nat, u: UrlParts, isConnect: bool)
    requires buflen <= |text| && LegalUrl(u, isConnect) && UrlText(u) == text[..buflen] && Piece(u, PORT) != ""
    ensures var off, run := Offset(u, PORT), Piece(u, PORT);
      && off + |run| <= buflen && text[off..off + |run|] == run && AllDigits(run)
      && (PortIsDelimited(text, buflen, u) <==> !IsNum(CharAt(text, off + |run|)))
  {
    FieldsAreRuns(u, isConnect, PORT);
    PortHasDigits(u, isConnect);
    if Offset(u, PORT) + |Piece(u, PORT)| < buflen {
      PortIsFollowed(u, isConnect);
    }
    hide UrlText, LegalUrl, Offset, Piece, AllDigits, IsNum, CharAt, RunAt;
    RunInBuffer(text, buflen, Offset(u, PORT), Piece(u, PORT));
  }

  lemma RunInBuffer(text: string, buflen: nat, off: nat, run: string)
    requires buflen <= |text| && RunAt(text[..buflen], off, run)
    requires off + |run| < buflen ==> !IsNum(text[..buflen][off + |run|])
    ensures off + |run| <= buflen && text[off..off + |run|] == run
    ensures off + |run| < buflen || !IsNum(CharAt(text, buflen)) <==> !IsNum(CharAt(text, off + |run|))
  {
    hide IsNum;
    assert text[off..off + |run|] == text[..buflen][off..off + |run|];
  }

  lemma PortHasDigits(u: UrlParts, isConnect: bool)
    requires LegalUrl(u, isConnect)
    ensures AllDigits(Piece(u, PORT))
  {
  }

  /** What comes after a port is a path, a query or nothing. */
  lemma PortIsFollowed(u: UrlParts, isConnect: bool)
    requires LegalUrl(u, isConnect) && Piece(u, PORT) != "" && Offset(u, PORT) + |Piece(u, PORT)| < |UrlText(u)|
    ensures !IsNum(UrlText(u)[Offset(u, PORT) + |Piece(u, PORT)|])
  {
    hide All;
    var base := if u.schema == "" then "" else u.schema + "://";
    var middle := AuthorityText(u.authority.value);
    assert Offset(u, PORT) + |Piece(u, PORT)| == |base| + |middle|;
    assert UrlText(u)[|base| + |middle|] == TailText(u.tail)[0];
  }

  /** Without the guard: the first four characters of "a:808" are parsed as a CONNECT target with port 808. */
  lemma PortReadsPastTheUrl()
    ensures var u := UrlParts("", Some(Authority(false, "", false, "a", true, "80")), NO_TAIL);
      LegalUrl(u, true) && UrlText(u) == "a:808"[..4] && PortOf("a:808", u) == 808 && Decimal(Piece(u, PORT)) == 80
  {
    var u := UrlParts("", Some(Authority(false, "", false, "a", true, "80")), NO_TAIL);
    assert Offset(u, PORT) == 2;
    assert DigitsFrom("a:808", 5) == "";
    assert DigitsFrom("a:808", 4) == "8";
    assert DigitsFrom("a:808", 3) == "08";
    assert DigitsFrom("a:808", 2) == "808";
    assert "808"[..2] == "80" && "80"[..1] == "8" && "8"[..0] == "";
    assert Decimal("80") == 80;
    assert Decimal("808") == 808;
    assert TailText(NO_TAIL) == "";
  }

  // ----- the code

  /** What the fields hold, given where each piece is. */
  predicate Shows(fields: map<UF, Range>, at: UF -> Option<Range>) {
    && (forall f :: f in fields <==> at(f).Some?)
    && forall f :: f in fields ==> fields[f] == at(f).value
  }

  class ParserUrl {
    /** `field_data`, for the fields in `field_set`. All other field data are zero, as callers leave them. */
    var fields: map<UF, Range>
    var port: nat

    constructor ()
      ensures fields == map[] && port == 0
    {
      fields, port := map[], 0;
    }

    /** The field a state belongs to. */
    method FieldFor(s: State) returns (uf: UF)
      requires PieceOf(s).Some?
      ensures Some(uf) == PieceOf(s)
    {
      if s.ReqSchema? {
        uf := SCHEMA;
      } else if s.ReqServerWithAt? || s.ReqServer? {
        uf := HOST;
      } else if s.ReqPath? {
        uf := PATH;
      } else if s.ReqQueryString? {
        uf := QUERY;
      } else {
        uf := FRAGMENT;
      }
    }

    /** The loop of `http_parser_parse_url`. */
    method ScanFields(text: string, buflen: nat, isConnect: bool) returns (ok: bool, foundAt: bool)
      requires buflen <= |text| && buflen <= 0xFFFF && fields == map[]
      modifies this`fields
      ensures var a := ScanRun(text[..buflen], isConnect);
        ok == !a.state.Dead? && (ok ==> foundAt == ('@' in a.head.host) && Shows(fields, f => ScanRange(a, f)))
    {
      hide Good, ScanStep, ScanRange, Current, PieceOf, ParseUrlChar, Shows;
      var s := if isConnect then ReqServerStart else ReqSpacesBeforeUrl;
      var oldUf: Option<UF> := None;
      foundAt := false;
      ScanBegins(isConnect);
      assert text[..0] == "";
      var i := 0;
      while i < buflen
        invariant 0 <= i <= buflen
        invariant var a := ScanRun(text[..i], isConnect);
          && s == a.state && !s.Dead? && oldUf == Current(a) && foundAt == ('@' in a.head.host)
          && Shows(fields, f => ScanRange(a, f))
      {
        ghost var a := ScanRun(text[..i], isConnect);
        ScanRunKeeps(text[..i], isConnect);
        assert text[..i + 1][..i] == text[..i] && text[..i + 1][i] == text[i];
        StepState(a, text[i]);
        s := ParseUrlChar(s, text[i]);
        if s.Dead? {
          assert text[..buflen][..i + 1] == text[..i + 1];
          DeadPrefix(text[..buflen], i + 1, isConnect);
          return false, foundAt;
        }
        FieldsStep(fields, a, text[i], isConnect, i);
        CurrentStep(a, text[i], isConnect);
        AtStep(a, text[i], isConnect);
        StepPiece(a, text[i]);
        if !(s.ReqSchemaSlash? || s.ReqSchemaSlashSlash? || s.ReqServerStart? || s.ReqQueryStringStart? || s.ReqFragmentStart?) {
          if s.ReqServerWithAt? {
            foundAt := true;
          }
          var uf := FieldFor(s);
          if Some(uf) == oldUf {
            fields := fields[uf := fields[uf].(len := fields[uf].len + 1)];
          } else {
            fields := fields[uf := Range(i, 1)];
            oldUf := Some(uf);
          }
        }
        i := i + 1;
      }
      return true, foundAt;
    }

    /** `http_parse_host`: the host field, which so far holds the whole authority, is taken apart. */
    method ParseHost(text: string, foundAt: bool, ghost a: Scan) returns (failed: bool)
      requires Shows(fields, f => ScanRange(a, f)) && |a.head.schema| + a.head.slashes + |a.head.host| <= |text|
      requires text[|a.head.schema| + a.head.slashes..][..|a.head.host|] == a.head.host
      modifies this`fields
      ensures var b := HostRun(a.head.host, foundAt);
        && failed == (b.state.HostDead? || !HostAccepts(b.state))
        && (!failed ==> Shows(fields, f => SplitRange(a, b, f)))
    {
      hide HostRange, HostStep, HostGood, ParseHostChar, HostPieceOf, HostShows, HostAccepts, Shows, ScanRange;
      ghost var off, host := |a.head.schema| + a.head.slashes, a.head.host;
      var s := if foundAt then UserinfoStart else HostStart;
      HostField(fields, a);
      if HOST !in fields {
        HostEnds(fields, a, HostStartState(foundAt), foundAt);
        return true;
      }
      var p, buflen := fields[HOST].off, fields[HOST].off + fields[HOST].len;
      fields := fields[HOST := Range(p, 0)];
      ghost var b := HostStartState(foundAt);
      assert host[..0] == "";
      while p < buflen
        invariant off <= p <= buflen == off + |host|
        invariant b == HostRun(host[..p - off], foundAt) && s == b.state && !s.HostDead? && HostShows(fields, a, b)
      {
        assert text[p] == host[p - off];
        assert host[..p - off + 1][..p - off] == host[..p - off];
        HostStepState(b, text[p]);
        var newS := ParseHostChar(s, text[p]);
        if newS.HostDead? {
          HostDeadPrefix(host, p - off + 1, foundAt);
          return true;
        }
        HostRunKeeps(host[..p - off], foundAt);
        HostFieldsStep(fields, a, b, text[p], foundAt, p);
        HostPieces(newS);
        if newS.Host? || newS.HostV6? {
          if s != newS {
            fields := fields[HOST := Range(p, 0)];
          }
          fields := fields[HOST := fields[HOST].(len := fields[HOST].len + 1)];
        } else if newS.Port? {
          if s != newS {
            fields := fields[PORT := Range(p, 0)];
          }
          fields := fields[PORT := fields[PORT].(len := fields[PORT].len + 1)];
        } else if newS.Userinfo? {
          if s != newS {
            fields := fields[USERINFO := Range(p, 0)];
          }
          fields := fields[USERINFO := fields[USERINFO].(len := fields[USERINFO].len + 1)];
        }
        s := newS;
        b := HostStep(b, text[p]);
        p := p + 1;
      }
      assert host[..p - off] == host;
      HostRunKeeps(host, foundAt);
      HostEnds(fields, a, b, foundAt);
      return !HostAccepts(s);
    }

    /** `http_parser_parse_url`. The fields are 16 bits wide, which is enough for the URLs they are meant for. */
    method ParseUrl(text: string, buflen: nat, isConnect: bool) returns (ok: bool)
      requires buflen <= |text| && buflen <= 0xFFFF
      modifies this
      ensures var r := Reading(text[..buflen], isConnect);
        && (ok <==> r.Some? && PortOf(text, r.value) <= 0xFFFF)
        && (ok ==> port == PortOf(text, r.value) && Shows(fields, f => FieldRange(r.value, f)))
        && (ok && Piece(r.value, PORT) != "" ==>
              && AllDigits(Piece(r.value, PORT))
              && (port == Decimal(Piece(r.value, PORT)) <==>
                    PortIsDelimited(text, buflen, r.value) || Zeros(DigitsFrom(text, Offset(r.value, PORT)))))
    {
      hide ScanRun, HostRun, HostAccepts, Shows, ScanRange, SplitRange, FieldRange, Strtoul, PortIsDelimited, Zeros;
      port, fields := 0, map[];
      var foundAt;
      ok, foundAt := ScanFields(text, buflen, isConnect);
      if !ok {
        return false;
      }
      ghost var a := ScanRun(text[..buflen], isConnect);
      ScanRunKeeps(text[..buflen], isConnect);
      SomeFields(fields, a);
      ghost var u := UrlParts("", None, a.tail);
      if SCHEMA in fields || HOST in fields {
        HostInText(text, buflen, a, isConnect);
        var failed := ParseHost(text, foundAt, a);
        if failed {
          return false;
        }
        ghost var b := HostRun(a.head.host, foundAt);
        HostRunKeeps(a.head.host, foundAt);
        u := UrlParts(a.head.schema, Some(b.a), a.tail);
        FinalFields(fields, a, b, foundAt, isConnect);
      } else {
        PathFields(fields, a, isConnect);
      }
      if isConnect && fields.Keys != {HOST, PORT} {
        return false;
      }
      PortField(text, fields, u);
      if PORT in fields {
        var v := Strtoul(text, fields[PORT].off);
        if v > 0xFFFF {
          return false;
        }
        port := v;
      }
      if Piece(u, PORT) != "" {
        PortAsRead(text, buflen, u, isConnect);
      }
      return true;
    }
  }

  lemma PortAsRead(text: string, buflen: nat, u: UrlParts, isConnect: bool)
    requires buflen <= |text| && Reading(text[..buflen], isConnect) == Some(u) && Piece(u, PORT) != ""
    ensures AllDigits(Piece(u, PORT))
    ensures PortOf(text, u) == Decimal(Piece(u, PORT)) <==>
      PortIsDelimited(text, buflen, u) || Zeros(DigitsFrom(text, Offset(u, PORT)))
  {
    hide *;
    ReadingIsSound(text[..buflen], isConnect);
    PortIsExact(text, buflen, u, isConnect);
  }

  lemma SomeFields(fields: map<UF, Range>, a: Scan)
    requires Shows(fields, f => ScanRange(a, f))
    ensures SCHEMA in fields <==> a.head.schema != ""
    ensures HOST in fields <==> a.head.host != ""
  {
  }

  lemma HostInText(text: string, buflen: nat, a: Scan, isConnect: bool)
    requires buflen <= |text| && Good(a, isConnect) && ScanText(a) == text[..buflen]
    ensures var off := |a.head.schema| + a.head.slashes;
      off + |a.head.host| <= |text| && text[off..][..|a.head.host|] == a.head.host
  {
    hide All, AtsApart, TailText, LegalTail;
    var front := a.head.schema + "://"[..a.head.slashes];
    assert |ScanText(a)| == |front| + |a.head.host| + |TailText(a.tail)|;
    forall k | 0 <= k < |a.head.host| ensures text[|front| + k] == a.head.host[k] {
      assert text[..buflen][|front| + k] == ScanText(a)[|front| + k] == a.head.host[k];
    }
  }

  /** After both loops every field is where it is in the URL, and a CONNECT target has to have exactly two. */
  lemma FinalFields(fields: map<UF, Range>, a: Scan, b: HostScan, found: bool, isConnect: bool)
    requires Good(a, isConnect) && HostGood(b, found) && HostAccepts(b.state) && HostScanText(b) == a.head.host
    requires Shows(fields, f => SplitRange(a, b, f))
    requires a.head.schema != "" || a.head.host != ""
    ensures var u := UrlParts(a.head.schema, Some(b.a), a.tail);
      && Shows(fields, f => FieldRange(u, f))
      && (isConnect ==> (fields.Keys == {HOST, PORT} <==> OnlyHostAndPort(u)))
  {
    var u := UrlParts(a.head.schema, Some(b.a), a.tail);
    AcceptedHost(b, found);
    SameRanges(a, b, u, isConnect);
    hide Good, HostGood, HostAccepts, HostScanText, SplitRange, LegalAuthority;
    assert forall f :: f in fields <==> Piece(u, f) != "";
    TwoFields(fields);
  }

  lemma TwoFields(fields: map<UF, Range>)
    ensures fields.Keys == {HOST, PORT} <==>
      HOST in fields && PORT in fields && SCHEMA !in fields && PATH !in fields && QUERY !in fields && FRAGMENT !in fields
      && USERINFO !in fields
  {
    assert forall f :: f in fields.Keys <==> f in fields;
    var two: set<UF> := {HOST, PORT};
    assert forall f :: f in two <==> f == HOST || f == PORT;
  }

  lemma SameRanges(a: Scan, b: HostScan, u: UrlParts, isConnect: bool)
    requires Good(a, isConnect) && u == UrlParts(a.head.schema, Some(b.a), a.tail) && b.closed == b.a.v6
    requires LegalAuthority(b.a) && AuthorityText(b.a) == a.head.host
    ensures forall f :: SplitRange(a, b, f) == FieldRange(u, f)
    ensures b.a.host != "" && (b.a.hasPort <==> b.a.port != "") && (isConnect ==> u.schema == "")
  {
    HostAndSlashes(a, b, isConnect);
    forall f ensures SplitRange(a, b, f) == FieldRange(u, f) {
      SameRange(a, b, u, f);
    }
    hide *;
  }

  lemma HostAndSlashes(a: Scan, b: HostScan, isConnect: bool)
    requires Good(a, isConnect) && LegalAuthority(b.a) && AuthorityText(b.a) == a.head.host
    ensures b.a.host != "" && (b.a.hasPort <==> b.a.port != "") && (isConnect ==> a.head.schema == "")
    ensures a.head.slashes == if a.head.schema == "" then 0 else 3
  {
    hide All, AtsApart, LegalTail, TailState, Fits;
    assert a.head.host != "";
  }

  lemma SameRange(a: Scan, b: HostScan, u: UrlParts, f: UF)
    requires u == UrlParts(a.head.schema, Some(b.a), a.tail) && b.closed == b.a.v6
    requires AuthorityText(b.a) == a.head.host && a.head.slashes == if a.head.schema == "" then 0 else 3
    requires LegalAuthority(b.a)
    ensures SplitRange(a, b, f) == FieldRange(u, f)
  {
    hide All, TailText;
  }

  lemma PathFields(fields: map<UF, Range>, a: Scan, isConnect: bool)
    requires Good(a, isConnect) && a.head.schema == "" && a.head.host == "" && Shows(fields, f => ScanRange(a, f))
    ensures Shows(fields, f => FieldRange(UrlParts("", None, a.tail), f)) && fields.Keys != {HOST, PORT}
  {
    var u := UrlParts("", None, a.tail);
    hide All, AtsApart, LegalTail, TailText, PathText;
    assert HeadText(a.head) == "";
    assert forall f :: ScanRange(a, f) == FieldRange(u, f);
    assert HOST !in fields;
    assert HOST in {HOST, PORT};
  }

  lemma PortField(text: string, fields: map<UF, Range>, u: UrlParts)
    requires Shows(fields, f => FieldRange(u, f))
    ensures PortOf(text, u) == if PORT in fields then Strtoul(text, fields[PORT].off) else 0
  {
  }

  /** What the fields hold while the authority is taken apart. */
  ghost predicate HostShows(fields: map<UF, Range>, a: Scan, b: HostScan) {
    && HOST in fields && (b.a.host == "" ==> fields[HOST] == Range(|a.head.schema| + a.head.slashes, 0))
    && forall f :: f != HOST || b.a.host != "" ==>
      (f in fields <==> SplitRange(a, b, f).Some?) && (f in fields ==> fields[f] == SplitRange(a, b, f).value)
  }

  /** The host field before it is taken apart. */
  lemma HostField(fields: map<UF, Range>, a: Scan)
    requires Shows(fields, f => ScanRange(a, f))
    ensures var off := |a.head.schema| + a.head.slashes;
      if HOST in fields then
        fields[HOST] == Range(off, |a.head.host|)
        && forall found :: HostShows(fields[HOST := Range(off, 0)], a, HostStartState(found))
      else a.head.host == ""
    ensures forall found :: HostRun("", found) == HostStartState(found)
  {
    assert ScanRange(a, USERINFO) == ScanRange(a, PORT) == None;
  }

  lemma HostStepState(b: HostScan, ch: char)
    ensures HostStep(b, ch).state == ParseHostChar(b.state, ch)
  {
  }

  lemma HostPieces(s: HostState)
    ensures HostPieceOf(s) ==
      if s.Host? || s.HostV6? then Some(HOST) else if s.Port? then Some(PORT) else if s.Userinfo? then Some(USERINFO) else None
  {
  }

  lemma {:induction false} HostDeadPrefix(s: string, n: nat, found: bool)
    requires n <= |s| && HostRun(s[..n], found).state.HostDead?
    ensures HostRun(s, found).state.HostDead?
    decreases |s|
  {
    hide HostStep;
    if n == |s| {
      assert s[..n] == s;
    } else {
      var t := s[..|s| - 1];
      assert t[..n] == s[..n];
      HostDeadPrefix(t, n, found);
      HostDeadStays(HostRun(t, found), s[|s| - 1]);
    }
  }

  /** How one character of the authority changes the fields. */
  lemma HostFieldsStep(fields: map<UF, Range>, a: Scan, b: HostScan, ch: char, found: bool, p: nat)
    requires HostGood(b, found) && !HostStep(b, ch).state.HostDead?
    requires p == |a.head.schema| + a.head.slashes + |HostScanText(b)| && HostShows(fields, a, b)
    ensures var c := HostStep(b, ch);
      var piece := HostPieceOf(c.state);
      if piece.None? then HostShows(fields, a, c)
      else
        var f := piece.value;
        var started := if c.state == b.state then fields else fields[f := Range(p, 0)];
        f in started && HostShows(started[f := started[f].(len := started[f].len + 1)], a, c)
  {
    var base := |a.head.schema| + a.head.slashes;
    HostStays(b, ch);
    hide HostGood, HostStep, HostRange, HostPieceOf, ScanRange, HostScanText;
    forall f {
      HostRangeStep(b, base, ch, found, f);
    }
    HostIsHost(b, base);
    HostIsHost(HostStep(b, ch), base);
  }

  lemma HostIsHost(b: HostScan, base: nat)
    ensures HostRange(b, base, HOST).None? <==> b.a.host == ""
  {
  }

  lemma HostStays(b: HostScan, ch: char)
    ensures HostPieceOf(HostStep(b, ch).state) != Some(HOST) ==> HostStep(b, ch).a.host == b.a.host
    ensures forall f :: HostPieceOf(HostStep(b, ch).state) == Some(f) ==> f == HOST || f == PORT || f == USERINFO
  {
  }

  /** Nothing is accepted without a host. */
  lemma HostEnds(fields: map<UF, Range>, a: Scan, b: HostScan, found: bool)
    requires HostGood(b, found) || b == HostStartState(found)
    ensures HostAccepts(b.state) && HostShows(fields, a, b) && !b.state.HostDead? ==> Shows(fields, f => SplitRange(a, b, f))
    ensures b == HostStartState(found) ==> !HostAccepts(b.state)
  {
    hide All;
  }

  /** Once the authority has been taken apart. */
  function SplitRange(a: Scan, b: HostScan, f: UF): Option<Range> {
    if f == HOST || f == PORT || f == USERINFO then HostRange(b, |a.head.schema| + a.head.slashes, f) else ScanRange(a, f)
  }

  lemma ScanBegins(isConnect: bool)
    ensures var a := ScanRun("", isConnect);
      && a.state == (if isConnect then ReqServerStart else ReqSpacesBeforeUrl) && Current(a) == None
      && '@' !in a.head.host && Shows(map[], f => ScanRange(a, f))
  {
  }

  lemma StepState(a: Scan, ch: char)
    ensures ScanStep(a, ch).state == ParseUrlChar(a.state, ch)
  {
  }

  /** Anything else the automaton reaches is an unexpected state in the code. */
  lemma StepPiece(a: Scan, ch: char)
    ensures var s := ScanStep(a, ch).state;
      !s.Dead? ==>
        (PieceOf(s).None? <==>
          s.ReqSchemaSlash? || s.ReqSchemaSlashSlash? || s.ReqServerStart? || s.ReqQueryStringStart? || s.ReqFragmentStart?)
  {
  }

  lemma AtStep(a: Scan, ch: char, isConnect: bool)
    requires Good(a, isConnect) && !ScanStep(a, ch).state.Dead?
    ensures var b := ScanStep(a, ch);
      '@' in b.head.host <==> '@' in a.head.host || b.state.ReqServerWithAt?
  {
    hide All, AtsApart;
    var b := ScanStep(a, ch);
    if b.head.host != a.head.host {
      assert b.head.host == a.head.host + [ch];
    }
  }

  lemma {:induction false} DeadPrefix(s: string, n: nat, isConnect: bool)
    requires n <= |s| && ScanRun(s[..n], isConnect).state.Dead?
    ensures ScanRun(s, isConnect).state.Dead?
    decreases |s|
  {
    hide ScanStep;
    if n == |s| {
      assert s[..n] == s;
    } else {
      var t := s[..|s| - 1];
      assert t[..n] == s[..n];
      DeadPrefix(t, n, isConnect);
      DeadStays(ScanRun(t, isConnect), s[|s| - 1]);
    }
  }

  /** How one character changes the fields. */
  lemma FieldsStep(fields: map<UF, Range>, a: Scan, ch: char, isConnect: bool, i: nat)
    requires Good(a, isConnect) && !ScanStep(a, ch).state.Dead? && |ScanText(a)| == i
    requires Shows(fields, f => ScanRange(a, f))
    ensures var b := ScanStep(a, ch);
      var piece := PieceOf(b.state);
      if piece.None? then Shows(fields, f => ScanRange(b, f))
      else if Current(a) == piece then
        piece.value in fields
        && Shows(fields[piece.value := fields[piece.value].(len := fields[piece.value].len + 1)], f => ScanRange(b, f))
      else Shows(fields[piece.value := Range(i, 1)], f => ScanRange(b, f))
  {
    hide Good, ScanStep, ScanRange, Current, PieceOf;
    CurrentStep(a, ch, isConnect);
    forall f {
      RangeStep(a, ch, isConnect, f);
    }
  }
}
