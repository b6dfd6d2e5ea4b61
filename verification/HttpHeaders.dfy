/** Whole header lines: what the values of the headers that matter do to the parser, and that nothing else does. */
module HttpHeaders {
  import opened HttpTypes
  import opened HttpStep
  import opened HttpRun
  import opened HttpNames

  // ----- header values

  /** `s` is `word`, possibly followed by spaces. */
  predicate Says(s: string, word: string) {
    word <= s && forall i :: |word| <= i < |s| ==> s[i] == ' '
  }

  function WordState(s: string, word: string, some: HeaderState, all: HeaderState): HeaderState {
    if Says(s, word) then all else if s <= word then some else General
  }

  /** What the beginning `s` of a lower-cased value is recognised as, by what the name was recognised as. */
  function ValueState(kind: HeaderState, s: string): HeaderState
    requires s != ""
  {
    match kind
    case TransferEncoding => WordState(s, "chunked", MatchingTransferEncodingChunked, TransferEncodingChunked)
    case Connection =>
      if s[0] == 'k' then WordState(s, "keep-alive", MatchingConnectionKeepAlive, ConnectionKeepAlive)
      else WordState(s, "close", MatchingConnectionClose, ConnectionClose)
    case ContentLength => ContentLength
    case _ => General
  }

  predicate Partial(hs: HeaderState) {
    hs.MatchingTransferEncodingChunked? || hs.MatchingConnectionKeepAlive? || hs.MatchingConnectionClose?
  }

  predicate IsBlank(c: char) { c == ' ' || c == '\t' }

  /** A line ends with CR LF or, for this parser, with LF alone. */
  datatype Eol = CrLf | Lf

  function Break(eol: Eol): string { if eol.CrLf? then "\r\n" else "\n" }

  predicate NoLineBreak(s: string) { CR !in s && LF !in s }

  /** The number that the digits of `v` spell; anything else is passed over. */
  function LengthIn(v: string): nat
    decreases |v|
  {
    if v == "" then 0
    else if IsNum(v[|v| - 1]) then 10 * LengthIn(v[..|v| - 1]) + Digit(v[|v| - 1])
    else LengthIn(v[..|v| - 1])
  }

  /** A Content-Length that is accepted and read exactly: spaces may stand anywhere behind the first digit. */
  predicate GoodLength(v: string) {
    v != "" && IsNum(v[0]) && (forall i :: 0 <= i < |v| ==> IsNum(v[i]) || v[i] == ' ') && LengthIn(v) < NO_LENGTH
  }

  predicate GoodValue(kind: HeaderState, v: string) {
    NoLineBreak(v) && (v != "" ==> !IsBlank(v[0]) && (kind.ContentLength? ==> GoodLength(v)))
  }

  /** LOWER and ordinary lower-casing agree on the letters of the words looked for. */
  lemma SameLetter(ch: char, c: char)
    requires ch != CR && (IsLower(c) || c == '-')
    ensures Lower(ch) == c <==> ToLower(ch) == c
  {
  }

  lemma WordLetters(hs: HeaderState, i: nat)
    requires Partial(hs) && i < |Matching(hs).0|
    ensures var c := Matching(hs).0[i]; IsLower(c) || c == '-'
  {
  }

  lemma SaysSnoc(s: string, c: char, word: string)
    requires word != ""
    ensures Says(s + [c], word) <==> s + [c] == word || (Says(s, word) && c == ' ')
  {
    var t := s + [c];
    if |word| <= |s| {
      assert t[..|word|] == s[..|word|];
      assert t[|s|] == c && forall i :: |word| <= i < |s| ==> t[i] == s[i];
      assert Says(t, word) ==> Says(s, word) && c == ' ' by {
        if Says(t, word) {
          assert forall i :: |word| <= i < |s| ==> s[i] == t[i];
        }
      }
    } else if Says(t, word) {
      assert t[..|word|] == t;
    }
  }

  lemma WordStateSnoc(s: string, c: char, word: string, some: HeaderState, all: HeaderState)
    requires word != "" && some != all && some != General && all != General
    ensures var before, after := WordState(s, word, some, all), WordState(s + [c], word, some, all);
      && (before == all ==> after == if c == ' ' then all else General)
      && (before == General ==> after == General)
      && (before == some ==>
            && |s| < |word|
            && after == if c != word[|s|] then General else if |s| == |word| - 1 then all else some)
  {
    SaysSnoc(s, c, word);
    PrefixSnoc(s, c, word);
  }

  lemma ValueStateStep(kind: HeaderState, s: string, ch: char)
    requires s != "" && ch != CR
    ensures var hs := ValueState(kind, s);
      ValueState(kind, s + [ToLower(ch)])
      == if Partial(hs) then MatchNext(hs, |s|, Lower(ch))
         else if hs.ContentLength? then hs
         else if ch == ' ' then hs else General
  {
    var hs, c := ValueState(kind, s), ToLower(ch);
    assert (s + [c])[0] == s[0];
    WordStateSnoc(s, c, "chunked", MatchingTransferEncodingChunked, TransferEncodingChunked);
    WordStateSnoc(s, c, "keep-alive", MatchingConnectionKeepAlive, ConnectionKeepAlive);
    WordStateSnoc(s, c, "close", MatchingConnectionClose, ConnectionClose);
    hide WordState, Lower;
    if Partial(hs) {
      WordLetters(hs, |s|);
      SameLetter(ch, Matching(hs).0[|s|]);
    }
  }

  lemma FirstOfWord(c: char, word: string, some: HeaderState, all: HeaderState)
    requires |word| > 1
    ensures WordState([c], word, some, all) == if c == word[0] then some else General
  {
  }

  lemma ValueFirst(q: Parser, ch: char)
    requires q.state.HeaderValueStart? && Room(q, 1) && q.errno == OK && !IsBlank(ch) && ch != CR && ch != LF
    requires q.hstate.ContentLength? ==> IsNum(ch)
    ensures var o := Step(q, ch);
      && !o.stop && o.events == [Data(Value, [ch])]
      && o.ps == q.(state := HeaderValue, index := 0, nread := q.nread + 1,
                    hstate := ValueState(q.hstate, [ToLower(ch)]),
                    length := if q.hstate.ContentLength? then Digit(ch) else q.length,
                    flags := if q.hstate.UpgradeHeader? then q.flags.(upgrade := true) else q.flags)
  {
    FirstState(q.hstate, ch);
    hide ValueState, Lower, ToLower;
  }

  lemma FirstState(kind: HeaderState, ch: char)
    requires ch != CR
    ensures ValueState(kind, [ToLower(ch)]) ==
      if kind.TransferEncoding? then if Lower(ch) == 'c' then MatchingTransferEncodingChunked else General
      else if kind.Connection? then
        if Lower(ch) == 'k' then MatchingConnectionKeepAlive else if Lower(ch) == 'c' then MatchingConnectionClose else General
      else if kind.ContentLength? then ContentLength
      else General
  {
    var c := ToLower(ch);
    SameLetter(ch, 'c');
    SameLetter(ch, 'k');
    FirstOfWord(c, "chunked", MatchingTransferEncodingChunked, TransferEncodingChunked);
    FirstOfWord(c, "keep-alive", MatchingConnectionKeepAlive, ConnectionKeepAlive);
    FirstOfWord(c, "close", MatchingConnectionClose, ConnectionClose);
    hide WordState, Lower, ToLower;
  }

  lemma ValueStep(q: Parser, kind: HeaderState, s: string, ch: char)
    requires q.state.HeaderValue? && Room(q, 1) && q.errno == OK && ch != CR && ch != LF && s != ""
    requires q.hstate == ValueState(kind, s) && (Partial(q.hstate) ==> q.index == |s| - 1)
    requires kind.ContentLength? ==> ch == ' ' || (IsNum(ch) && q.length < NO_LENGTH && 10 * q.length + Digit(ch) < NO_LENGTH)
    ensures var o := Step(q, ch);
      && !o.stop && o.events == [Data(Value, [ch])]
      && o.ps == q.(hstate := ValueState(kind, s + [ToLower(ch)]), index := o.ps.index, nread := q.nread + 1,
                    length := if kind.ContentLength? && ch != ' ' then 10 * q.length + Digit(ch) else q.length)
      && (Partial(o.ps.hstate) ==> o.ps.index == |s|)
  {
    ValueStateStep(kind, s, ch);
    if kind.ContentLength? && ch != ' ' {
      AppendExact(q.length, 10, Digit(ch));
    }
    hide AppendDigit, Overflows, WordState, Lower, ToLower;
  }

  /** What a value means, by what its name was recognised as. */
  function Meant(q: Parser, v: string): Parser {
    var s := LowerAll(v);
    if v == "" then q
    else if q.hstate.ContentLength? then q.(length := LengthIn(v))
    else if q.hstate.UpgradeHeader? then q.(flags := q.flags.(upgrade := true))
    else if q.hstate.TransferEncoding? && Says(s, "chunked") then q.(flags := q.flags.(chunked := true))
    else if q.hstate.Connection? && Says(s, "keep-alive") then q.(flags := q.flags.(keepAlive := true))
    else if q.hstate.Connection? && Says(s, "close") then q.(flags := q.flags.(close := true))
    else q
  }

  lemma GoodInit(kind: HeaderState, v: string)
    requires |v| > 1 && GoodValue(kind, v)
    ensures var u, ch := v[..|v| - 1], v[|v| - 1];
      && GoodValue(kind, u) && ch != CR && ch != LF
      && (kind.ContentLength? && ch != ' ' ==> IsNum(ch) && LengthIn(v) == 10 * LengthIn(u) + Digit(ch))
      && (kind.ContentLength? && ch == ' ' ==> LengthIn(v) == LengthIn(u))
      && (kind.ContentLength? ==> LengthIn(v) < NO_LENGTH && LengthIn(u) < NO_LENGTH)
  {
  }

  lemma GoodOne(v: string)
    requires |v| == 1 && GoodLength(v)
    ensures LengthIn(v) == Digit(v[0])
  {
    assert LengthIn(v[..0]) == 0;
  }

  lemma {:induction false} ValueRun(ps: Parser, tr: seq<Event>, v: string)
    requires ps.state.HeaderValueStart? && ps.errno == OK && Room(ps, |v|) && v != "" && GoodValue(ps.hstate, v)
    ensures var r := Run(ps, tr, v);
      && !r.stopped && r.trace == Push(tr, Data(Value, v))
      && r.ps == ps.(state := HeaderValue, hstate := ValueState(ps.hstate, LowerAll(v)), index := r.ps.index,
                     nread := ps.nread + |v|,
                     length := if ps.hstate.ContentLength? then LengthIn(v) else ps.length,
                     flags := if ps.hstate.UpgradeHeader? then ps.flags.(upgrade := true) else ps.flags)
      && (Partial(r.ps.hstate) ==> r.ps.index == |v| - 1)
    decreases |v|
  {
    hide Step, ValueState, ToLower, Push;
    if |v| == 1 {
      hide IsBlank;
      assert v == [v[0]] && LowerAll(v) == [ToLower(v[0])];
      assert v[0] in v;
      if ps.hstate.ContentLength? { GoodOne(v); }
      ValueFirst(ps, v[0]);
      RunOne(ps, tr, v[0]);
      PushOne(tr, Data(Value, v));
    } else {
      var u, ch := v[..|v| - 1], v[|v| - 1];
      assert v == u + [ch];
      GoodInit(ps.hstate, v);
      hide GoodValue, LengthIn;
      ValueRun(ps, tr, u);
      LowerSnoc(u, ch);
      ValueStep(Run(ps, tr, u).ps, ps.hstate, LowerAll(u), ch);
      RunSnoc(ps, tr, u, ch);
      PushOne(Push(tr, Data(Value, u)), Data(Value, [ch]));
      PushJoins(tr, Value, u, [ch]);
    }
  }

  function Flagged(f: Flags, hs: HeaderState): Flags {
    match hs
    case ConnectionKeepAlive => f.(keepAlive := true)
    case ConnectionClose => f.(close := true)
    case TransferEncodingChunked => f.(chunked := true)
    case _ => f
  }

  lemma ValueEnd(q: Parser, tr: seq<Event>, eol: Eol)
    requires q.state.HeaderValue? && Room(q, |Break(eol)|) && q.errno == OK
    ensures var q' := q.(state := HeaderValueLws, nread := q.nread + |Break(eol)|, flags := Flagged(q.flags, q.hstate));
      Run(q, tr, Break(eol)) == Result(q', tr, |Break(eol)|, false)
  {
    ValueEndStep(q);
    hide Step;
    if eol.CrLf? {
      EndOfLineStep(q.(state := HeaderAlmostDone, nread := q.nread + 1));
      RunQuietPair(q, tr, CR, LF);
      assert Break(eol) == [CR, LF];
    } else {
      RunOne(q, tr, LF);
      PushNone(tr);
      assert Break(eol) == [LF];
    }
  }

  lemma ValueEndStep(q: Parser)
    requires q.state.HeaderValue? && Room(q, 1) && q.errno == OK
    ensures Step(q, CR) == Quiet(q.(state := HeaderAlmostDone, nread := q.nread + 1))
    ensures Step(q, LF) == Quiet(q.(state := HeaderValueLws, nread := q.nread + 1, flags := Flagged(q.flags, q.hstate)))
  {
  }

  lemma EndOfLineStep(q: Parser)
    requires q.state.HeaderAlmostDone? && Room(q, 1) && q.errno == OK
    ensures Step(q, LF) == Quiet(q.(state := HeaderValueLws, nread := q.nread + 1, flags := Flagged(q.flags, q.hstate)))
  {
  }

  /** Behind an empty value a bare line feed starts the next line at once, so that it cannot be folded. */
  lemma NoValue(q: Parser, tr: seq<Event>, eol: Eol)
    requires q.state.HeaderValueStart? && Room(q, |Break(eol)|) && q.errno == OK
    ensures var r := Run(q, tr, Break(eol));
      && !r.stopped && r.trace == Push(tr, Data(Value, ""))
      && r.ps == q.(state := if eol.CrLf? then HeaderValueLws else HeaderFieldStart, nread := q.nread + |Break(eol)|,
                    hstate := if eol.CrLf? then General else q.hstate, index := 0)
  {
    NoValueStep(q);
    hide Step, Push;
    PushOne(tr, Data(Value, ""));
    if eol.CrLf? {
      EndOfLineStep(q.(state := HeaderAlmostDone, nread := q.nread + 1, hstate := General, index := 0));
      assert Break(eol) == [CR] + [LF];
      RunOne(q, tr, CR);
      RunSnoc(q, tr, [CR], LF);
      PushNone(Push(tr, Data(Value, "")));
    } else {
      assert Break(eol) == [LF];
      RunOne(q, tr, LF);
    }
  }

  lemma NoValueStep(q: Parser)
    requires q.state.HeaderValueStart? && Room(q, 1) && q.errno == OK
    ensures Step(q, CR) == Emit(q.(state := HeaderAlmostDone, nread := q.nread + 1, hstate := General, index := 0), Data(Value, ""))
    ensures Step(q, LF) == Emit(q.(state := HeaderFieldStart, nread := q.nread + 1, index := 0), Data(Value, ""))
  {
  }

  /** The flags a word sets at the end of its line are the ones it means. */
  lemma WordMeans(kind: HeaderState, s: string, f: Flags)
    requires s != ""
    ensures Flagged(f, ValueState(kind, s))
         == if kind.TransferEncoding? && Says(s, "chunked") then f.(chunked := true)
            else if kind.Connection? && Says(s, "keep-alive") then f.(keepAlive := true)
            else if kind.Connection? && Says(s, "close") then f.(close := true)
            else f
  {
    assert "keep-alive"[0] == 'k' && "close"[0] == 'c';
    if Says(s, "keep-alive") { assert s[..10] == "keep-alive"; assert s[0] == 'k'; }
    if Says(s, "close") { assert s[..5] == "close"; assert s[0] == 'c'; }
  }

  /** The header state behind a value: a folded line can only go on with a Content-Length. */
  predicate Folds(kind: HeaderState, v: string, after: HeaderState) {
    && !after.UpgradeHeader? && !after.TransferEncoding? && !after.Connection?
    && (after.ContentLength? <==> kind.ContentLength? && v != "")
  }

  lemma ValueFolds(kind: HeaderState, s: string)
    requires s != ""
    ensures Folds(kind, s, ValueState(kind, s))
  {
    hide Says;
  }

  /** A value and its line break do what the value means, and report it whole. */
  lemma ValueLine(ps: Parser, tr: seq<Event>, v: string, eol: Eol)
    requires ps.state.HeaderValueStart? && ps.errno == OK && Room(ps, |v| + |Break(eol)|) && GoodValue(ps.hstate, v)
    ensures var r := Run(ps, tr, v + Break(eol));
      && !r.stopped && r.trace == Push(tr, Data(Value, v))
      && r.ps == Meant(ps, v).(state := if v == "" && eol.Lf? then HeaderFieldStart else HeaderValueLws,
                               nread := ps.nread + |v| + |Break(eol)|, hstate := r.ps.hstate, index := r.ps.index)
      && (v != "" || eol.CrLf? ==> Folds(ps.hstate, v, r.ps.hstate))
  {
    hide Step, Push, GoodValue, ValueState, Flagged, Says;
    if v == "" {
      assert v + Break(eol) == Break(eol);
      NoValue(ps, tr, eol);
    } else {
      ValueRun(ps, tr, v);
      var q := Run(ps, tr, v);
      ValueEnd(q.ps, q.trace, eol);
      RunConcat(ps, tr, v, Break(eol));
      WordMeans(ps.hstate, LowerAll(v), ps.flags);
      WordMeans(ps.hstate, LowerAll(v), ps.flags.(upgrade := true));
      ValueFolds(ps.hstate, LowerAll(v));
    }
  }

  // ----- header lines

  /** A line that continues a value: blanks, and more of the value. */
  datatype Fold = Fold(gap: string, value: string, eol: Eol)

  /** `gap`: the blanks between the colon and the value. */
  datatype Header = Header(name: string, gap: string, value: string, eol: Eol, folds: seq<Fold>)

  /** What the headers say about the body and the connection. */
  datatype Framing = Framing(length: nat, flags: Flags)

  function FoldText(d: Fold): string { d.gap + d.value + Break(d.eol) }

  function FoldsText(ds: seq<Fold>): string
    decreases |ds|
  {
    if ds == [] then "" else FoldText(ds[0]) + FoldsText(ds[1..])
  }

  /** What the lines add to the value: the blanks are dropped altogether. */
  function FoldsValue(ds: seq<Fold>): string
    decreases |ds|
  {
    if ds == [] then "" else ds[0].value + FoldsValue(ds[1..])
  }

  function LineText(h: Header): string { h.name + ":" + h.gap + h.value + Break(h.eol) }

  function HeaderText(h: Header): string { LineText(h) + FoldsText(h.folds) }

  function WholeValue(h: Header): string { h.value + FoldsValue(h.folds) }

  predicate Blanks(s: string) { forall i :: 0 <= i < |s| ==> IsBlank(s[i]) }

  predicate IsLength(h: Header) { LowerAll(h.name) == "content-length" && h.value != "" }

  predicate GoodFold(d: Fold, isLength: bool) {
    && d.gap != "" && Blanks(d.gap) && d.value != "" && !IsBlank(d.value[0]) && NoLineBreak(d.value)
    && (isLength ==> GoodLength(d.value))
  }

  predicate GoodHeader(h: Header) {
    && h.name != "" && AllTokens(h.name) && Blanks(h.gap)
    && NoLineBreak(h.value) && (h.value != "" ==> !IsBlank(h.value[0])) && (IsLength(h) ==> GoodLength(h.value))
    && (forall d :: d in h.folds ==> GoodFold(d, IsLength(h)))
    && (h.value == "" && h.eol.Lf? ==> h.folds == [])
  }

  /**
   What one header adds. A later Content-Length replaces an earlier one, and so does a folded line of it; for the
   other headers only the first line counts.
   */
  function Apply(f: Framing, h: Header): Framing {
    if IsLength(h) then f.(length := LengthIn(if h.folds == [] then h.value else h.folds[|h.folds| - 1].value))
    else ApplyLine(f, h)
  }

  function ApplyLine(f: Framing, h: Header): Framing {
    var name, value := LowerAll(h.name), LowerAll(h.value);
    if h.value == "" then f
    else if name == "content-length" then f.(length := LengthIn(h.value))
    else if name == "transfer-encoding" && Says(value, "chunked") then f.(flags := f.flags.(chunked := true))
    else if (name == "connection" || name == "proxy-connection") && Says(value, "keep-alive") then
      f.(flags := f.flags.(keepAlive := true))
    else if (name == "connection" || name == "proxy-connection") && Says(value, "close") then
      f.(flags := f.flags.(close := true))
    else if name == "upgrade" then f.(flags := f.flags.(upgrade := true))
    else f
  }

  function FramingOf(q: Parser): Framing { Framing(q.length, q.flags) }

  function Framed(q: Parser, f: Framing): Parser { q.(length := f.length, flags := f.flags) }

  lemma {:induction false} GapRun(ps: Parser, tr: seq<Event>, gap: string)
    requires ps.state.HeaderValueStart? && ps.errno == OK && Room(ps, |gap|)
    requires Blanks(gap)
    ensures Run(ps, tr, gap) == Result(ps.(nread := ps.nread + |gap|), tr, |gap|, false)
    decreases |gap|
  {
    hide Step, IsBlank;
    if gap != "" {
      GapStep(ps, gap[0]);
      PushNone(tr);
      GapRun(ps.(nread := ps.nread + 1), tr, gap[1..]);
    }
  }

  lemma GapStep(q: Parser, ch: char)
    requires q.state.HeaderValueStart? && Room(q, 1) && IsBlank(ch)
    ensures Step(q, ch) == Quiet(q.(nread := q.nread + 1))
  {
  }

  /** Between two header lines the parser may as well be at the start of a line. */
  predicate AtLineStart(q: Parser) { q.state.HeaderFieldStart? || q.state.HeaderValueLws? }

  lemma LineStarts(ps: Parser, tr: seq<Event>, text: string)
    requires AtLineStart(ps) && text != "" && !IsBlank(text[0]) && Room(ps, 1)
    ensures Run(ps, tr, text) == Run(ps.(state := HeaderFieldStart), tr, text)
  {
    StartsAlike(ps, text[0]);
    hide Step;
  }

  lemma StartsAlike(ps: Parser, ch: char)
    requires AtLineStart(ps) && !IsBlank(ch) && Room(ps, 1)
    ensures Step(ps, ch) == Step(ps.(state := HeaderFieldStart), ch)
  {
    hide OnHeaderFieldStart, OnLine, OnUrl, OnVersion, OnChunkSize, OnBody, OnHeaderField, OnHeaderValue, OnHeaderValueStart;
  }

  lemma TokenIsNoBlank(c: char)
    requires Token(c) != '\0'
    ensures !IsBlank(c)
  {
  }

  lemma KindOfName(name: string)
    ensures var hs := NameState(name);
      && (hs.ContentLength? <==> name == "content-length")
      && (hs.TransferEncoding? <==> name == "transfer-encoding")
      && (hs.UpgradeHeader? <==> name == "upgrade")
      && (hs.Connection? <==> name == "connection" || name == "proxy-connection")
  {
  }

  lemma MeantIsApplied(q: Parser, h: Header)
    requires q.hstate == NameState(LowerAll(h.name))
    ensures Meant(q, h.value) == Framed(q, ApplyLine(FramingOf(q), h))
    ensures q.hstate.ContentLength? && h.value != "" <==> IsLength(h)
  {
    KindOfName(LowerAll(h.name));
    hide NameState, LowerAll, Says, LengthIn;
  }

  lemma NameLine(ps: Parser, tr: seq<Event>, h: Header)
    requires ps.state.HeaderFieldStart? && ps.errno == OK && Room(ps, |h.name| + 1 + |h.gap|) && GoodHeader(h)
    ensures var r := Run(ps, tr, h.name + ":" + h.gap);
      && !r.stopped && r.trace == Push(tr, Data(Field, h.name))
      && r.ps == ps.(state := HeaderValueStart, nread := ps.nread + |h.name| + 1 + |h.gap|,
                     hstate := NameState(LowerAll(h.name)), index := r.ps.index)
  {
    hide Step, Push, NameState, LowerAll, Token, GoodLength, GoodFold;
    NameRun(ps, tr, h.name);
    var a := Run(ps, tr, h.name);
    ColonStep(a.ps);
    RunOne(a.ps, a.trace, ':');
    PushNone(a.trace);
    RunConcat(ps, tr, h.name, ":");
    var b := a.ps.(state := HeaderValueStart, nread := a.ps.nread + 1);
    GapRun(b, a.trace, h.gap);
    RunConcat(ps, tr, h.name + ":", h.gap);
  }

  /** The first line of a header is reported as its name and its value. */
  lemma FirstLine(ps: Parser, tr: seq<Event>, h: Header)
    requires AtLineStart(ps) && ps.errno == OK && Room(ps, |LineText(h)|) && GoodHeader(h)
    ensures var r := Run(ps, tr, LineText(h));
      && !r.stopped && r.trace == Push(Push(tr, Data(Field, h.name)), Data(Value, h.value)) && AtLineStart(r.ps)
      && r.ps == Framed(ps, ApplyLine(FramingOf(ps), h)).(state := r.ps.state, nread := ps.nread + |LineText(h)|,
                                                          hstate := r.ps.hstate, index := r.ps.index)
      && (h.folds != [] ==> r.ps.state.HeaderValueLws? && MayFold(r.ps, IsLength(h)))
  {
    hide Step, Push, NameState, LowerAll, Meant, Token, GoodLength, ApplyLine, Framed, IsLength, GoodFold;
    var text, front := LineText(h), h.name + ":" + h.gap;
    assert text == front + (h.value + Break(h.eol));
    assert text[0] == h.name[0];
    TokenIsNoBlank(text[0]);
    LineStarts(ps, tr, text);
    var q := ps.(state := HeaderFieldStart);
    NameLine(q, tr, h);
    var a := Run(q, tr, front);
    KindOfName(LowerAll(h.name));
    MeantIsApplied(a.ps, h);
    ValueLine(a.ps, a.trace, h.value, h.eol);
    RunConcat(q, tr, front, h.value + Break(h.eol));
    SameFields(ps, a.ps, h);
  }

  lemma SameFields(q: Parser, a: Parser, h: Header)
    requires FramingOf(q) == FramingOf(a)
    requires a == q.(state := a.state, hstate := a.hstate, index := a.index, nread := a.nread)
    ensures Framed(a, ApplyLine(FramingOf(a), h))
         == Framed(q, ApplyLine(FramingOf(q), h)).(state := a.state, hstate := a.hstate, index := a.index, nread := a.nread)
  {
    hide ApplyLine;
  }

  predicate MayFold(q: Parser, isLength: bool) {
    !q.hstate.UpgradeHeader? && !q.hstate.TransferEncoding? && !q.hstate.Connection? && (q.hstate.ContentLength? <==> isLength)
  }

  lemma FoldStarts(q: Parser, ch: char)
    requires q.state.HeaderValueLws? && Room(q, 1) && IsBlank(ch)
    ensures Step(q, ch) == Quiet(q.(state := HeaderValueStart, nread := q.nread + 1))
  {
  }

  /** One continuation line prolongs the value. */
  lemma FoldRun(ps: Parser, tr: seq<Event>, d: Fold)
    requires ps.state.HeaderValueLws? && ps.errno == OK && Room(ps, |FoldText(d)|)
    requires MayFold(ps, ps.hstate.ContentLength?) && GoodFold(d, ps.hstate.ContentLength?)
    ensures var r := Run(ps, tr, FoldText(d));
      && !r.stopped && r.trace == Push(tr, Data(Value, d.value)) && MayFold(r.ps, ps.hstate.ContentLength?)
      && r.ps == ps.(nread := ps.nread + |FoldText(d)|, hstate := r.ps.hstate, index := r.ps.index,
                     length := if ps.hstate.ContentLength? then LengthIn(d.value) else ps.length)
  {
    hide Step, Push, LengthIn, GoodLength, IsBlank, NoLineBreak, LowerAll, Says;
    var gap := d.gap;
    assert gap == [gap[0]] + gap[1..];
    FoldStarts(ps, gap[0]);
    RunOne(ps, tr, gap[0]);
    PushNone(tr);
    var q := ps.(state := HeaderValueStart, nread := ps.nread + 1);
    GapRun(q, tr, gap[1..]);
    RunConcat(ps, tr, [gap[0]], gap[1..]);
    var a := q.(nread := q.nread + |gap| - 1);
    ValueLine(a, tr, d.value, d.eol);
    RunConcat(ps, tr, gap, d.value + Break(d.eol));
    assert FoldText(d) == gap + (d.value + Break(d.eol));
  }

  /** Any number of them. */
  lemma {:induction false} FoldsRun(ps: Parser, tr: seq<Event>, v: string, ds: seq<Fold>)
    requires ps.state.HeaderValueLws? && ps.errno == OK && Room(ps, |FoldsText(ds)|)
    requires MayFold(ps, ps.hstate.ContentLength?) && forall d :: d in ds ==> GoodFold(d, ps.hstate.ContentLength?)
    ensures var r := Run(ps, Push(tr, Data(Value, v)), FoldsText(ds));
      && !r.stopped && r.trace == Push(tr, Data(Value, v + FoldsValue(ds)))
      && r.ps == ps.(nread := ps.nread + |FoldsText(ds)|, hstate := r.ps.hstate, index := r.ps.index,
                     length := if ps.hstate.ContentLength? && ds != [] then LengthIn(ds[|ds| - 1].value) else ps.length)
    decreases |ds|
  {
    hide Step, Push, LengthIn, GoodFold, FoldText;
    var tr' := Push(tr, Data(Value, v));
    if ds == [] {
      assert v + "" == v;
    } else {
      var d, rest := ds[0], ds[1..];
      FoldRun(ps, tr', d);
      var a := Run(ps, tr', FoldText(d));
      PushJoins(tr, Value, v, d.value);
      FoldsRun(a.ps, tr, v + d.value, rest);
      RunConcat(ps, tr', FoldText(d), FoldsText(rest));
      assert v + d.value + FoldsValue(rest) == v + FoldsValue(ds);
    }
  }

  /** A whole header is reported as its name and its value, and does what `Apply` says. */
  lemma HeaderLine(ps: Parser, tr: seq<Event>, h: Header)
    requires AtLineStart(ps) && ps.errno == OK && Room(ps, |HeaderText(h)|) && GoodHeader(h)
    ensures var r := Run(ps, tr, HeaderText(h));
      && !r.stopped && r.trace == Push(Push(tr, Data(Field, h.name)), Data(Value, WholeValue(h))) && AtLineStart(r.ps)
      && r.ps == Framed(ps, Apply(FramingOf(ps), h)).(state := r.ps.state, nread := ps.nread + |HeaderText(h)|,
                                                      hstate := r.ps.hstate, index := r.ps.index)
  {
    hide Step, Push, LineText, FoldsText, GoodFold, LowerAll, Says, LengthIn, AllTokens, GoodLength;
    FirstLine(ps, tr, h);
    var a := Run(ps, tr, LineText(h));
    if h.folds == [] {
      assert LineText(h) + FoldsText(h.folds) == LineText(h) by { NoFolds(); }
      assert WholeValue(h) == h.value;
    } else {
      FoldsRun(a.ps, Push(tr, Data(Field, h.name)), h.value, h.folds);
      RunConcat(ps, tr, LineText(h), FoldsText(h.folds));
    }
  }

  lemma NoFolds()
    ensures FoldsText([]) == ""
  {
  }

  function HeadersText(hs: seq<Header>): string
    decreases |hs|
  {
    if hs == [] then "" else HeaderText(hs[0]) + HeadersText(hs[1..])
  }

  function ApplyAll(f: Framing, hs: seq<Header>): Framing
    decreases |hs|
  {
    if hs == [] then f else ApplyAll(Apply(f, hs[0]), hs[1..])
  }

  function HeaderReports(hs: seq<Header>): seq<Event>
    decreases |hs|
  {
    if hs == [] then [] else [Data(Field, hs[0].name), Data(Value, WholeValue(hs[0]))] + HeaderReports(hs[1..])
  }

  lemma FirstHeader(hs: seq<Header>, f: Framing)
    requires hs != []
    ensures HeadersText(hs) == HeaderText(hs[0]) + HeadersText(hs[1..])
    ensures ApplyAll(f, hs) == ApplyAll(Apply(f, hs[0]), hs[1..])
    ensures HeaderReports(hs) == [Data(Field, hs[0].name), Data(Value, WholeValue(hs[0]))] + HeaderReports(hs[1..])
  {
    hide HeaderText, Apply, WholeValue;
  }

  lemma PushPair(tr: seq<Event>, name: string, value: string)
    requires !EndsIn(tr, Field)
    ensures var t := Push(Push(tr, Data(Field, name)), Data(Value, value));
      t == tr + [Data(Field, name), Data(Value, value)] && !EndsIn(t, Field)
  {
    var one, e := tr + [Data(Field, name)], Data(Value, value);
    assert Push(tr, Data(Field, name)) == one;
    assert one[|one| - 1] == Data(Field, name);
    assert Push(one, e) == one + [e];
    var two := one + [e];
    assert two[|two| - 1] == e;
    hide Push;
    assert two == tr + [Data(Field, name), e];
  }

  /** Any number of header lines: each name and each value is reported in one piece, in order. */
  lemma {:induction false} HeaderLines(ps: Parser, tr: seq<Event>, hs: seq<Header>)
    requires AtLineStart(ps) && ps.errno == OK && Room(ps, |HeadersText(hs)|) && !EndsIn(tr, Field)
    requires forall i :: 0 <= i < |hs| ==> GoodHeader(hs[i])
    ensures var r := Run(ps, tr, HeadersText(hs));
      && !r.stopped && r.trace == tr + HeaderReports(hs) && AtLineStart(r.ps)
      && r.ps == Framed(ps, ApplyAll(FramingOf(ps), hs)).(state := r.ps.state, nread := ps.nread + |HeadersText(hs)|,
                                                          hstate := r.ps.hstate, index := r.ps.index)
    decreases |hs|
  {
    hide Step, Apply, GoodHeader, HeaderText, Push, EndsIn, WholeValue;
    if hs != [] {
      FirstHeader(hs, FramingOf(ps));
      hide Run, HeadersText, HeaderReports, ApplyAll;
      var h, rest := hs[0], hs[1..];
      HeaderLine(ps, tr, h);
      var a := Run(ps, tr, HeaderText(h));
      PushPair(tr, h.name, WholeValue(h));
      HeaderLines(a.ps, a.trace, rest);
      RunConcat(ps, tr, HeaderText(h), HeadersText(rest));
      assert a.trace + HeaderReports(rest) == tr + HeaderReports(hs);
    }
  }
}
