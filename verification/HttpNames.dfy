/**
 The recognisers inside the parser are exact: request methods, the header names that matter, and plain decimal
 Content-Length values.
 */
module HttpNames {
  import opened HttpTypes
  import opened HttpStep
  import opened HttpRun

  // ----- request methods

  /** The method the automaton holds after the letters `w`, if it has not failed. */
  function Recognise(w: string): MethodGuess
    decreases |w|
  {
    if |w| == 0 then NoMethod
    else if |w| == 1 then FirstMethod(w[0])
    else
      match Recognise(w[..|w| - 1])
      case NoMethod => NoMethod
      case Guess(v) => NextGuess(v, |w| - 1, w[|w| - 1])
  }

  function NextGuess(v: Method, index: nat, ch: char): MethodGuess {
    if ch == '\0' then NoMethod
    else if ch == CharAt(MethodName(v), index) then Guess(v)
    else SwitchMethod(v, index, ch)
  }

  /** A switch goes to a method that agrees with the letters read so far. */
  lemma SwitchAgrees(v: Method, index: nat, ch: char)
    requires 1 <= index <= |MethodName(v)| && NextGuess(v, index, ch).Guess?
    ensures var m := NextGuess(v, index, ch).verb;
      index < |MethodName(m)| && MethodName(m)[..index + 1] == MethodName(v)[..index] + [ch]
  {
    NamesHaveNoNul(v, index);
    hide MethodName, SwitchMethod;
    var m := NextGuess(v, index, ch).verb;
    if ch != CharAt(MethodName(v), index) {
      SwitchLetters(v, index, ch);
    }
    SamePrefix(MethodName(m), MethodName(v), index);
  }

  lemma NamesHaveNoNul(v: Method, index: nat)
    ensures CharAt(MethodName(v), index) == '\0' <==> index >= |MethodName(v)|
  {
  }

  lemma SamePrefix(s: string, t: string, n: nat)
    requires n < |s| && n <= |t| && forall i :: 0 <= i < n ==> s[i] == t[i]
    ensures s[..n + 1] == t[..n] + [s[n]]
  {
  }

  lemma SwitchLetters(v: Method, index: nat, ch: char)
    requires SwitchMethod(v, index, ch).Guess?
    ensures var m := SwitchMethod(v, index, ch).verb;
      index < |MethodName(v)| && index < |MethodName(m)| && MethodName(m)[index] == ch
      && forall i :: 0 <= i < index ==> MethodName(m)[i] == MethodName(v)[i]
  {
    var m := SwitchMethod(v, index, ch).verb;
    if v == CONNECT {
      assert m == CHECKOUT || m == COPY;
    } else if v == MKCOL {
      assert m == MOVE || m == MERGE || m == MSEARCH || m == MKACTIVITY;
    } else if v == POST {
      assert m == PROPFIND || m == PUT || m == PATCH;
    } else {
      assert m == SEARCH || m == PURGE || m == UNSUBSCRIBE || m == PROPPATCH;
    }
  }

  lemma {:induction false} RecogniseSound(w: string)
    requires Recognise(w).Guess?
    ensures var v := Recognise(w).verb; 1 <= |w| <= |MethodName(v)| && w == MethodName(v)[..|w|]
    decreases |w|
  {
    if |w| > 1 {
      hide MethodName, NextGuess;
      var u := w[..|w| - 1];
      RecogniseSound(u);
      SwitchAgrees(Recognise(u).verb, |u|, w[|w| - 1]);
      assert w == u + [w[|w| - 1]];
    } else {
      assert w == [w[0]];
    }
  }

  /** The method held after the first `i` letters of the name of `m`. */
  function Path(m: Method, i: nat): Method {
    match m
    case CHECKOUT => if i < 2 then CONNECT else m
    case COPY => if i < 3 then CONNECT else m
    case MOVE => if i < 2 then MKCOL else m
    case MERGE => if i < 2 then MKCOL else m
    case MSEARCH => if i < 2 then MKCOL else m
    case MKACTIVITY => if i < 3 then MKCOL else m
    case SEARCH => if i < 2 then SUBSCRIBE else m
    case PROPFIND => if i < 2 then POST else m
    case PROPPATCH => if i < 2 then POST else if i < 5 then PROPFIND else m
    case PUT => if i < 2 then POST else m
    case PURGE => if i < 2 then POST else if i < 3 then PUT else m
    case PATCH => if i < 2 then POST else m
    case UNSUBSCRIBE => if i < 3 then UNLOCK else m
    case _ => m
  }

  lemma PathStep(m: Method, i: nat)
    requires 1 <= i < |MethodName(m)|
    ensures NextGuess(Path(m, i), i, MethodName(m)[i]) == Guess(Path(m, i + 1))
  {
    if Path(m, i) != m {
      assert i == 1 || i == 2 || i == 3 || i == 4;
    }
  }

  lemma {:induction false} RecogniseComplete(m: Method, i: nat)
    requires 1 <= i <= |MethodName(m)|
    ensures Recognise(MethodName(m)[..i]) == Guess(Path(m, i))
    decreases i
  {
    if i > 1 {
      hide NextGuess, MethodName;
      var w := MethodName(m)[..i];
      assert w[..i - 1] == MethodName(m)[..i - 1];
      RecogniseComplete(m, i - 1);
      PathStep(m, i - 1);
    } else {
      assert MethodName(m)[..1] == [MethodName(m)[0]];
    }
  }

  /** Room left for `n` more header bytes. */
  predicate Room(ps: Parser, n: nat) { ps.nread + n <= MAX_HEADER_SIZE }

  lemma MethodStep(q: Parser, ch: char)
    requires q.state.ReqMethod? && Room(q, 1) && ch != ' '
    ensures var o := Step(q, ch);
      match NextGuess(q.verb, q.index, ch)
      case NoMethod => o.stop && o.ps.errno != OK
      case Guess(m) =>
        !o.stop && o.events == [] && o.ps == q.(verb := m, index := q.index + 1, nread := q.nread + 1)
  {
    hide MethodName, SwitchMethod;
  }

  lemma FirstStep(q: Parser, ch: char)
    requires q.state.StartReq? && Room(q, 1) && ch != CR && ch != LF
    ensures var o := Step(q, ch);
      match FirstMethod(ch)
      case NoMethod => o.stop && o.ps.errno != OK
      case Guess(m) =>
        && !o.stop && o.events == [MessageBegin]
        && o.ps == q.(state := ReqMethod, verb := m, index := 1, nread := q.nread + 1, flags := NO_FLAGS, length := NO_LENGTH)
  {
  }

  lemma {:induction false} MethodRun(ps: Parser, tr: seq<Event>, w: string)
    requires ps.state.StartReq? && ps.errno == OK && Room(ps, |w|)
    requires w != "" && ' ' !in w && w[0] != CR && w[0] != LF
    ensures var r := Run(ps, tr, w);
      match Recognise(w)
      case NoMethod => r.stopped && r.ps.errno != OK
      case Guess(m) =>
        && !r.stopped && r.trace == tr + [MessageBegin]
        && r.ps == ps.(state := ReqMethod, verb := m, index := |w|, nread := ps.nread + |w|, flags := NO_FLAGS,
                       length := NO_LENGTH)
    decreases |w|
  {
    hide Step, FirstMethod, NextGuess;
    if |w| == 1 {
      assert w == [w[0]];
      FirstStep(ps, w[0]);
      RunOne(ps, tr, w[0]);
    } else {
      var u, ch := w[..|w| - 1], w[|w| - 1];
      assert w == u + [ch];
      MethodRun(ps, tr, u);
      RunConcat(ps, tr, u, [ch]);
      var r := Run(ps, tr, u);
      if Recognise(u).Guess? {
        MethodStep(r.ps, ch);
        RunSnoc(ps, tr, u, ch);
      }
    }
  }

  /**
   A word followed by a space is accepted as a method exactly when it is one of the 26 method names, and the
   method recorded is that one.
   */
  lemma MethodsAreExact(ps: Parser, tr: seq<Event>, w: string)
    requires ps.state.StartReq? && ps.errno == OK && Room(ps, |w| + 1)
    requires w != "" && ' ' !in w && w[0] != CR && w[0] != LF
    ensures var r := Run(ps, tr, w + " ");
      && (r.ps.errno == OK <==> exists m: Method :: w == MethodName(m))
      && (r.ps.errno == OK ==>
            && !r.stopped && w == MethodName(r.ps.verb) && r.trace == tr + [MessageBegin]
            && r.ps == ps.(state := ReqSpacesBeforeUrl, verb := r.ps.verb, index := |w| + 1,
                           nread := ps.nread + |w| + 1, flags := NO_FLAGS, length := NO_LENGTH))
  {
    hide Step, NextGuess, MethodName;
    MethodRun(ps, tr, w);
    RunConcat(ps, tr, w, " ");
    var r := Run(ps, tr, w);
    if exists m: Method :: w == MethodName(m) {
      var m: Method :| w == MethodName(m);
      assert w == MethodName(m)[..|w|];
      RecogniseComplete(m, |w|);
      PathEnds(m);
    }
    if Recognise(w).Guess? {
      RecogniseSound(w);
      RunSnoc(ps, tr, w, ' ');
      SpaceStep(r.ps);
      assert w == MethodName(r.ps.verb)[..|w|];
    }
  }

  lemma PathEnds(m: Method)
    ensures Path(m, |MethodName(m)|) == m
  {
  }

  lemma SpaceIsNoLetter(v: Method, index: nat)
    ensures CharAt(MethodName(v), index) != ' ' && SwitchMethod(v, index, ' ').NoMethod?
    ensures index < |MethodName(v)| ==> CharAt(MethodName(v), index) != '\0'
  {
  }

  lemma SpaceStep(q: Parser)
    requires q.state.ReqMethod? && Room(q, 1) && 1 <= q.index <= |MethodName(q.verb)| && q.errno == OK
    ensures var o := Step(q, ' ');
      if q.index == |MethodName(q.verb)|
      then !o.stop && o.events == [] && o.ps == q.(state := ReqSpacesBeforeUrl, index := q.index + 1, nread := q.nread + 1)
      else o.stop && o.ps.errno != OK
  {
    SpaceIsNoLetter(q.verb, q.index);
    hide MethodName, SwitchMethod;
  }

  // ----- header names

  function LowerAll(s: string): string {
    seq(|s|, i requires 0 <= i < |s| => ToLower(s[i]))
  }

  /** What a lower-cased header name, or the beginning of one, is recognised as. */
  function NameState(s: string): HeaderState {
    if s == "connection" || s == "proxy-connection" then Connection
    else if s == "content-length" then ContentLength
    else if s == "transfer-encoding" then TransferEncoding
    else if s == "upgrade" then UpgradeHeader
    else if s <= "con" then (if |s| == 1 then C else if |s| == 2 then CO else CON)
    else if s <= "connection" then MatchingConnection
    else if s <= "content-length" then MatchingContentLength
    else if s <= "proxy-connection" then MatchingProxyConnection
    else if s <= "transfer-encoding" then MatchingTransferEncoding
    else if s <= "upgrade" then MatchingUpgrade
    else General
  }

  lemma PrefixSnoc(s: string, c: char, word: string)
    ensures s + [c] <= word <==> s <= word && |s| < |word| && c == word[|s|]
    ensures s + [c] == word <==> s <= word && |s| + 1 == |word| && c == word[|s|]
  {
    if s + [c] <= word {
      assert s == word[..|s|];
      assert (s + [c])[|s|] == c;
    }
    if s <= word && |s| < |word| && c == word[|s|] {
      assert word[..|s| + 1] == s + [c];
    }
  }

  /** The five names part ways at their first, or fourth, letter. */
  lemma Letters(s: string)
    requires s != ""
    ensures s <= "con" ==> s[0] == 'c' && s <= "connection" && s <= "content-length" && |s| <= 3
    ensures s <= "connection" ==> s[0] == 'c' && |s| <= 10 && (|s| <= 3 ==> s <= "con") && (|s| > 3 ==> s[3] == 'n')
    ensures s <= "content-length" ==> s[0] == 'c' && |s| <= 14 && (|s| <= 3 ==> s <= "con") && (|s| > 3 ==> s[3] == 't')
    ensures s <= "proxy-connection" ==> s[0] == 'p' && |s| <= 16
    ensures s <= "transfer-encoding" ==> s[0] == 't' && |s| <= 17
    ensures s <= "upgrade" ==> s[0] == 'u' && |s| <= 7
    ensures s == "connection" <==> s <= "connection" && |s| == 10
    ensures s == "content-length" <==> s <= "content-length" && |s| == 14
    ensures s == "proxy-connection" <==> s <= "proxy-connection" && |s| == 16
    ensures s == "transfer-encoding" <==> s <= "transfer-encoding" && |s| == 17
    ensures s == "upgrade" <==> s <= "upgrade" && |s| == 7
  {
  }

  lemma PrefixesSnoc(s: string, c: char)
    ensures s + [c] <= "con" <==> s <= "con" && |s| < 3 && c == "con"[|s|]
    ensures s + [c] <= "connection" <==> s <= "connection" && |s| < 10 && c == "connection"[|s|]
    ensures s + [c] <= "content-length" <==> s <= "content-length" && |s| < 14 && c == "content-length"[|s|]
    ensures s + [c] <= "proxy-connection" <==> s <= "proxy-connection" && |s| < 16 && c == "proxy-connection"[|s|]
    ensures s + [c] <= "transfer-encoding" <==> s <= "transfer-encoding" && |s| < 17 && c == "transfer-encoding"[|s|]
    ensures s + [c] <= "upgrade" <==> s <= "upgrade" && |s| < 7 && c == "upgrade"[|s|]
  {
    PrefixSnoc(s, c, "con");
    PrefixSnoc(s, c, "connection");
    PrefixSnoc(s, c, "content-length");
    PrefixSnoc(s, c, "proxy-connection");
    PrefixSnoc(s, c, "transfer-encoding");
    PrefixSnoc(s, c, "upgrade");
  }

  /** What one more character makes of the header state behind `n` characters. */
  function NextName(hs: HeaderState, n: nat, c: char): HeaderState {
    match hs
    case C => if c == 'o' then CO else General
    case CO => if c == 'n' then CON else General
    case CON => if c == 'n' then MatchingConnection else if c == 't' then MatchingContentLength else General
    case General => General
    case Connection => General
    case ContentLength => General
    case TransferEncoding => General
    case UpgradeHeader => General
    case _ => MatchNext(hs, n, c)
  }

  /** One more token character takes the header state to that of the longer name. */
  lemma NameStateStep(s: string, c: char)
    requires s != "" && c != '\0'
    ensures NameState(s + [c]) == NextName(NameState(s), |s|, c)
  {
    hide *;
    if s <= "con" {
      ShortNameStep(s, c);
    } else {
      LongNameStep(s, c);
    }
  }

  lemma ShortNameStep(s: string, c: char)
    requires s != "" && s <= "con"
    ensures NameState(s + [c]) == NextName(NameState(s), |s|, c)
  {
    var t := s + [c];
    Letters(s);
    Letters(t);
    PrefixesSnoc(s, c);
    hide MatchNext;
  }

  lemma LongNameStep(s: string, c: char)
    requires s != "" && !(s <= "con") && c != '\0'
    ensures NameState(s + [c]) == NextName(NameState(s), |s|, c)
  {
    var t := s + [c];
    assert t[0] == s[0] && (|s| > 3 ==> t[3] == s[3]);
    Letters(s);
    Letters(t);
    PrefixesSnoc(s, c);
    assert !(t <= "con") && t != "con";
  }

  predicate AllTokens(w: string) { forall i :: 0 <= i < |w| ==> Token(w[i]) != '\0' }

  lemma TokenLowers(c: char)
    requires Token(c) != '\0'
    ensures Token(c) == ToLower(c) && c != ' '
  {
  }

  lemma LowerSnoc(s: string, c: char)
    ensures LowerAll(s + [c]) == LowerAll(s) + [ToLower(c)]
  {
  }

  lemma FieldStep(q: Parser, s: string, ch: char)
    requires q.state.HeaderField? && Room(q, 1) && s != "" && Token(ch) != '\0' && q.errno == OK
    requires q.hstate == NameState(s) && (q.hstate != General ==> q.index == |s| - 1)
    ensures var o := Step(q, ch);
      && !o.stop && o.events == [Data(Field, [ch])]
      && o.ps == q.(nread := q.nread + 1, hstate := NameState(s + [ToLower(ch)]), index := o.ps.index)
      && (o.ps.hstate != General ==> o.ps.index == |s|)
  {
    TokenLowers(ch);
    NameStateStep(s, ToLower(ch));
    hide NameState, Token, ToLower, MatchNext;
  }

  lemma FieldFirst(q: Parser, ch: char)
    requires q.state.HeaderFieldStart? && Room(q, 1) && Token(ch) != '\0' && q.errno == OK
    ensures var o := Step(q, ch);
      && !o.stop && o.events == [Data(Field, [ch])]
      && o.ps == q.(state := HeaderField, nread := q.nread + 1, hstate := NameState([ToLower(ch)]), index := 0)
  {
    TokenLowers(ch);
    Letters([ToLower(ch)]);
    FirstLetter(ToLower(ch));
    hide NameState, Token, ToLower;
  }

  lemma FirstLetter(c: char)
    ensures NameState([c]) == FirstHeaderState(c)
  {
    Letters([c]);
  }

  lemma {:induction false} NameRun(ps: Parser, tr: seq<Event>, w: string)
    requires ps.state.HeaderFieldStart? && ps.errno == OK && Room(ps, |w|) && w != "" && AllTokens(w)
    ensures var r := Run(ps, tr, w);
      && !r.stopped && r.trace == Push(tr, Data(Field, w))
      && r.ps == ps.(state := HeaderField, nread := ps.nread + |w|, hstate := NameState(LowerAll(w)), index := r.ps.index)
      && (r.ps.hstate != General ==> r.ps.index == |w| - 1)
    decreases |w|
  {
    hide Step, NameState, Token, ToLower;
    if |w| == 1 {
      assert w == [w[0]];
      assert LowerAll(w) == [ToLower(w[0])];
      FieldFirst(ps, w[0]);
      RunOne(ps, tr, w[0]);
      PushOne(tr, Data(Field, w));
    } else {
      var u, ch := w[..|w| - 1], w[|w| - 1];
      assert w == u + [ch];
      NameRun(ps, tr, u);
      LowerSnoc(u, ch);
      FieldStep(Run(ps, tr, u).ps, LowerAll(u), ch);
      RunSnoc(ps, tr, u, ch);
      PushOne(Push(tr, Data(Field, u)), Data(Field, [ch]));
      PushJoins(tr, Field, u, [ch]);
    }
  }

  /**
   At the colon after a header name the header state is one of the four that matter exactly when the name,
   in lower case, is that header's name (or "proxy-connection" for "connection").
   */
  lemma HeaderNamesAreExact(ps: Parser, tr: seq<Event>, w: string)
    requires ps.state.HeaderFieldStart? && ps.errno == OK && Room(ps, |w| + 1) && w != "" && AllTokens(w)
    ensures var r := Run(ps, tr, w + ":");
      && !r.stopped && r.trace == Push(tr, Data(Field, w))
      && r.ps == ps.(state := HeaderValueStart, nread := ps.nread + |w| + 1, hstate := r.ps.hstate, index := r.ps.index)
      && (r.ps.hstate.ContentLength? <==> LowerAll(w) == "content-length")
      && (r.ps.hstate.TransferEncoding? <==> LowerAll(w) == "transfer-encoding")
      && (r.ps.hstate.UpgradeHeader? <==> LowerAll(w) == "upgrade")
      && (r.ps.hstate.Connection? <==> LowerAll(w) == "connection" || LowerAll(w) == "proxy-connection")
  {
    NameRun(ps, tr, w);
    RunSnoc(ps, tr, w, ':');
    ColonStep(Run(ps, tr, w).ps);
    hide Step, Run, LowerAll;
  }

  lemma ColonStep(q: Parser)
    requires q.state.HeaderField? && Room(q, 1)
    ensures Step(q, ':') == Quiet(q.(state := HeaderValueStart, nread := q.nread + 1))
  {
  }

  // ----- Content-Length

  predicate AllDigits(d: string) { forall i :: 0 <= i < |d| ==> IsNum(d[i]) }

  function Decimal(d: string): nat
    requires AllDigits(d)
    decreases |d|
  {
    if d == "" then 0 else 10 * Decimal(d[..|d| - 1]) + Digit(d[|d| - 1])
  }

  /** A digit that is not rejected is appended exactly when the true value fits in 64 bits. */
  lemma AppendExact(length: nat, base: nat, digit: nat)
    requires length < NO_LENGTH && (base == 10 || base == 16) && digit < base
    ensures var t := AppendDigit(length, base, digit);
      && (base * length + digit < NO_LENGTH ==> t == base * length + digit && !Overflows(length, t))
      && (t == base * length + digit <==> base * length + digit < TWO_64)
      && (!Overflows(length, t) ==> t < NO_LENGTH)
  {
    if base == 10 {
    } else {
    }
  }

  lemma LengthFirst(q: Parser, ch: char)
    requires q.state.HeaderValueStart? && q.hstate.ContentLength? && Room(q, 1) && IsNum(ch) && q.errno == OK
    ensures var o := Step(q, ch);
      && !o.stop && o.ps.state.HeaderValue? && o.ps.hstate.ContentLength? && o.ps.nread == q.nread + 1
      && o.ps.errno == OK && o.ps.length == Digit(ch)
  {
  }

  lemma LengthStep(q: Parser, ch: char)
    requires q.state.HeaderValue? && q.hstate.ContentLength? && Room(q, 1) && IsNum(ch) && q.errno == OK
    ensures var o := Step(q, ch);
      var t := AppendDigit(q.length, 10, Digit(ch));
      if Overflows(q.length, t) then o.stop && o.ps.errno == INVALID_CONTENT_LENGTH
      else !o.stop && o.ps == q.(length := t, nread := q.nread + 1)
  {
    hide AppendDigit, Overflows;
  }

  /** The value of a decimal Content-Length is stored exactly if and only if it is below 2^64 - 1. */
  lemma {:induction false} ContentLengthIsExact(ps: Parser, tr: seq<Event>, d: string)
    requires ps.state.HeaderValueStart? && ps.hstate.ContentLength? && ps.errno == OK && Room(ps, |d|)
    requires d != "" && AllDigits(d)
    ensures var r := Run(ps, tr, d);
      && (!r.stopped && r.ps.length == Decimal(d) <==> Decimal(d) < NO_LENGTH)
      && (!r.stopped ==> r.ps.state.HeaderValue? && r.ps.hstate.ContentLength? && r.ps.length < NO_LENGTH
                         && r.ps.nread == ps.nread + |d| && r.ps.errno == OK)
    decreases |d|
  {
    hide Step, AppendDigit, Overflows;
    if |d| == 1 {
      assert d == [d[0]] && d[..0] == "";
      assert Decimal(d) == 10 * Decimal(d[..0]) + Digit(d[0]);
      LengthFirst(ps, d[0]);
      RunOne(ps, tr, d[0]);
    } else {
      var u, ch := d[..|d| - 1], d[|d| - 1];
      assert d == u + [ch];
      ContentLengthIsExact(ps, tr, u);
      RunConcat(ps, tr, u, [ch]);
      var r := Run(ps, tr, u);
      if !r.stopped {
        LengthStep(r.ps, ch);
        RunSnoc(ps, tr, u, ch);
        AppendExact(r.ps.length, 10, Digit(ch));
      }
    }
  }

  /** The counter wraps digit by digit. */
  lemma AppendWraps(value: nat, base: nat, digit: nat)
    requires base == 10 || base == 16
    ensures AppendDigit(value % TWO_64, base, digit) == (base * value + digit) % TWO_64
  {
    var q, low := value / TWO_64, value % TWO_64;
    if base == 10 {
      assert 10 * value + digit == 10 * q * TWO_64 + (10 * low + digit);
      WholeTurns(10 * q, 10 * low + digit);
    } else {
      assert 16 * value + digit == 16 * q * TWO_64 + (16 * low + digit);
      WholeTurns(16 * q, 16 * low + digit);
    }
  }

  lemma WholeTurns(q: nat, n: nat)
    ensures (q * TWO_64 + n) % TWO_64 == n % TWO_64
  {
    var m := n / TWO_64;
    assert q * TWO_64 + n == (q + m) * TWO_64 + n % TWO_64;
  }

  /** The overflow test strikes at the digit `d[k]`. */
  predicate StrikesAt(d: string, k: nat)
    requires AllDigits(d) && k < |d|
  {
    Overflows(Decimal(d[..k]) % TWO_64, Decimal(d[..k + 1]) % TWO_64)
  }

  /** The first digit is not tested. */
  predicate Strikes(d: string)
    requires AllDigits(d)
  {
    exists k :: 1 <= k < |d| && StrikesAt(d, k)
  }

  lemma StrikesSnoc(u: string, c: char)
    requires AllDigits(u) && IsNum(c)
    ensures AllDigits(u + [c]) && (Strikes(u + [c]) <==> Strikes(u) || (u != "" && StrikesAt(u + [c], |u|)))
  {
    hide Decimal;
    var d := u + [c];
    forall k | 0 <= k < |u| ensures StrikesAt(d, k) <==> StrikesAt(u, k) {
      assert d[..k] == u[..k] && d[..k + 1] == u[..k + 1];
    }
  }

  /**
   What becomes of any value: it is rejected exactly when the test strikes at some digit, where it compares the two
   values before and after the digit, both modulo 2^64; otherwise it is stored modulo 2^64.
   */
  lemma {:induction false} ContentLengthIsModular(ps: Parser, tr: seq<Event>, d: string)
    requires ps.state.HeaderValueStart? && ps.hstate.ContentLength? && ps.errno == OK && Room(ps, |d|)
    requires d != "" && AllDigits(d)
    ensures var r := Run(ps, tr, d);
      && (r.stopped <==> Strikes(d))
      && (if r.stopped then r.ps.errno == INVALID_CONTENT_LENGTH
          else r.ps.state.HeaderValue? && r.ps.hstate.ContentLength? && r.ps.length == Decimal(d) % TWO_64
               && r.ps.nread == ps.nread + |d| && r.ps.errno == OK)
    decreases |d|
  {
    hide Step, AppendDigit, Overflows, Run, Strikes;
    if |d| == 1 {
      OneDigit(d[0]);
      assert d == [d[0]];
      LengthFirst(ps, d[0]);
      RunOne(ps, tr, d[0]);
    } else {
      hide Decimal;
      var u, ch := d[..|d| - 1], d[|d| - 1];
      assert d == u + [ch];
      ContentLengthIsModular(ps, tr, u);
      StrikesSnoc(u, ch);
      DecimalSnoc(u, ch);
      RunConcat(ps, tr, u, [ch]);
      var r := Run(ps, tr, u);
      if !r.stopped {
        LengthStep(r.ps, ch);
        RunSnoc(ps, tr, u, ch);
        AppendWraps(Decimal(u), 10, Digit(ch));
        assert d[..|u|] == u && d[..|u| + 1] == d;
      }
    }
  }

  lemma OneDigit(c: char)
    requires IsNum(c)
    ensures Decimal([c]) == Digit(c) < TWO_64 && !Strikes([c])
  {
    assert [c][..0] == "";
  }

  /** The test misses nothing that exceeds 2^64 by less than a ninth (for hexadecimal digits, a fifteenth). */
  lemma StrikesInTime(value: nat, base: nat, digit: nat)
    requires base == 10 || base == 16
    requires digit < base
    requires NO_LENGTH <= base * value + digit
    requires (base - 1) * (base * value + digit) < base * NO_LENGTH
    ensures value < TWO_64 && Overflows(value, (base * value + digit) % TWO_64)
  {
    var t := base * value + digit;
    if base == 10 {
      assert t < 2 * TWO_64;
      assert 9 * value + digit < TWO_64;
    } else {
      assert t < 2 * TWO_64;
      assert 15 * value + digit < TWO_64;
    }
    assert t >= TWO_64 ==> t % TWO_64 == t - TWO_64;
  }

  /** So every value from 2^64 - 1 up to that bound is rejected; only larger ones may slip through. */
  lemma SlightExcessIsRejected(ps: Parser, tr: seq<Event>, d: string)
    requires ps.state.HeaderValueStart? && ps.hstate.ContentLength? && ps.errno == OK && Room(ps, |d|)
    requires AllDigits(d) && NO_LENGTH <= Decimal(d) && 9 * Decimal(d) < 10 * NO_LENGTH
    ensures Run(ps, tr, d).stopped && Run(ps, tr, d).ps.errno == INVALID_CONTENT_LENGTH
  {
    var u, ch := d[..|d| - 1], d[|d| - 1];
    assert d == u + [ch];
    DecimalSnoc(u, ch);
    StrikesInTime(Decimal(u), 10, Digit(ch));
    assert u != "" && d[..|u|] == u && d[..|u| + 1] == d;
    assert Decimal(u) % TWO_64 == Decimal(u);
    assert StrikesAt(d, |u|);
    ContentLengthIsModular(ps, tr, d);
  }

  /** `n` zeros. */
  function Noughts(n: nat): (s: string)
    ensures |s| == n
  {
    if n == 0 then "" else Noughts(n - 1) + "0"
  }

  function Power10(n: nat): nat {
    if n == 0 then 1 else 10 * Power10(n - 1)
  }

  lemma {:induction false} NoughtsScale(d: string, n: nat)
    requires AllDigits(d)
    ensures AllDigits(d + Noughts(n)) && Decimal(d + Noughts(n)) == Decimal(d) * Power10(n)
  {
    if n == 0 {
      assert d + Noughts(0) == d;
    } else {
      hide Decimal;
      NoughtsScale(d, n - 1);
      assert d + Noughts(n) == d + Noughts(n - 1) + "0";
      DecimalSnoc(d + Noughts(n - 1), '0');
    }
  }

  lemma DecimalSnoc(d: string, c: char)
    requires AllDigits(d) && IsNum(c)
    ensures AllDigits(d + [c]) && Decimal(d + [c]) == 10 * Decimal(d) + Digit(c)
  {
    assert (d + [c])[..|d|] == d;
  }

  /**
   But a larger value is not always rejected: the overflow test takes a sum that has wrapped for a sum when it
   happens to be large. "3" with nineteen zeros is accepted as 11553255926290448384.
   */
  lemma ContentLengthMayWrap(ps: Parser, tr: seq<Event>)
    requires ps.state.HeaderValueStart? && ps.hstate.ContentLength? && ps.errno == OK && Room(ps, 20)
    ensures var d := "3" + Noughts(19);
      var r := Run(ps, tr, d);
      && AllDigits(d) && Decimal(d) == 30_000_000_000_000_000_000
      && !r.stopped && r.ps.length == 11_553_255_926_290_448_384
  {
    hide Step, Run, Decimal;
    var u := "3" + Noughts(18);
    DecimalSnoc("", '3');
    assert Decimal("") == 0 by { NoDigits(); }
    assert "" + ['3'] == "3";
    assert Power10(6) == 1_000_000;
    assert Power10(12) == 1_000_000 * 1_000_000;
    assert Power10(18) == 1_000_000 * 1_000_000 * 1_000_000;
    assert Power10(19) == 10 * Power10(18);
    NoughtsScale("3", 18);
    NoughtsScale("3", 19);
    assert "3" + Noughts(19) == u + ['0'];
    ContentLengthIsExact(ps, tr, u);
    LengthStep(Run(ps, tr, u).ps, '0');
    RunSnoc(ps, tr, u, '0');
  }

  lemma NoDigits()
    ensures Decimal("") == 0
  {
  }
}
