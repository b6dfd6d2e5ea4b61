/** JSON values as jsonxx prints them, and how it reads strings back. */
module JsonText {
  import opened StdMap
  import opened Wrappers

  /** `Value`. A number is a FLOAT_ if it parses as one and a NUMBER_ otherwise. */
  datatype Json =
    | Null
    | Bool(b: bool)
    | Float(x: real)
    | Number(y: real)
    | Str(s: string)
    | Arr(items: List<Json>)
    | Obj(members: List<(string, Json)>)

  // ----- strings

  function HexDigit(n: nat): char
    requires n < 16
  {
    if n < 10 then ('0' as int + n) as char else ('a' as int + n - 10) as char
  }

  /** Two hexadecimal digits. */
  function Hex2(n: nat): string
    requires n < 256
  {
    [HexDigit(n / 16), HexDigit(n % 16)]
  }

  type Byte = c: char | c as int < 256 witness 'a'

  /**
   What `stream_string` prints for one character. `char` is signed, so characters from 0x80 on are below 32 as
   well, and are widened to eight digits.
   */
  function Escaped(c: Byte): string {
    if c == '"' then "\\\""
    else if c == '\\' then "\\\\"
    else if c == '/' then "\\/"
    else if c == '\U{08}' then "\\b"
    else if c == '\U{0C}' then "\\f"
    else if c == '\n' then "\\n"
    else if c == '\r' then "\\r"
    else if c == '\t' then "\\t"
    else if c as int < 32 then "\\u00" + Hex2(c as int)
    else if c as int >= 128 then "\\uffffff" + Hex2(c as int)
    else [c]
  }

  function EscapedAll(s: seq<Byte>): string {
    if s == [] then "" else Escaped(s[0]) + EscapedAll(s[1..])
  }

  function Quoted(s: seq<Byte>): string {
    "\"" + EscapedAll(s) + "\""
  }

  predicate IsSpace(c: char) { c == ' ' || '\t' <= c <= '\r' }

  predicate IsDigit(c: char) { '0' <= c <= '9' }

  function SkipWs(s: string): string
    decreases |s|
  {
    if s != "" && IsSpace(s[0]) then SkipWs(s[1..]) else s
  }

  predicate EndsLine(c: char) { c == '\r' || c == '\n' }

  /** The text from the next line end on. */
  function DropLine(s: string): (t: string)
    ensures |t| <= |s|
    decreases |s|
  {
    if s != "" && !EndsLine(s[0]) then DropLine(s[1..]) else s
  }

  lemma {:induction false} SkipWsShortens(s: string)
    ensures |SkipWs(s)| <= |s|
    decreases |s|
  {
    if s != "" && IsSpace(s[0]) {
      SkipWsShortens(s[1..]);
    }
  }

  /** Behind a comment, which runs to the end of its line, and the white space after it. */
  function AfterComment(s: string): (t: string)
    requires "//" <= s
    ensures |t| < |s|
  {
    SkipWsShortens(DropLine(s[2..]));
    SkipWs(DropLine(s[2..]))
  }

  /** Behind any number of comments. */
  function SkipComments(s: string): (t: string)
    ensures !("//" <= t)
    decreases |s|
  {
    if "//" <= s then SkipComments(AfterComment(s)) else s
  }

  /** Where the next token starts. */
  function Skip(s: string): string { SkipComments(SkipWs(s)) }

  /** How many characters the two have in common at the start. */
  function Common(s: string, t: string): (n: nat)
    ensures n <= |s| && n <= |t| && s[..n] == t[..n] && (n < |s| && n < |t| ==> s[n] != t[n])
  {
    if s == "" || t == "" || s[0] != t[0] then 0
    else
      var n := 1 + Common(s[1..], t[1..]);
      assert s[..n] == [s[0]] + s[1..][..n - 1];
      assert t[..n] == [t[0]] + t[1..][..n - 1];
      n
  }

  function Digits(s: string): string
    decreases |s|
  {
    if s != "" && IsDigit(s[0]) then [s[0]] + Digits(s[1..]) else ""
  }

  predicate AllDigits(s: string) { forall i :: 0 <= i < |s| ==> IsDigit(s[i]) }

  lemma {:induction false} DigitsAreDigits(s: string)
    ensures AllDigits(Digits(s)) && |Digits(s)| <= |s|
    decreases |s|
  {
    if s != "" && IsDigit(s[0]) {
      DigitsAreDigits(s[1..]);
    }
  }

  function Decimal(s: string): nat
    requires AllDigits(s)
    decreases |s|
  {
    assert s != "" ==> IsDigit(s[|s| - 1]);
    if s == "" then 0 else 10 * Decimal(s[..|s| - 1]) + (s[|s| - 1] as int - '0' as int)
  }

  /** `stringstream >> int`: a decimal number, whatever follows it. */
  function IntPrefix(s: string): Option<int> {
    var t := SkipWs(s);
    var signed := t != "" && (t[0] == '-' || t[0] == '+');
    var u := if signed then t[1..] else t;
    DigitsAreDigits(u);
    var d: int := Decimal(Digits(u));
    if Digits(u) == "" then None else Some(if signed && t[0] == '-' then -d else d)
  }

  /** `push_back(i)`. */
  function LowByte(i: int): Byte {
    (i % 256) as char
  }

  /** What a backslash and `ch` stand for: the characters, and how many more have been read. None: not enough left. */
  function Unescaped(ch: char, after: string, delimiter: char): Option<(string, nat)> {
    if ch == '\\' || ch == '/' then Some(([ch], 0))
    else if ch == 'b' then Some((['\U{08}'], 0))
    else if ch == 'f' then Some((['\U{0C}'], 0))
    else if ch == 'n' then Some((['\n'], 0))
    else if ch == 'r' then Some((['\r'], 0))
    else if ch == 't' then Some((['\t'], 0))
    else if ch == 'u' then
      if |after| < 4 then None
      else match IntPrefix(after[..4])
        case Some(i) => Some(([LowByte(i)], 4))
        case None => Some(("", 4))
    else if ch != delimiter then Some((['\\', ch], 0))
    else Some(([ch], 0))
  }

  /** The loop of `parse_string`: the value up to the delimiter and what follows it. */
  function StringBody(s: string, delimiter: char): Option<(string, string)>
    decreases |s|
  {
    if s == "" then None
    else if s[0] == delimiter then Some(("", s[1..]))
    else if s[0] == '\\' then
      if |s| == 1 then None
      else
        match Unescaped(s[1], s[2..], delimiter)
        case None => None
        case Some((chars, more)) => if more <= |s| - 2 then Prepend(chars, StringBody(s[2 + more..], delimiter)) else None
    else Prepend([s[0]], StringBody(s[1..], delimiter))
  }

  function Prepend(chars: string, r: Option<(string, string)>): Option<(string, string)> {
    if r.None? then None else Some((chars + r.value.0, r.value.1))
  }

  lemma PrependNothing(r: Option<(string, string)>)
    ensures Prepend("", r) == r
  {
    if r.Some? {
      assert "" + r.value.0 == r.value.0;
    }
  }

  /** The characters that survive: \\u is written in hexadecimal but read in decimal. */
  predicate Survives(c: char) {
    c as int <= 0x0A || c as int == 0x0C || c as int == 0x0D || 0x20 <= c as int < 0x80
  }

  predicate Clean(s: string) { forall i :: 0 <= i < |s| ==> Survives(s[i]) }

  /** One character that survives is read back as itself. */
  lemma CharRoundTrip(c: Byte, rest: string)
    requires Survives(c)
    ensures StringBody(Escaped(c) + rest, '"') == Prepend([c], StringBody(rest, '"'))
  {
    if |Escaped(c)| == 2 {
      PairEscape(c, Escaped(c), rest);
    } else if |Escaped(c)| == 6 {
      UnicodeEscape(c, rest);
    } else {
      Plain(c, rest);
    }
    hide StringBody;
  }

  /** The escapes of two characters. */
  lemma PairEscape(c: Byte, e: string, rest: string)
    requires e == Escaped(c) && |e| == 2
    ensures StringBody(e + rest, '"') == Prepend([c], StringBody(rest, '"'))
  {
    hide IntPrefix, Hex2;
    var s := e + rest;
    assert s[2..] == rest && s[0] == '\\' && s[1] == e[1];
    assert Unescaped(e[1], rest, '"') == Some(([c], 0));
    assert s[2 + 0..] == rest;
    hide Unescaped, Escaped;
  }

  /** \\u00xx is read as the decimal number xx, up to the first digit that is not decimal. */
  lemma UnicodeEscape(c: Byte, rest: string)
    requires c as int < 32 && |Escaped(c)| == 6
    ensures StringBody(Escaped(c) + rest, '"') ==
      Prepend([DecimalOfHex(c as int) as char], StringBody(rest, '"'))
  {
    var hex := Hex2(c as int);
    assert Escaped(c) == "\\u00" + hex && c as int < 32 by { hide StringBody, Hex2; }
    UnicodeText(hex, rest);
    UnicodeValue(c, rest);
    hide *;
    EscapeIs(Escaped(c) + rest, [DecimalOfHex(c as int) as char], 4);
  }

  /** What the two hexadecimal digits of `n` mean in decimal. */
  function DecimalOfHex(n: int): (r: nat)
    requires 0 <= n < 32
    ensures r < 20
  {
    if n % 16 < 10 then 10 * (n / 16) + n % 16 else n / 16
  }

  lemma UnicodeValue(c: Byte, rest: string)
    requires c as int < 32
    ensures Unescaped('u', "00" + Hex2(c as int) + rest, '"') == Some(([DecimalOfHex(c as int) as char], 4))
  {
    var hex := Hex2(c as int);
    FourDigits(hex[0], hex[1]);
    hide IntPrefix;
    assert ("00" + hex + rest)[..4] == ['0', '0', hex[0], hex[1]];
  }

  lemma UnicodeText(hex: string, rest: string)
    requires |hex| == 2
    ensures var s, after := "\\u00" + hex + rest, "00" + hex + rest;
      s[0] == '\\' && s[1] == 'u' && s[2..] == after && s[6..] == rest && |after| >= 4
  {
  }

  /** An escape and what follows it. */
  lemma EscapeIs(s: string, chars: string, more: nat)
    requires |s| >= 2 + more && s[0] == '\\' && Unescaped(s[1], s[2..], '"') == Some((chars, more))
    ensures StringBody(s, '"') == Prepend(chars, StringBody(s[2 + more..], '"'))
  {
    hide Unescaped;
  }

  lemma FourDigits(a: char, b: char)
    requires a == '0' || a == '1'
    ensures IntPrefix(['0', '0', a, b]) ==
      Some(if IsDigit(b) then 10 * (a as int - '0' as int) + (b as int - '0' as int) else a as int - '0' as int)
  {
    var s := ['0', '0', a, b];
    assert s[1..] == ['0', a, b] && s[1..][1..] == [a, b] && [a, b][1..] == [b] && [b][1..] == "";
    assert Digits([b]) == if IsDigit(b) then [b] else "";
    assert Digits([a, b]) == [a] + Digits([b]);
    assert Digits(['0', a, b]) == ['0'] + Digits([a, b]);
    assert Digits(s) == ['0'] + Digits(['0', a, b]);
    var t := ['0', '0', a];
    assert t[..2] == ['0', '0'] && ['0', '0'][..1] == ['0'] && ['0'][..0] == "";
    assert Decimal(['0']) == 0;
    assert Decimal(['0', '0']) == 0;
    assert Decimal(t) == a as int - '0' as int;
    if IsDigit(b) {
      assert Digits(s) == s && s[..3] == t;
    } else {
      assert Digits(s) == t;
    }
  }

  /** A string is read back as itself exactly when all its characters survive. */
  lemma {:induction false} StringRoundTrip(s: seq<Byte>, rest: string)
    ensures StringBody(EscapedAll(s) + "\"" + rest, '"') == Some((s, rest)) <==> Clean(s)
    decreases |s|
  {
    var tail := EscapedAll(s[if s == [] then 0 else 1..]) + "\"" + rest;
    if s == [] {
      assert EscapedAll(s) + "\"" + rest == "\"" + rest;
      assert ("\"" + rest)[1..] == rest;
    } else {
      assert EscapedAll(s) + "\"" + rest == Escaped(s[0]) + tail;
      StringRoundTrip(s[1..], rest);
      if Survives(s[0]) {
        CharRoundTrip(s[0], tail);
        assert [s[0]] + s[1..] == s;
        assert Clean(s) <==> Clean(s[1..]) by {
          assert forall i :: 0 <= i < |s| - 1 ==> s[1..][i] == s[i + 1];
        }
        PrependIsInjective(s[0], StringBody(tail, '"'), s[1..], rest);
      } else {
        CharIsLost(s[0], tail);
      }
    }
  }

  lemma PrependIsInjective(c: char, r: Option<(string, string)>, s: string, rest: string)
    ensures Prepend([c], r) == Some(([c] + s, rest)) <==> r == Some((s, rest))
  {
    if r.Some? {
      assert ([c] + r.value.0)[1..] == r.value.0 && ([c] + s)[1..] == s;
    }
  }

  /** A character that does not survive is read as something that starts differently. */
  lemma CharIsLost(c: Byte, rest: string)
    requires !Survives(c)
    ensures var r := StringBody(Escaped(c) + rest, '"'); r.Some? ==> r.value.0 != "" && r.value.0[0] != c
  {
    if c as int < 32 {
      UnicodeEscape(c, rest);
    } else {
      WideEscape(c, rest);
    }
  }

  /** Characters from 0x80 on are read as the last four of their eight digits. */
  lemma WideEscape(c: Byte, rest: string)
    requires c as int >= 128
    ensures StringBody(Escaped(c) + rest, '"') == Prepend("ff" + Hex2(c as int), StringBody(rest, '"'))
  {
    var hex := Hex2(c as int);
    assert Escaped(c) == "\\uffffff" + hex by { hide StringBody, Hex2; }
    hide StringBody, Escaped, Prepend;
    var t := ['f', 'f', hex[0], hex[1]] + rest;
    WideText(hex, rest);
    WideStart(t);
    FourPlain('f', 'f', hex[0], hex[1], rest);
    PrependNothing(StringBody(t, '"'));
  }

  lemma WideText(hex: string, rest: string)
    requires |hex| == 2
    ensures "\\uffffff" + hex + rest == "\\uffff" + (['f', 'f', hex[0], hex[1]] + rest)
    ensures "ff" + hex == ['f', 'f', hex[0], hex[1]]
  {
  }

  /** Four hexadecimal digits none of which is decimal stand for nothing. */
  lemma WideStart(t: string)
    ensures StringBody("\\uffff" + t, '"') == Prepend("", StringBody(t, '"'))
  {
    var s := "\\uffff" + t;
    assert s[0] == '\\' && s[1] == 'u' && s[2..6] == "ffff" && s[6..] == t;
    assert s[2..][..4] == "ffff" && SkipWs("ffff") == "ffff" && Digits("ffff") == "";
  }

  lemma FourPlain(a: char, b: char, c: char, d: char, rest: string)
    requires forall x :: x in [a, b, c, d] ==> x != '"' && x != '\\'
    ensures StringBody([a, b, c, d] + rest, '"') == Prepend([a, b, c, d], StringBody(rest, '"'))
  {
    hide StringBody;
    assert a in [a, b, c, d] && b in [a, b, c, d] && c in [a, b, c, d] && d in [a, b, c, d];
    Plain(d, rest);
    Plain(c, [d] + rest);
    Plain(b, [c] + ([d] + rest));
    Plain(a, [b] + ([c] + ([d] + rest)));
    hide *;
    FourInFront(a, b, c, d, rest);
    PrependFour(a, b, c, d, StringBody(rest, '"'));
  }

  lemma FourInFront(a: char, b: char, c: char, d: char, rest: string)
    ensures [a] + ([b] + ([c] + ([d] + rest))) == [a, b, c, d] + rest
  {
  }

  lemma PrependFour(a: char, b: char, c: char, d: char, r: Option<(string, string)>)
    ensures Prepend([a], Prepend([b], Prepend([c], Prepend([d], r)))) == Prepend([a, b, c, d], r)
  {
    if r.Some? {
      FourInFront(a, b, c, d, r.value.0);
    }
  }

  lemma Plain(c: char, rest: string)
    requires c != '"' && c != '\\'
    ensures StringBody([c] + rest, '"') == Prepend([c], StringBody(rest, '"'))
  {
    assert ([c] + rest)[1..] == rest;
  }

  // ----- numbers

  function PrintNat(n: nat): string {
    if n < 10 then [HexDigit(n)] else PrintNat(n / 10) + [HexDigit(n % 10)]
  }

  function PrintInt(n: int): string {
    if n < 0 then "-" + PrintNat(-n) else PrintNat(n)
  }

  function Power10(n: nat): real {
    if n == 0 then 1.0 else 10.0 * Power10(n - 1)
  }

  lemma {:induction false} Power10IsPositive(n: nat)
    ensures Power10(n) > 0.0
  {
    if n > 0 {
      Power10IsPositive(n - 1);
    }
  }

  function After(s: string, digits: string): string {
    if |digits| <= |s| then s[|digits|..] else ""
  }

  /** The text after an optional sign. */
  function Unsigned(s: string): string {
    if s != "" && (s[0] == '-' || s[0] == '+') then s[1..] else s
  }

  function Signed(s: string, x: real): real {
    if s != "" && s[0] == '-' then -x else x
  }

  /** The digits behind a decimal point. */
  function Fraction(s: string): string {
    if s != "" && s[0] == '.' then Digits(s[1..]) else ""
  }

  /** What follows the digits, a decimal point and more digits. */
  function AfterMantissa(s: string): string {
    var t := After(s, Digits(s));
    if t != "" && t[0] == '.' then After(t[1..], Digits(t[1..])) else t
  }

  predicate HasMantissa(s: string) {
    Digits(s) != "" || Fraction(After(s, Digits(s))) != ""
  }

  predicate HasExponent(s: string) {
    s != "" && (s[0] == 'e' || s[0] == 'E')
  }

  function Mantissa(s: string): real {
    var part := Fraction(After(s, Digits(s)));
    DigitsAreDigits(s);
    FractionIsDigits(After(s, Digits(s)));
    Power10IsPositive(|part|);
    Decimal(Digits(s)) as real + Decimal(part) as real / Power10(|part|)
  }

  lemma FractionIsDigits(s: string)
    ensures AllDigits(Fraction(s))
  {
    if s != "" && s[0] == '.' {
      DigitsAreDigits(s[1..]);
    }
  }

  /** Multiplied by a power of ten, which `s` has the signed exponent of. */
  function Scaled(m: real, s: string): real {
    var e := Digits(Unsigned(s));
    DigitsAreDigits(Unsigned(s));
    Power10IsPositive(Decimal(e));
    if s != "" && s[0] == '-' then m / Power10(Decimal(e)) else m * Power10(Decimal(e))
  }

  function RealValue(s: string): Option<real> {
    var u := Unsigned(s);
    var v := AfterMantissa(u);
    var m := Signed(s, Mantissa(u));
    if !HasMantissa(u) then None
    else if !HasExponent(v) then Some(m)
    else if Digits(Unsigned(v[1..])) == "" then None
    else Some(Scaled(m, v[1..]))
  }

  /** What follows the characters that can belong to a number. */
  function RealEnd(s: string): string {
    var u := Unsigned(s);
    var v := AfterMantissa(u);
    if HasMantissa(u) && HasExponent(v) then After(Unsigned(v[1..]), Digits(Unsigned(v[1..]))) else v
  }

  /**
   `stream >> float` behind white space: the value, if the characters that can belong to a number make one, and
   what follows these characters. The value is not rounded.
   */
  function ReadReal(s: string): (Option<real>, string) {
    (RealValue(s), RealEnd(s))
  }

  predicate InNumber(c: char) { IsDigit(c) || c == '.' || c == 'e' || c == 'E' }

  /** What follows a number is not taken for a part of it. */
  predicate EndsNumber(rest: string) { rest == "" || !InNumber(rest[0]) }

  lemma {:induction false} DigitsConcat(d: string, rest: string)
    requires AllDigits(d) && (rest == "" || !IsDigit(rest[0]))
    ensures Digits(d + rest) == d
    decreases |d|
  {
    if d == "" {
      assert d + rest == rest;
    } else {
      assert (d + rest)[1..] == d[1..] + rest;
      DigitsConcat(d[1..], rest);
    }
  }

  lemma {:induction false} PrintedNat(n: nat)
    ensures AllDigits(PrintNat(n)) && PrintNat(n) != "" && Decimal(PrintNat(n)) == n
  {
    if n >= 10 {
      PrintedNat(n / 10);
      assert PrintNat(n)[..|PrintNat(n)| - 1] == PrintNat(n / 10);
    } else {
      assert PrintNat(n)[..0] == "";
    }
  }

  /** An integer is read back as itself. */
  lemma IntRoundTrip(n: int, rest: string)
    requires EndsNumber(rest)
    ensures ReadReal(PrintInt(n) + rest) == (Some(n as real), rest)
    ensures PrintInt(n) != "" && !IsSpace(PrintInt(n)[0]) && (PrintInt(n)[0] == '-' || IsDigit(PrintInt(n)[0]))
  {
    var k := if n < 0 then -n else n;
    var s, d := PrintInt(n) + rest, PrintNat(k);
    PrintedNat(k);
    SignedText(n, rest);
    DigitsConcat(d, rest);
    WholeNumber(d, rest);
    hide Digits, Decimal, Power10, Scaled, Mantissa, AfterMantissa, HasMantissa, Fraction, After, PrintNat, PrintInt, Unsigned;
  }

  lemma SignedText(n: int, rest: string)
    ensures var k, s := if n < 0 then -n else n, PrintInt(n);
      && Unsigned(s + rest) == PrintNat(k) + rest && s != "" && !IsSpace(s[0])
      && (s[0] == '-' || IsDigit(s[0])) && (n < 0 <==> (s + rest)[0] == '-') && (s + rest)[0] != '+'
  {
    var k := if n < 0 then -n else n;
    var d := PrintNat(k);
    PrintedNat(k);
    hide PrintNat, AllDigits, Decimal;
    if n < 0 {
      assert "-" + d + rest == "-" + (d + rest);
    }
  }

  /** Nothing but digits. */
  lemma WholeNumber(d: string, rest: string)
    requires AllDigits(d) && d != "" && EndsNumber(rest) && Digits(d + rest) == d
    ensures var u := d + rest;
      HasMantissa(u) && AfterMantissa(u) == rest && Mantissa(u) == Decimal(d) as real
  {
    assert After(d + rest, d) == rest;
    assert Fraction(rest) == "";
    assert Decimal("") == 0 && Power10(0) == 1.0;
    hide Digits, Fraction;
  }

  // ----- values

  /** The values that come back: integers below a million print in full. */
  predicate Legal(v: Json) {
    match v
    case Null => true
    case Bool(_) => true
    case Float(x) => x == x.Floor as real && -1000000 < x.Floor < 1000000
    case Number(_) => false
    case Str(s) => Clean(s)
    case Arr(items) => LegalItems(items)
    case Obj(members) => LegalMembers(members) && Sorted(members)
  }

  predicate LegalItems(items: List<Json>) {
    items.Cons? ==> Legal(items.first) && LegalItems(items.rest)
  }

  predicate LegalMembers(members: List<(string, Json)>) {
    members.Cons? ==> Clean(members.first.0) && Legal(members.first.1) && LegalMembers(members.rest)
  }

  /** `operator<<`. */
  function Print(v: Json): string
    requires Legal(v)
    decreases v
  {
    match v
    case Null => "null"
    case Bool(b) => if b then "true" else "false"
    case Float(x) => PrintInt(x.Floor)
    case Str(s) => Quoted(s)
    case Arr(items) => "[" + PrintItems(items) + "]"
    case Obj(members) => "{" + PrintMembers(members) + "}"
  }

  function PrintItems(items: List<Json>): string
    requires LegalItems(items)
    decreases items
  {
    if items.Nil? then "" else Print(items.first) + if items.rest.Nil? then "" else ", " + PrintItems(items.rest)
  }

  function PrintMembers(members: List<(string, Json)>): string
    requires LegalMembers(members)
    decreases members
  {
    if members.Nil? then ""
    else Quoted(members.first.0) + ": " + Print(members.first.1)
         + if members.rest.Nil? then "" else ", " + PrintMembers(members.rest)
  }

  /** What a value starts with tells what it is. */
  lemma PrintStarts(v: Json)
    requires Legal(v)
    ensures var s := Print(v);
      && s != "" && !IsSpace(s[0]) && s[0] != '/' && s[0] != ']' && s[0] != '}' && s[0] != '\''
      && (s[0] == '"' <==> v.Str?) && (s[0] == '[' <==> v.Arr?) && (s[0] == '{' <==> v.Obj?)
      && (s[0] == 'n' <==> v.Null?) && (s[0] == 't' || s[0] == 'f' <==> v.Bool?)
      && (s[0] == '-' || IsDigit(s[0]) <==> v.Float?)
  {
    if v.Float? {
      IntRoundTrip(v.x.Floor, "");
    }
  }
}
