/** What escapes and numbers mean, written out as code points and powers of ten. */
module JsonTables {
  import opened StdMap
  import opened Wrappers
  import opened JsonText

  // ----- reading escapes

  /** A backslash and anything but 'u', between quotes of either kind. */
  lemma EscapesRead(e: char, rest: string, delimiter: char)
    requires e != 'u' && (delimiter == '"' || delimiter == '\'')
    ensures StringBody(['\\', e] + rest, delimiter) == Prepend(
      if e == 'b' then [0x08 as char] else if e == 'f' then [0x0C as char] else if e == 'n' then [0x0A as char]
      else if e == 'r' then [0x0D as char] else if e == 't' then [0x09 as char]
      else if e == '\\' || e == '/' || e == delimiter then [e] else ['\\', e], StringBody(rest, delimiter))
  {
    var s := ['\\', e] + rest;
    assert s[2..] == rest && s[2 + 0..] == rest;
  }

  /** Any other character stands for itself, and the delimiter ends the string. */
  lemma CharactersRead(c: char, rest: string, delimiter: char)
    requires c != '\\'
    ensures StringBody([c] + rest, delimiter) ==
      if c == delimiter then Some(("", rest)) else Prepend([c], StringBody(rest, delimiter))
  {
    assert ([c] + rest)[1..] == rest;
  }

  function Weight(c: char): int { c as int - 0x30 }

  /** \u and four decimal digits: the character with that decimal number, modulo 256. */
  lemma UnicodeReads(a: char, b: char, c: char, d: char, rest: string)
    requires '0' <= a <= '9' && '0' <= b <= '9' && '0' <= c <= '9' && '0' <= d <= '9'
    ensures StringBody(['\\', 'u', a, b, c, d] + rest, '"') ==
      Prepend([((1000 * Weight(a) + 100 * Weight(b) + 10 * Weight(c) + Weight(d)) % 0x100) as char], StringBody(rest, '"'))
  {
    DigitsOf([a, b, c, d], "");
    FourDecimal(a, b, c, d);
    assert [a, b, c, d] + "" == [a, b, c, d];
    IntOf([a, b, c, d], "");
    hide StringBody, IntPrefix, Decimal;
    Unicode([a, b, c, d], rest);
  }

  /** Digits count up to the first character that is none; without any there is nothing. */
  lemma UnicodePrefixReads(digits: string, other: string, rest: string)
    requires |digits| + |other| == 4 && AllDigits(digits) && (other == "" || !IsDigit(other[0]))
    requires digits == "" ==> !IsSpace(other[0]) && other[0] != '-' && other[0] != '+'
    ensures StringBody("\\u" + (digits + other) + rest, '"') ==
      Prepend(if digits == "" then "" else [(Decimal(digits) % 0x100) as char], StringBody(rest, '"'))
  {
    DigitsOf(digits, other);
    IntOf(digits, other);
    hide StringBody, IntPrefix, Decimal;
    Unicode(digits + other, rest);
  }

  /** A sign counts: minus stands for the negative number, modulo 256. */
  lemma UnicodeSignReads(sign: char, digits: string, other: string, rest: string)
    requires (sign == '-' || sign == '+') && 1 + |digits| + |other| == 4 && digits != ""
    requires AllDigits(digits) && (other == "" || !IsDigit(other[0]))
    ensures var v: int := Decimal(digits);
      var n := if sign == '-' then -v else v;
      StringBody("\\u" + ([sign] + (digits + other)) + rest, '"') == Prepend([(n % 0x100) as char], StringBody(rest, '"'))
  {
    DigitsOf(digits, other);
    SignedInt(sign, digits + other, digits);
    hide StringBody, IntPrefix, Decimal;
    Unicode([sign] + (digits + other), rest);
  }

  lemma SignedInt(sign: char, u: string, digits: string)
    requires (sign == '-' || sign == '+') && Digits(u) == digits != "" && AllDigits(digits)
    ensures var v: int := Decimal(digits); IntPrefix([sign] + u) == Some(if sign == '-' then -v else v)
  {
    assert ([sign] + u)[1..] == u;
    hide Decimal, Digits;
  }

  /** White space before the number is passed over. */
  lemma UnicodeSpaceReads(space: char, three: string, rest: string)
    requires IsSpace(space) && |three| == 3
    ensures StringBody("\\u" + ([space] + three) + rest, '"') ==
      Prepend(if IntPrefix(three).None? then "" else [(IntPrefix(three).value % 0x100) as char], StringBody(rest, '"'))
  {
    assert ([space] + three)[1..] == three;
    assert SkipWs([space] + three) == SkipWs(three);
    hide StringBody, SkipWs, Decimal;
    assert IntPrefix([space] + three) == IntPrefix(three);
    Unicode([space] + three, rest);
  }

  lemma DigitsOf(digits: string, other: string)
    requires AllDigits(digits) && (other == "" || !IsDigit(other[0]))
    ensures Digits(digits + other) == digits
  {
    DigitsConcat(digits, other);
  }

  lemma IntOf(digits: string, other: string)
    requires AllDigits(digits) && Digits(digits + other) == digits && digits + other != ""
    requires digits == "" ==> !IsSpace(other[0]) && other[0] != '-' && other[0] != '+'
    ensures IntPrefix(digits + other) == if digits == "" then None else Some(Decimal(digits))
  {
    hide Decimal, Digits;
    var s := digits + other;
    assert digits != "" ==> s[0] == digits[0];
  }

  lemma Unicode(four: string, rest: string)
    requires |four| == 4
    ensures StringBody("\\u" + four + rest, '"') ==
      Prepend(if IntPrefix(four).None? then "" else [(IntPrefix(four).value % 0x100) as char], StringBody(rest, '"'))
    ensures "\\u" + four + rest == ['\\', 'u', four[0], four[1], four[2], four[3]] + rest
  {
    var s := "\\u" + four + rest;
    hide IntPrefix, StringBody;
    assert s[2..] == four + rest && s[2..][..4] == four && s[2 + 4..] == rest;
    EscapeIs(s, if IntPrefix(four).None? then "" else [(IntPrefix(four).value % 0x100) as char], 4);
  }

  lemma FourDecimal(a: char, b: char, c: char, d: char)
    requires IsDigit(a) && IsDigit(b) && IsDigit(c) && IsDigit(d)
    ensures AllDigits([a, b, c, d]) && Decimal([a, b, c, d]) == 1000 * Weight(a) + 100 * Weight(b) + 10 * Weight(c) + Weight(d)
  {
    var s := [a, b, c, d];
    assert s[..3] == [a, b, c] && [a, b, c][..2] == [a, b] && [a, b][..1] == [a] && [a][..0] == "";
    assert Decimal([a]) == Weight(a);
    assert Decimal([a, b]) == 10 * Weight(a) + Weight(b);
    assert Decimal([a, b, c]) == 100 * Weight(a) + 10 * Weight(b) + Weight(c);
  }

  /** "\u0041" is no 'A': 41 is the number of a closing parenthesis. */
  lemma UnicodeExample()
    ensures StringBody("\\u0041\"", '"') == Some((")", ""))
  {
    UnicodeReads('0', '0', '4', '1', "\"");
    assert "\\u0041\"" == ['\\', 'u', '0', '0', '4', '1'] + "\"";
    assert ("\"")[1..] == "" && ")" + "" == ")";
  }

  // ----- white space and printed characters

  lemma SpacesAre(c: char)
    ensures IsSpace(c) <==> 0x09 <= c as int <= 0x0D || c as int == 0x20
    ensures EndsLine(c) <==> c as int == 0x0A || c as int == 0x0D
    ensures IsDigit(c) <==> 0x30 <= c as int <= 0x39
  {
  }

  /** What is printed for each character. */
  lemma EscapesPrinted(c: Byte)
    ensures var n := c as int;
      var hex := ["0123456789abcdef"[n / 16], "0123456789abcdef"[n % 16]];
      Escaped(c) ==
        if n == 0x22 then "\\\"" else if n == 0x5C then "\\\\" else if n == 0x2F then "\\/"
        else if n == 0x08 then "\\b" else if n == 0x0C then "\\f" else if n == 0x0A then "\\n"
        else if n == 0x0D then "\\r" else if n == 0x09 then "\\t"
        else if n < 0x20 then "\\u00" + hex else if n >= 0x80 then "\\uffffff" + hex else [c]
  {
    HexDigitIs(c as int / 16);
    HexDigitIs(c as int % 16);
    hide HexDigit;
  }

  lemma HexDigitIs(n: nat)
    requires n < 16
    ensures HexDigit(n) == "0123456789abcdef"[n]
  {
  }

  /** Numbers are printed without leading zeros. */
  lemma {:induction false} NoLeadingZero(n: nat)
    ensures PrintNat(n) != "" && (PrintNat(n)[0] == '0' <==> n == 0) && (n < 10 ==> |PrintNat(n)| == 1)
  {
    if n >= 10 {
      NoLeadingZero(n / 10);
    }
  }

  // ----- reading numbers

  /** 10^n. */
  function Ten(n: nat): real {
    if n == 0 then 1.0 else Ten(n - 1) * 10.0
  }

  lemma {:induction false} TenIs(n: nat)
    ensures Power10(n) == Ten(n) > 0.0
  {
    if n > 0 {
      TenIs(n - 1);
    }
  }

  /** A sign, as it may stand before a number or an exponent. */
  predicate IsSign(s: string) { s == "" || s == "+" || s == "-" }

  function Plain(whole: string, part: string): real
    requires AllDigits(whole) && AllDigits(part)
  {
    TenIs(|part|);
    Decimal(whole) as real + Decimal(part) as real / Ten(|part|)
  }

  /** Multiplied by a power of ten, or divided by it. */
  function Shifted(m: real, esign: string, exponent: string): real
    requires AllDigits(exponent)
  {
    TenIs(Decimal(exponent));
    if esign == "-" then m / Ten(Decimal(exponent)) else m * Ten(Decimal(exponent))
  }

  /** Digits, and perhaps a decimal point and more digits; at least one digit in all. */
  predicate IsMantissa(whole: string, point: bool, part: string) {
    AllDigits(whole) && AllDigits(part) && whole + part != "" && (!point ==> part == "")
  }

  function Written(whole: string, point: bool, part: string): string {
    if point then whole + "." + part else whole
  }

  /** The digits before the point are ones, those behind it tenths and so on. */
  lemma DecimalsRead(sign: string, whole: string, point: bool, part: string, rest: string)
    requires IsSign(sign) && IsMantissa(whole, point, part) && EndsNumber(rest)
    ensures ReadReal(sign + (Written(whole, point, part) + rest)) ==
      (Some(if sign == "-" then -Plain(whole, part) else Plain(whole, part)), rest)
  {
    SignIs(sign, Written(whole, point, part) + rest);
    MantissaIs(whole, point, part, rest);
    hide Unsigned, Signed, Mantissa, AfterMantissa, HasMantissa, Scaled;
  }

  /** The same with an exponent, upper or lower case, of either sign. */
  lemma ExponentsRead(sign: string, whole: string, point: bool, part: string, e: char, esign: string, exponent: string, rest: string)
    requires IsSign(sign) && IsMantissa(whole, point, part)
    requires (e == 'e' || e == 'E') && IsSign(esign) && AllDigits(exponent) && exponent != ""
    requires rest == "" || !IsDigit(rest[0])
    ensures var m := if sign == "-" then -Plain(whole, part) else Plain(whole, part);
      ReadReal(sign + (Written(whole, point, part) + ([e] + (esign + (exponent + rest))))) == (Some(Shifted(m, esign, exponent)), rest)
  {
    var m := if sign == "-" then -Plain(whole, part) else Plain(whole, part);
    hide *;
    ExponentParts(sign, whole, point, part, e, esign, exponent, rest);
    ScaledIs(m, esign, exponent, rest);
  }

  lemma ExponentParts(sign: string, whole: string, point: bool, part: string, e: char, esign: string, exponent: string, rest: string)
    requires IsSign(sign) && IsMantissa(whole, point, part)
    requires (e == 'e' || e == 'E') && IsSign(esign) && AllDigits(exponent) && exponent != ""
    requires rest == "" || !IsDigit(rest[0])
    ensures var m := if sign == "-" then -Plain(whole, part) else Plain(whole, part);
      var power := esign + (exponent + rest);
      ReadReal(sign + (Written(whole, point, part) + ([e] + power))) == (Some(Scaled(m, power)), rest)
  {
    hide Unsigned, Signed, Mantissa, AfterMantissa, HasMantissa, Digits, After, ReadReal, Scaled;
    var tail, power := [e] + (esign + (exponent + rest)), esign + (exponent + rest);
    SignIs(sign, Written(whole, point, part) + tail);
    MantissaIs(whole, point, part, tail);
    assert tail[1..] == power;
    SignIs(esign, exponent + rest);
    DigitsConcat(exponent, rest);
    AfterDigits(exponent, rest);
    Assembled(sign + (Written(whole, point, part) + tail), tail);
  }

  lemma AfterDigits(digits: string, rest: string)
    ensures After(digits + rest, digits) == rest
  {
  }

  /** The number is put together from its parts. */
  lemma Assembled(s: string, tail: string)
    requires HasMantissa(Unsigned(s)) && AfterMantissa(Unsigned(s)) == tail && HasExponent(tail)
    requires Digits(Unsigned(tail[1..])) != ""
    ensures ReadReal(s) == (Some(Scaled(Signed(s, Mantissa(Unsigned(s))), tail[1..])),
                            After(Unsigned(tail[1..]), Digits(Unsigned(tail[1..]))))
  {
    hide Unsigned, HasMantissa, AfterMantissa, Digits, Mantissa, Scaled, Signed, After;
  }

  lemma ScaledIs(m: real, esign: string, exponent: string, rest: string)
    requires IsSign(esign) && AllDigits(exponent) && exponent != "" && (rest == "" || !IsDigit(rest[0]))
    ensures Scaled(m, esign + (exponent + rest)) == Shifted(m, esign, exponent)
  {
    SignIs(esign, exponent + rest);
    DigitsConcat(exponent, rest);
    TenIs(Decimal(exponent));
    assert (esign + (exponent + rest))[0] == '-' <==> esign == "-";
    hide Unsigned, Digits;
  }

  lemma SignIs(sign: string, u: string)
    requires IsSign(sign) && (u == "" || (u[0] != '-' && u[0] != '+'))
    ensures Unsigned(sign + u) == u && forall x: real :: Signed(sign + u, x) == if sign == "-" then -x else x
  {
    if sign == "" {
      assert sign + u == u;
    } else {
      assert (sign + u)[1..] == u;
    }
  }

  lemma MantissaIs(whole: string, point: bool, part: string, tail: string)
    requires IsMantissa(whole, point, part) && (tail == "" || (!IsDigit(tail[0]) && tail[0] != '.'))
    ensures var u := Written(whole, point, part) + tail;
      HasMantissa(u) && AfterMantissa(u) == tail && Mantissa(u) == Plain(whole, part) && u != "" && u[0] != '-' && u[0] != '+'
  {
    if point {
      PointIs(whole, part, tail);
    } else {
      WholeIs(whole, tail);
    }
  }

  lemma PointIs(whole: string, part: string, tail: string)
    requires AllDigits(whole) && AllDigits(part) && whole + part != "" && (tail == "" || !IsDigit(tail[0]))
    ensures var u := whole + "." + part + tail;
      HasMantissa(u) && AfterMantissa(u) == tail && Mantissa(u) == Plain(whole, part) && u[0] != '-' && u[0] != '+'
  {
    var u, t := whole + "." + part + tail, "." + part + tail;
    assert u == whole + t && t[1..] == part + tail;
    DigitsConcat(whole, t);
    DigitsConcat(part, tail);
    AfterDigits(whole, t);
    AfterDigits(part, tail);
    TenIs(|part|);
    assert whole != "" ==> u[0] == whole[0];
    hide Digits, Decimal, After;
  }

  lemma WholeIs(whole: string, tail: string)
    requires AllDigits(whole) && whole != "" && (tail == "" || (!IsDigit(tail[0]) && tail[0] != '.'))
    ensures var u := whole + tail;
      HasMantissa(u) && AfterMantissa(u) == tail && Mantissa(u) == Plain(whole, "") && u[0] != '-' && u[0] != '+'
  {
    DigitsConcat(whole, tail);
    AfterDigits(whole, tail);
    TenIs(0);
    assert Decimal("") == 0;
    hide Digits, Decimal, After;
  }

  lemma MinusOneAndAHalf()
    ensures ReadReal("-1.5,") == (Some(-1.5), ",")
  {
    hide ReadReal, Decimal, Ten;
    OneDigit('1');
    OneDigit('5');
    Tens();
    DecimalsRead("-", "1", true, "5", ",");
    assert "1" + "." + "5" + "," == "1.5," && "-" + "1.5," == "-1.5,";
  }

  lemma TwentyFive()
    ensures ReadReal("+2.50e+1]") == (Some(25.0), "]")
  {
    hide ReadReal, Decimal, Ten;
    OneDigit('1');
    OneDigit('2');
    TwoDigits('5', '0');
    Tens();
    ExponentsRead("+", "2", true, "50", 'e', "+", "1", "]");
    assert ['e'] + ("+" + ("1" + "]")) == "e+1]";
    assert "2" + "." + "50" + "e+1]" == "2.50e+1]" && "+" + "2.50e+1]" == "+2.50e+1]";
  }

  lemma FiveThousandths()
    ensures ReadReal(".5E-2") == (Some(0.005), "")
  {
    hide ReadReal, Decimal, Ten;
    OneDigit('2');
    OneDigit('5');
    Tens();
    ExponentsRead("", "", true, "5", 'E', "-", "2", "");
    assert ['E'] + ("-" + ("2" + "")) == "E-2";
    assert "" + "." + "5" + "E-2" == ".5E-2" && "" + ".5E-2" == ".5E-2";
  }

  lemma Tens()
    ensures Ten(0) == 1.0 && Ten(1) == 10.0 && Ten(2) == 100.0
  {
  }

  lemma OneDigit(c: char)
    requires IsDigit(c)
    ensures Decimal([c]) == Weight(c) && Decimal("") == 0
  {
    assert [c][..0] == "";
  }

  lemma TwoDigits(a: char, b: char)
    requires IsDigit(a) && IsDigit(b)
    ensures AllDigits([a, b]) && Decimal([a, b]) == 10 * Weight(a) + Weight(b)
  {
    OneDigit(a);
    assert [a, b][..1] == [a];
  }

  // ----- a value of every kind

  const ITEMS: List<Json> := Cons(Null, Cons(Bool(true), Cons(Float(-12.0), Nil)))

  const SAMPLE := Obj(Cons(("a", Arr(ITEMS)), Nil))

  /** It is one of those that come back, and this is its text. */
  lemma SampleIsPrinted()
    ensures Legal(SAMPLE) && Print(SAMPLE) == "{\"a\": [null, true, -12]}"
  {
    SampleIsLegal(ITEMS);
    QuotedOne('a', "a");
    assert "\"" + "a" + "\"" == "\"a\"";
    ItemsPrinted(ITEMS);
    SampleText();
    hide *;
    SampleAssembled();
  }

  lemma SampleAssembled()
    ensures "{" + ("\"a\"" + ": " + "[null, true, -12]" + "") + "}" == "{\"a\": [null, true, -12]}"
  {
    assert "\"a\"" + ": " == "\"a\": ";
    assert "\"a\": " + "[null, true, -12]" == "\"a\": [null, true, -12]";
    assert "\"a\": [null, true, -12]" + "" == "\"a\": [null, true, -12]";
    assert "{" + "\"a\": [null, true, -12]" == "{\"a\": [null, true, -12]";
  }

  lemma SampleText()
    requires Legal(SAMPLE) && LegalItems(ITEMS)
    ensures Print(SAMPLE) == "{" + (Quoted("a") + ": " + ("[" + PrintItems(ITEMS) + "]") + "") + "}"
  {
    hide Quoted, PrintItems;
  }

  lemma SampleIsLegal(items: List<Json>)
    requires items == Cons(Null, Cons(Bool(true), Cons(Float(-12.0), Nil)))
    ensures LegalItems(items) && Legal(SAMPLE)
  {
    assert (-12.0).Floor == -12;
    assert Legal(Null) && Legal(Bool(true)) && Legal(Float(-12.0));
    assert Clean("a");
  }

  lemma QuotedOne(c: Byte, e: string)
    requires Escaped(c) == e
    ensures Quoted([c]) == "\"" + e + "\""
  {
    assert [c][1..] == "" && EscapedAll("") == "" && e + "" == e;
    assert EscapedAll([c]) == Escaped(c) + EscapedAll("");
  }

  lemma ItemsPrinted(items: List<Json>)
    requires items == Cons(Null, Cons(Bool(true), Cons(Float(-12.0), Nil))) && LegalItems(items)
    ensures "[" + PrintItems(items) + "]" == "[null, true, -12]"
  {
    TwelvePrinted();
    hide PrintInt;
    assert (-12.0).Floor == -12;
    assert PrintItems(items.rest.rest) == "-12" + "" == "-12";
    TextsOfItems(items);
  }

  lemma TwelvePrinted()
    ensures PrintInt(-12) == "-12"
  {
    assert PrintNat(1) == "1" && PrintNat(12) == "1" + "2" == "12";
    assert "-" + "12" == "-12";
  }

  lemma TextsOfItems(items: List<Json>)
    requires LegalItems(items) && items.Cons? && items.first == Null && items.rest.Cons? && items.rest.first == Bool(true)
    requires items.rest.rest.Cons? && LegalItems(items.rest) && LegalItems(items.rest.rest) && PrintItems(items.rest.rest) == "-12"
    ensures "[" + PrintItems(items) + "]" == "[null, true, -12]"
  {
    assert PrintItems(items.rest) == "true" + (", " + "-12") == "true, -12";
    assert PrintItems(items) == "null" + (", " + "true, -12") == "null, true, -12";
  }
}
