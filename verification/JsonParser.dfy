/** The stream parser of jsonxx, permissive as configured, on the state of an input string stream. */
module JsonParser {
  import opened StdMap
  import opened Wrappers
  import opened JsonText
  import opened JsonGrammar

  /** `std::istringstream`; `failed` stands for both failbit and badbit. */
  class Input {
    const text: string
    var pos: nat
    var eof: bool
    var failed: bool

    ghost predicate Valid()
      reads this
    {
      pos <= |text|
    }

    predicate Good()
      reads this
    {
      !eof && !failed
    }

    /** What has not been read yet. */
    ghost function Rest(): string
      reads this
      requires Valid()
    {
      text[pos..]
    }

    constructor (text: string)
      ensures Valid() && Good() && pos == 0 && this.text == text
    {
      this.text := text;
      pos, eof, failed := 0, false, false;
    }

    /** `input.get(ch)`; a failing call leaves `ch` alone. */
    method Get(ch: char) returns (ch': char)
      requires Valid()
      modifies this
      ensures Valid() && old(pos) <= pos <= old(pos) + 1 && (pos == old(pos) <==> failed)
      ensures old(Good()) && old(pos) < |text| ==> Good() && pos == old(pos) + 1 && ch' == text[old(pos)]
      ensures old(Good()) && old(pos) == |text| ==> eof && failed && pos == old(pos)
      ensures !old(Good()) ==> failed && pos == old(pos) && eof == old(eof)
      ensures failed ==> ch' == ch
    {
      ch' := ch;
      if !Good() {
        failed := true;
      } else if pos == |text| {
        eof, failed := true, true;
      } else {
        ch', pos := text[pos], pos + 1;
      }
    }

    /** `input.peek()`. */
    method Peek() returns (c: Option<char>)
      requires Valid()
      modifies this`eof, this`failed
      ensures old(Good()) && pos < |text| ==> Good() && c == Some(text[pos])
      ensures old(Good()) && pos == |text| ==> eof && !failed && c == None
      ensures !old(Good()) ==> failed && eof == old(eof) && c == None
    {
      c := None;
      if !Good() {
        failed := true;
      } else if pos == |text| {
        eof := true;
      } else {
        c := Some(text[pos]);
      }
    }

    /** `input.putback(ch)`: an input stream takes back only what was there. */
    method Putback(ch: char)
      requires Valid()
      modifies this
      ensures Valid() && !eof && pos <= old(pos) <= pos + 1
      ensures !old(failed) && old(pos) > 0 && text[old(pos) - 1] == ch ==> !failed && pos == old(pos) - 1
      ensures old(failed) ==> failed && pos == old(pos)
    {
      eof := false;
      if failed || pos == 0 || text[pos - 1] != ch {
        failed := true;
      } else {
        pos := pos - 1;
      }
    }

    method Unget()
      requires Valid()
      modifies this
      ensures Valid() && !eof && pos <= old(pos) <= pos + 1
      ensures !old(failed) && old(pos) > 0 ==> !failed && pos == old(pos) - 1
      ensures old(failed) ==> failed && pos == old(pos)
    {
      eof := false;
      if failed || pos == 0 {
        failed := true;
      } else {
        pos := pos - 1;
      }
    }

    method Clear()
      modifies this`eof, this`failed
      ensures Good()
    {
      eof, failed := false, false;
    }

    /** `input >> std::ws`. */
    method Ws()
      requires Valid()
      modifies this
      ensures Valid() && old(pos) <= pos && (old(failed) ==> failed)
      ensures old(Good()) ==> Rest() == SkipWs(old(Rest())) && !failed && (eof <==> pos == |text|)
      ensures !old(Good()) ==> failed && pos == old(pos) && eof == old(eof)
    {
      if !Good() {
        failed := true;
        return;
      }
      while pos < |text| && IsSpace(text[pos])
        invariant Valid() && Good() && old(pos) <= pos && SkipWs(Rest()) == SkipWs(old(Rest()))
      {
        assert Rest()[1..] == text[pos + 1..];
        pos := pos + 1;
      }
      eof := pos == |text|;
      assert Rest() != "" ==> Rest()[0] == text[pos];
      assert SkipWs(Rest()) == Rest();
    }

    /** The loop that trims a comment to the end of its line. */
    method TrimLine()
      requires Valid() && !failed
      modifies this
      ensures Valid() && old(pos) <= pos && (failed ==> eof)
      ensures old(Good()) ==> Rest() == DropLine(old(Rest())) && !failed && (eof <==> Rest() == "")
    {
      var stop := false;
      while !stop
        invariant Valid() && old(pos) <= pos && (failed ==> eof)
        invariant old(Good()) ==> !failed && DropLine(Rest()) == DropLine(old(Rest())) && (eof ==> Rest() == "")
        invariant stop && !eof && old(Good()) ==> Rest() != "" && EndsLine(Rest()[0])
        decreases |text| - pos, if eof then 0 else 1, if stop then 0 else 1
      {
        if eof {
          stop := true;
        } else {
          var d := Peek();
          if d == Some('\r') || d == Some('\n') {
            stop := true;
          } else if !eof {
            assert old(Good()) ==> Rest()[1..] == text[pos + 1..];
            var _ := Get('\0');
          }
        }
      }
    }

    /** `parse_comment`: consumes a whole comment, or nothing. */
    method ParseComment() returns (found: bool)
      requires Valid()
      modifies this
      ensures Valid() && old(pos) <= pos
      ensures found ==> pos > old(pos)
      ensures old(failed) ==> !found && failed
      ensures old(Good()) && "//" <= old(Rest()) ==>
        found && Rest() == AfterComment(old(Rest())) && !failed && (eof <==> Rest() == "")
      ensures old(Good()) && old(Rest()) != "" && !("//" <= old(Rest())) ==> !found && Good() && pos == old(pos)
    {
      if eof {
        return false;
      }
      var c := Peek();
      if c != Some('/') {
        return false;
      }
      ghost var s := Rest();
      var ch0 := Get('\0');
      if !eof {
        var ch1 := Get('\0');
        if ch0 == '/' && ch1 == '/' {
          assert Good() ==> s[2..] == Rest();
          TrimLine();
          if !eof {
            Ws();
          }
          return true;
        }
        Unget();
        Clear();
      }
      Unget();
      Clear();
      return false;
    }

    /** The loop that puts back what has been matched. */
    method PutBack(pattern: string, n: nat)
      requires Valid() && n <= |pattern|
      modifies this
      ensures Valid() && old(pos) - n <= pos <= old(pos) && (old(failed) ==> failed && pos == old(pos))
      ensures old(Good()) && n <= old(pos) && old(text[pos - n..pos]) == pattern[..n] ==> Good() && pos == old(pos) - n
    {
      var cur := n;
      ghost var good := Good() && n <= pos && text[pos - n..pos] == pattern[..n];
      while cur > 0
        invariant Valid() && 0 <= cur <= n && old(pos) - (n - cur) <= pos <= old(pos) && (old(failed) ==> failed && pos == old(pos))
        invariant good ==> Good() && pos == old(pos) - (n - cur)
      {
        cur := cur - 1;
        assert good ==> text[pos - 1] == text[old(pos) - n..old(pos)][cur] == pattern[cur];
        Putback(pattern[cur]);
      }
    }

    /** How far a match has come: `start` is where the white space ended, `t` the text from the token on. */
    ghost predicate Matching(pattern: string, t: string, cur: nat)
      reads this
    {
      && Valid() && Good() && cur <= Common(pattern, t)
      && if cur == 0 then SkipComments(Rest()) == t else cur <= pos && text[pos - cur..] == t
    }

    /** The same, when the text ends inside the pattern; `ch` is the character read last. */
    ghost predicate Nearing(pattern: string, t: string, cur: nat, ch: char)
      reads this
    {
      && Matching(pattern, t, cur) && EndsInside(pattern, t) && cur <= |t|
      && if cur == 0 then Rest() != "" else ch == pattern[cur - 1]
    }

    /** The stream is at its end, and has failed there if there was anything left to match. */
    ghost predicate Exhausted(pattern: string, t: string)
      reads this
    {
      Valid() && Rest() == "" && EndsInside(pattern, t) && if t == "" then eof else failed
    }

    /** How far a match has come when the text ends inside the pattern. */
    ghost predicate Ending(pattern: string, t: string, cur: nat, ch: char)
      reads this
    {
      || Nearing(pattern, t, cur, ch)
      || (Exhausted(pattern, t) && if t == "" then cur == 0 else cur == |t| + 1 && pattern[|t| - 1] == pattern[|t|])
    }

    /** One character of the pattern; `comment`: a comment stood there instead. */
    method MatchCharacter(pattern: string, cur: nat, ch: char, ghost t: string) returns (ch': char, same: bool, comment: bool)
      requires Valid() && !failed && !eof && cur < |pattern| && pattern[0] != '\0'
      modifies this
      ensures Valid() && old(pos) <= pos && (same ==> !comment)
      ensures same ==> (failed ==> ch' == ch) && (!failed ==> old(pos) < pos) && ch' == pattern[cur]
      ensures !same ==> ch' != pattern[cur]
      ensures comment ==> old(pos) < pos
      ensures old(Matching(pattern, t, cur)) && pattern[0] != '/' && (pattern <= t || BreaksOff(pattern, t)) ==>
        if same then Matching(pattern, t, cur + 1) && !failed
        else if comment then cur == 0 && Matching(pattern, t, 0)
        else Matching(pattern, t, cur) && BreaksOff(pattern, t) && cur == Common(pattern, t)
             && (cur == 0 ==> Rest() == t)
      ensures old(Nearing(pattern, t, cur, ch)) ==>
        if same then Ending(pattern, t, cur + 1, ch')
        else if comment then cur == 0 && Ending(pattern, t, 0, ch')
        else Exhausted(pattern, t) && t != "" && pattern[|t| - 1] != pattern[|t|]
    {
      hide SkipWs, SkipComments, AfterComment, Common, BreaksOff;
      ghost var good := Matching(pattern, t, cur) && pattern[0] != '/' && (pattern <= t || BreaksOff(pattern, t));
      ghost var near := Nearing(pattern, t, cur, ch);
      ghost var rest, was := Rest(), pos;
      if good {
        assert cur > 0 ==> text[pos - cur..][cur..] == rest;
        CharacterFacts(pattern, t, cur, rest);
      }
      if near {
        assert cur > 0 ==> text[pos - cur..][cur..] == rest;
        EndFacts(pattern, t, cur, rest);
        NothingToSkip();
      }
      ch' := Get(ch);
      assert good ==> ch' == rest[0];
      same, comment := ch' == pattern[cur], false;
      if !same {
        Putback(ch');
        assert good || (near && rest != "") ==> pos == was && Rest() == rest && Good();
        comment := ParseComment();
        if good && comment {
          BehindComment(pattern, t, rest, Rest());
        }
      }
    }

    /**
     `match`: tries to consume the pattern behind white space and comments. If the pattern breaks off, and not at a
     comment or at the end of the text, all of it is put back. If the text ends inside the pattern, the character
     read last counts once more: "nul" is taken for "null".
     */
    method Match(pattern: string) returns (ok: bool)
      requires Valid() && pattern != "" && '\0' !in pattern
      modifies this
      ensures Valid() && old(pos) <= pos && (ok && |pattern| == 1 ==> old(pos) < pos)
      ensures old(Good()) && pattern[0] != '/' && pattern <= Skip(old(Rest())) ==>
        ok && Good() && Rest() == Skip(old(Rest()))[|pattern|..]
      ensures old(Good()) && pattern[0] != '/' && BreaksOff(pattern, Skip(old(Rest()))) ==>
        !ok && Good() && Rest() == Skip(old(Rest()))
      ensures old(Good()) && EndsInside(pattern, Skip(old(Rest()))) ==>
        var t := Skip(old(Rest()));
        && (ok <==> t != "" && |t| + 1 == |pattern| && pattern[|t| - 1] == pattern[|t|])
        && !Good() && Rest() == ""
    {
      hide SkipWs, SkipComments, BreaksOff, EndsInside, Common;
      ghost var good, t := Good(), Skip(Rest());
      Ws();
      NothingToSkip();
      if good && (pattern <= t || BreaksOff(pattern, t)) {
        NotAtEnd(pattern, t, Rest());
      }
      ok := MatchToken(pattern, t);
    }

    lemma Matched(pattern: string, t: string, cur: nat)
      requires Matching(pattern, t, cur)
      ensures Good() && cur <= Common(pattern, t) && cur <= |t| && (cur > 0 ==> Rest() == t[cur..])
    {
      if cur > 0 {
        assert text[pos - cur..][cur..] == text[pos..];
      }
    }

    lemma Ended(pattern: string, t: string, cur: nat, ch: char)
      requires Ending(pattern, t, cur, ch)
      ensures if Good() then cur < |pattern| && Nearing(pattern, t, cur, ch)
              else Rest() == "" && if t == "" then cur == 0 else |t| < |pattern| && cur == |t| + 1 && pattern[|t| - 1] == pattern[|t|]
    {
    }

    /** Puts back what has been matched. */
    method GiveUp(pattern: string, cur: nat, ghost t: string)
      requires Valid() && cur <= |pattern|
      modifies this
      ensures Valid() && old(pos) - cur <= pos <= old(pos) && (old(failed) ==> failed && pos == old(pos))
      ensures old(Matching(pattern, t, cur) && (cur == 0 ==> Rest() == t)) ==> Good() && Rest() == t
    {
      hide Skip, SkipWs, SkipComments, Common;
      if Matching(pattern, t, cur) && cur > 0 {
        assert text[pos - cur..pos] == text[pos - cur..][..cur] == t[..cur] == pattern[..cur] by {
          assert pattern[..cur] == pattern[..Common(pattern, t)][..cur];
        }
      }
      PutBack(pattern, cur);
    }

    /** The loop of `match`; `t` is what stands behind the comments. */
    method MatchToken(pattern: string, ghost t: string) returns (ok: bool)
      requires Valid() && pattern != "" && '\0' !in pattern
      modifies this
      ensures Valid() && old(pos) <= pos && (ok && |pattern| == 1 ==> old(pos) < pos)
      ensures old(Matching(pattern, t, 0)) && pattern[0] != '/' && pattern <= t ==> ok && Good() && Rest() == t[|pattern|..]
      ensures old(Matching(pattern, t, 0)) && pattern[0] != '/' && BreaksOff(pattern, t) ==> !ok && Good() && Rest() == t
      ensures old(Ending(pattern, t, 0, '\0')) ==>
        && (ok <==> t != "" && |t| + 1 == |pattern| && pattern[|t| - 1] == pattern[|t|])
        && !Good() && Rest() == ""
    {
      hide SkipWs, DropLine, Common, SkipComments, BreaksOff, AfterComment, Matching, Ending, Nearing, EndsInside;
      ghost var good := Matching(pattern, t, 0) && pattern[0] != '/' && (pattern <= t || BreaksOff(pattern, t));
      ghost var short := Ending(pattern, t, 0, '\0');
      ghost var start := pos;
      CommonAll(pattern, t);
      var cur := 0;
      var ch := '\0';
      while !failed && !eof && cur < |pattern|
        invariant Valid() && cur <= |pattern| && start <= pos && (!failed ==> start + cur <= pos)
        invariant |pattern| == 1 ==> if cur == 0 then ch != pattern[0] else start < pos
        invariant good ==> Matching(pattern, t, cur)
        invariant short ==> Ending(pattern, t, cur, ch)
        decreases |text| - pos, if failed then 0 else 1
      {
        if short {
          Ended(pattern, t, cur, ch);
        }
        var same, comment;
        ch, same, comment := MatchCharacter(pattern, cur, ch, t);
        if same {
          cur := cur + 1;
        } else if !comment {
          GiveUp(pattern, cur, t);
          return false;
        }
      }
      if good {
        Matched(pattern, t, cur);
      }
      if short {
        Ended(pattern, t, cur, ch);
      }
      return cur == |pattern|;
    }

    /** The four characters behind \\u. */
    method FourCharacters(ch: char) returns (ch': char, ss: string)
      requires Valid() && Good()
      modifies this
      ensures Valid() && old(pos) <= pos
      ensures if |old(Rest())| >= 4 then Good() && ss == old(Rest())[..4] && Rest() == old(Rest())[4..] else failed && eof
    {
      ch', ss := ch, "";
      ghost var s := Rest();
      var i := 0;
      while Good() && i < 4
        invariant Valid() && old(pos) <= pos && 0 <= i <= 4
        invariant if Good() then i <= |s| && pos == old(pos) + i && ss == s[..i] else failed && eof && |s| < 4
      {
        ch' := Get(ch');
        ss := ss + [ch'];
        i := i + 1;
      }
      assert Good() ==> Rest() == s[4..];
    }

    /** The part of `parse_string` behind a backslash: what it appends. */
    method Escape(ch: char, delimiter: char) returns (ch': char, extra: string)
      requires Valid() && Good()
      modifies this
      ensures Valid() && old(pos) <= pos
      ensures var s := old(Rest());
        var r := if s == "" then None else Unescaped(s[0], s[1..], delimiter);
        if r.None? then failed && eof
        else Good() && extra == r.value.0 && r.value.1 <= |s| - 1 && Rest() == s[1 + r.value.1..]
    {
      ch' := Get(ch);
      ghost var s := old(Rest());
      assert s != "" ==> Good() && ch' == s[0] && Rest() == s[1..];
      if ch' == '\\' || ch' == '/' {
        extra := [ch'];
      } else if ch' == 'b' {
        extra := ['\U{08}'];
      } else if ch' == 'f' {
        extra := ['\U{0C}'];
      } else if ch' == 'n' {
        extra := ['\n'];
      } else if ch' == 'r' {
        extra := ['\r'];
      } else if ch' == 't' {
        extra := ['\t'];
      } else if ch' == 'u' {
        extra := "";
        if Good() {
          var ss;
          ch', ss := FourCharacters(ch');
          if Good() && IntPrefix(ss).Some? {
            extra := [LowByte(IntPrefix(ss).value)];
          }
        }
      } else if ch' != delimiter {
        extra := ['\\', ch'];
      } else {
        extra := [ch'];
      }
    }

    /** The loop of `parse_string`. */
    method StringLoop(delimiter: char, first: char) returns (ok: bool, value: string)
      requires Valid()
      modifies this
      ensures Valid() && old(pos) <= pos
      ensures old(Good()) ==>
        var r := StringBody(old(Rest()), delimiter);
        ok == r.Some? && (ok ==> Good() && value == r.value.0 && Rest() == r.value.1)
    {
      hide StringBody, Unescaped;
      var ch := first;
      value := "";
      ghost var good, body := Good(), StringBody(Rest(), delimiter);
      PrependNothing(body);
      while Good()
        invariant Valid() && old(pos) <= pos
        invariant good ==> if Good() then body == Prepend(value, StringBody(Rest(), delimiter)) else failed && body.None?
        decreases |text| - pos, if Good() then 1 else 0
      {
        ghost var s, was := Rest(), value;
        BodyStep(s, delimiter);
        ch := Get(ch);
        assert s != "" ==> s[0] == ch && Rest() == s[1..];
        if ch == delimiter {
          break;
        }
        if ch == '\\' && Good() {
          var extra;
          ch, extra := Escape(ch, delimiter);
          value := value + extra;
          PrependTwice(was, extra, StringBody(Rest(), delimiter));
        } else {
          value := value + [ch];
          PrependTwice(was, [ch], StringBody(Rest(), delimiter));
        }
      }
      return !failed && ch == delimiter, value;
    }

    /** `parse_string`, into an empty string: between double quotes or, as the parser is permissive, single ones. */
    method ParseString() returns (ok: bool, value: string)
      requires Valid()
      modifies this
      ensures Valid() && old(pos) <= pos && (ok ==> old(pos) < pos)
      ensures old(Good()) && OtherThan(Skip(old(Rest())), "\"'") ==> !ok && Good() && Rest() == Skip(old(Rest()))
      ensures old(Good()) && StartsWith(Skip(old(Rest())), "\"'") ==>
        var t := Skip(old(Rest()));
        var r := StringBody(t[1..], t[0]);
        ok == r.Some? && (ok ==> Good() && value == r.value.0 && Rest() == r.value.1)
    {
      hide StringBody, SkipWs, SkipComments, BreaksOff;
      ghost var t := Skip(Rest());
      DiffersAtOnce("\"", t);
      var ch, delimiter := '\0', '"';
      value := "";
      ok := Match("\"");
      if !ok {
        delimiter := '\'';
        assert Rest() != "" ==> Rest()[0] == text[pos];
        var c := Peek();
        if c != Some(delimiter) {
          return false, value;
        }
        assert Rest()[1..] == text[pos + 1..];
        ch := Get(ch);
      }
      ok, value := StringLoop(delimiter, ch);
    }

    /** `input >> value`, for a number. */
    method ReadNumber() returns (r: Option<real>)
      requires Valid()
      modifies this
      ensures Valid() && old(pos) <= pos && (r.None? ==> failed)
      ensures old(Good()) && SkipWs(old(Rest())) != "" ==>
        var (x, rest) := ReadReal(SkipWs(old(Rest())));
        r == x && Rest() == rest && (x.Some? ==> !failed && (eof <==> rest == ""))
    {
      hide RealValue, RealEnd, SkipWs;
      Ws();
      if !Good() {
        failed := true;
        return None;
      }
      RealEndIsSuffix(text[pos..]);
      r := RealValue(text[pos..]);
      var rest := RealEnd(text[pos..]);
      SuffixOf(text, pos, rest);
      pos := |text| - |rest|;
      eof, failed := pos == |text|, r.None?;
    }

    /** `parse_float` and `parse_number`, which differ in precision only. */
    method ParseNumber() returns (ok: bool, x: real)
      requires Valid()
      modifies this
      ensures Valid() && old(pos) <= pos
      ensures old(Good()) && SkipWs(old(Rest())) != "" ==>
        var (y, rest) := ReadReal(SkipWs(old(Rest())));
        ok == y.Some? && Rest() == rest && (if ok then x == y.value && !failed && (eof <==> rest == "") else Good())
    {
      hide ReadReal, SkipWs;
      Ws();
      ghost var r := Rest();
      SkipWsTwice(old(Rest()));
      var n := ReadNumber();
      if n.None? {
        Clear();
        return false, 0.0;
      }
      return true, n.value;
    }

    method ParseBool() returns (ok: bool, value: bool)
      requires Valid()
      modifies this
      ensures Valid() && old(pos) <= pos
      ensures old(Good()) ==>
        var t := Skip(old(Rest()));
        && ("true" <= t ==> ok && value && Good() && Rest() == t[4..])
        && ("false" <= t ==> ok && !value && Good() && Rest() == t[5..])
        && (OtherThan(t, "tf") ==> !ok && Good() && Rest() == t)
    {
      hide Skip, BreaksOff;
      ghost var t := Skip(Rest());
      SkipTwice(Rest());
      NoComment(Rest());
      DiffersAtOnce("true", t);
      DiffersAtOnce("false", t);
      ok := Match("true");
      if ok {
        return true, true;
      }
      ok := Match("false");
      return ok, false;
    }

    /** `parse_null`: a comma is read as null, too, and left where it is; and so is "nul" at the end of the text. */
    method ParseNull() returns (ok: bool)
      requires Valid()
      modifies this
      ensures Valid() && old(pos) <= pos
      ensures old(Good()) ==>
        var t := Skip(old(Rest()));
        && ("null" <= t ==> ok && Good() && Rest() == t[4..])
        && (t == "nul" ==> ok && !Good() && Rest() == "")
        && (OtherThan(t, "n,") ==> !ok && Good() && Rest() == t)
        && ("," <= t ==> ok && Good() && Rest() == t)
    {
      hide Skip, BreaksOff;
      ghost var t := Skip(Rest());
      NoComment(Rest());
      DiffersAtOnce("null", t);
      ok := Match("null");
      if !ok {
        assert Rest() != "" ==> Rest()[0] == text[pos];
        var c := Peek();
        ok := c == Some(',');
      }
    }

    /** The text goes on with the value `src` and then `after`. */
    ghost predicate Ahead(src: Option<Source>, after: string)
      reads this
    {
      src.Some? ==> Valid() && Good() && Reads(src.value, Rest(), after)
    }

    /** The value has been read; the end of the text has been seen only if it has been reached. */
    ghost predicate Done(after: string)
      reads this
      requires Valid()
    {
      Rest() == after && !failed && (eof ==> after == "")
    }

    /** The parsers of literals, in the order in which they are tried. */
    method ParseLiteral(ghost src: Option<Source>, ghost after: string) returns (r: Option<Json>)
      requires Valid() && Ahead(src, after)
      modifies this
      ensures Valid() && old(pos) <= pos
      ensures src.Some? && src.value.Literal? ==> r == Some(src.value.v) && Done(after)
      ensures src.Some? && !src.value.Literal? ==> r == None && Good() && Rest() == Skip(old(Rest()))
    {
      hide Skip, SkipWs, StringBody, ReadReal, ReadsArray, ReadsObject;
      ghost var t := Skip(Rest());
      SkipTwice(Rest());
      NoSpace(Rest());
      if src.Some? {
        ReadsStarts(src.value, Rest(), after);
        if !StartsWith(t, "0123456789+-.") {
          NoNumber(t);
        }
      }
      hide Reads;
      var ok, s := ParseString();
      if ok {
        return Some(Str(s));
      }
      var x;
      ok, x := ParseNumber();
      if ok {
        return Some(Float(x));
      }
      ok, x := ParseNumber();
      if ok {
        return Some(Number(x));
      }
      var b;
      ok, b := ParseBool();
      if ok {
        return Some(Bool(b));
      }
      ok := ParseNull();
      if ok {
        return Some(Null);
      }
      return None;
    }

    /**
     `Value::parse`. If the text goes on with a value, here `src`, in whatever way it is written, that value is
     returned and exactly its text is consumed.
     */
    method ParseValue(ghost src: Option<Source>, ghost after: string) returns (r: Option<Json>)
      requires Valid() && Ahead(src, after)
      modifies this
      ensures Valid() && old(pos) <= pos
      ensures src.Some? ==> r == Some(ValueOf(src.value)) && Done(after)
      decreases |text| - pos, 2
    {
      hide Skip, ReadsArray, ReadsObject, ReadsLiteral;
      if src.Some? {
        ReadsStarts(src.value, Rest(), after);
        ReadsFromToken(src.value, Rest(), after);
      }
      r := ParseLiteral(src, after);
      if r.Some? {
        return;
      }
      assert Rest() != "" ==> Rest()[0] == text[pos];
      var c := Peek();
      if c == Some('[') {
        var items := ParseArray(if src.Some? && src.value.ArrayOf? then Some(src.value.items) else None, after);
        if items.Some? {
          return Some(Arr(items.value));
        }
      }
      var members := ParseObject(if src.Some? && src.value.ObjectOf? then Some(src.value.members) else None, after);
      r := if members.Some? then Some(Obj(members.value)) else None;
    }

    ghost predicate ArrayAhead(items: Option<List<Source>>, after: string)
      reads this
    {
      items.Some? ==> Valid() && Good() && exists t :: Token("[", Rest(), t) && ReadsArray(items.value, t, after)
    }

    ghost predicate ItemsAhead(left: Option<List<Source>>, more: bool, after: string)
      reads this
    {
      left.Some? ==>
        && Valid() && Good() && left.value.Cons? == more
        && if more then ReadsItems(left.value, Rest(), after) else Token("]", Rest(), after)
    }

    /** `Array::parse`. */
    method ParseArray(ghost src: Option<List<Source>>, ghost after: string) returns (r: Option<List<Json>>)
      requires Valid() && ArrayAhead(src, after)
      modifies this
      ensures Valid() && old(pos) <= pos
      ensures src.Some? ==> r == Some(ValuesOf(src.value)) && Rest() == after && Good()
      decreases |text| - pos, 1
    {
      hide Skip, Reads, ReadsItems, BreaksOff;
      if src.Some? {
        ArrayStarts(src.value, Rest(), after);
      }
      var ok := Match("[");
      if !ok {
        return None;
      }
      ok := Match("]");
      if ok {
        return Some(Nil);
      }
      var items := Nil;
      ghost var left := src;
      var more := true;
      while more
        invariant Valid() && old(pos) < pos && (src.Some? <==> left.Some?) && ItemsAhead(left, more, after)
        invariant src.Some? ==> Concat(items, ValuesOf(left.value)) == ValuesOf(src.value)
        decreases |text| - pos, more
      {
        ghost var first: Option<Source> := None;
        ghost var t := "";
        if src.Some? {
          first := Some(left.value.first);
          t := ItemSplit(left.value, Rest(), after);
        }
        var v := ParseValue(first, t);
        if v.None? {
          break;
        }
        if src.Some? {
          ConcatSnoc(items, v.value, ValuesOf(left.value.rest));
          BehindItem(left.value, t, after);
          left := Some(left.value.rest);
        }
        items := Snoc(items, v.value);
        more := Match(",");
      }
      if src.Some? {
        ConcatNil(items);
      }
      ok := Match("]");
      r := if ok then Some(items) else None;
    }

    ghost predicate ObjectAhead(members: Option<List<(string, Source)>>, after: string)
      reads this
    {
      members.Some? ==> Valid() && Good() && exists t :: Token("{", Rest(), t) && ReadsObject(members.value, t, after)
    }

    ghost predicate MembersAhead(left: Option<List<(string, Source)>>, more: bool, after: string)
      reads this
    {
      left.Some? ==>
        && Valid() && Good() && left.value.Cons? == more
        && if more then ReadsMembers(left.value, Rest(), after) else Token("}", Rest(), after)
    }

    /** A key, a colon and a value; `broken`: the key or the colon is missing, and this is not the end of the object. */
    method ParseMember(ghost src: Option<(string, Source)>, ghost colon: string, ghost t: string)
      returns (key: string, v: Option<Json>, broken: bool)
      requires Valid()
      requires src.Some? ==> Good() && ReadsMember(src.value, Rest(), colon, t)
      modifies this
      ensures Valid() && old(pos) <= pos && (v.Some? ==> old(pos) < pos)
      ensures src.Some? ==> !broken && key == src.value.0 && v == Some(ValueOf(src.value.1)) && Done(t)
      decreases |text| - pos, 3
    {
      hide Skip, Reads, StringBody;
      v, broken := None, false;
      var ok;
      ok, key := ParseString();
      if !ok {
        var c := Peek();
        broken := c != Some('}');
        return;
      }
      ok := Match(":");
      if !ok {
        broken := true;
        return;
      }
      v := ParseValue(if src.Some? then Some(src.value.1) else None, t);
    }

    /** `Object::parse`. */
    method ParseObject(ghost src: Option<List<(string, Source)>>, ghost after: string) returns (r: Option<List<(string, Json)>>)
      requires Valid() && ObjectAhead(src, after)
      modifies this
      ensures Valid() && old(pos) <= pos
      ensures src.Some? ==> r == Some(Collect(Nil, src.value)) && Rest() == after && Good()
      decreases |text| - pos, 1
    {
      hide Skip, Reads, ReadsMembers, ReadsMember, BreaksOff, Put;
      if src.Some? {
        ObjectStarts(src.value, Rest(), after);
      }
      var ok := Match("{");
      if !ok {
        return None;
      }
      ok := Match("}");
      if ok {
        return Some(Nil);
      }
      var members := Nil;
      ghost var left := src;
      var more := true;
      while more
        invariant Valid() && old(pos) < pos && (src.Some? <==> left.Some?) && MembersAhead(left, more, after)
        invariant src.Some? ==> Collect(members, left.value) == Collect(Nil, src.value)
        decreases |text| - pos, more
      {
        ghost var colon, t := "", "";
        if src.Some? {
          colon, t := MemberSplit(left.value, Rest(), after);
        }
        var key, v, broken;
        key, v, broken := ParseMember(if src.Some? then Some(left.value.first) else None, colon, t);
        if broken {
          return None;
        }
        if v.None? {
          break;
        }
        if src.Some? {
          BehindMember(left.value, t, after);
          left := Some(left.value.rest);
        }
        members := Put(members, key, v.value);
        more := Match(",");
      }
      ok := Match("}");
      r := if ok then Some(members) else None;
    }
  }

  // ----- one token after the other

  /** Only the text from the next token on matters. */
  lemma ReadsFromToken(src: Source, s: string, after: string)
    requires Reads(src, s, after)
    ensures Reads(src, Skip(s), after)
  {
    SkipTwice(s);
    hide Skip, ReadsArray, ReadsObject, ReadsLiteral;
  }

  /** Behind the opening bracket comes the closing one, or an item. */
  lemma ArrayStarts(items: List<Source>, s: string, after: string)
    requires exists t :: Token("[", s, t) && ReadsArray(items, t, after)
    ensures Token("[", s, Skip(s)[1..]) && ReadsArray(items, Skip(s)[1..], after)
    ensures items.Cons? ==> BreaksOff("]", Skip(Skip(s)[1..]))
    ensures items.Cons? ==> ReadsItems(items, Skip(Skip(s)[1..]), after)
  {
    hide Skip, Reads, ItemsGoOn;
    var u := Skip(s)[1..];
    assert ReadsArray(items, u, after);
    if items.Cons? {
      var t := ItemSplit(items, u, after);
      ReadsStarts(items.first, u, t);
      ReadsFromToken(items.first, u, t);
      ItemsLink(items, Skip(u), t, after);
      NoComment(u);
      DiffersAtOnce("]", Skip(u));
    }
  }

  lemma ItemSplit(items: List<Source>, s: string, after: string) returns (t: string)
    requires ReadsItems(items, s, after)
    ensures items.Cons? && Reads(items.first, s, t) && ItemsGoOn(items, t, after)
  {
    hide Reads, ItemsGoOn;
    t :| Reads(items.first, s, t) && ItemsGoOn(items, t, after);
  }

  lemma ItemsLink(items: List<Source>, s: string, t: string, after: string)
    requires items.Cons? && Reads(items.first, s, t) && ItemsGoOn(items, t, after)
    ensures ReadsItems(items, s, after)
  {
    hide Reads, ItemsGoOn;
  }

  lemma MembersLink(members: List<(string, Source)>, s: string, colon: string, t: string, after: string)
    requires members.Cons? && ReadsMember(members.first, s, colon, t) && MembersGoOn(members, t, after)
    ensures ReadsMembers(members, s, after)
  {
    hide ReadsMember, MembersGoOn;
  }

  /** Behind an item comes a comma or the closing bracket, so that the text does not end there. */
  lemma BehindItem(items: List<Source>, t: string, after: string)
    requires ItemsGoOn(items, t, after)
    ensures t != ""
    ensures items.rest.Nil? ==> BreaksOff(",", Skip(t)) && Token("]", Skip(t), after)
    ensures items.rest.Cons? ==> "," <= Skip(t) && ReadsItems(items.rest, Skip(t)[1..], after)
  {
    hide ReadsItems;
    SkipTwice(t);
    NotEmpty(t);
    NoComment(t);
    hide Skip;
    DiffersAtOnce(",", Skip(t));
  }

  lemma ObjectStarts(members: List<(string, Source)>, s: string, after: string)
    requires exists t :: Token("{", s, t) && ReadsObject(members, t, after)
    ensures Token("{", s, Skip(s)[1..]) && ReadsObject(members, Skip(s)[1..], after)
    ensures members.Cons? ==> BreaksOff("}", Skip(Skip(s)[1..]))
    ensures members.Cons? ==> ReadsMembers(members, Skip(Skip(s)[1..]), after)
  {
    hide Skip, Reads, MembersGoOn, StringBody;
    var u := Skip(s)[1..];
    assert ReadsObject(members, u, after);
    if members.Cons? {
      var colon, t := MemberSplit(members, u, after);
      SkipTwice(u);
      assert ReadsMember(members.first, Skip(u), colon, t);
      MembersLink(members, Skip(u), colon, t, after);
      NoComment(u);
      DiffersAtOnce("}", Skip(u));
    }
  }

  lemma MemberSplit(members: List<(string, Source)>, s: string, after: string) returns (colon: string, t: string)
    requires ReadsMembers(members, s, after)
    ensures members.Cons? && ReadsMember(members.first, s, colon, t) && MembersGoOn(members, t, after)
  {
    hide ReadsMember, MembersGoOn;
    colon, t :| ReadsMember(members.first, s, colon, t) && MembersGoOn(members, t, after);
  }

  lemma BehindMember(members: List<(string, Source)>, t: string, after: string)
    requires MembersGoOn(members, t, after)
    ensures t != ""
    ensures members.rest.Nil? ==> BreaksOff(",", Skip(t)) && Token("}", Skip(t), after)
    ensures members.rest.Cons? ==> "," <= Skip(t) && ReadsMembers(members.rest, Skip(t)[1..], after)
  {
    hide ReadsMembers;
    SkipTwice(t);
    NotEmpty(t);
    NoComment(t);
    hide Skip;
    DiffersAtOnce(",", Skip(t));
  }

  lemma NotEmpty(t: string)
    ensures Skip(t) != "" ==> t != ""
  {
  }

  lemma NoComment(t: string)
    ensures !("//" <= Skip(t))
  {
  }

  /** White space and comments are skipped at once. */
  lemma SkipTwice(s: string)
    ensures Skip(Skip(s)) == Skip(s)
  {
    NoSpace(s);
    hide SkipWs;
  }

  lemma NoSpace(s: string)
    ensures SkipWs(Skip(s)) == Skip(s)
  {
    SkipWsTwice(s);
    hide SkipWs;
    CommentsNoSpace(SkipWs(s));
  }

  lemma {:induction false} CommentsNoSpace(s: string)
    requires SkipWs(s) == s
    ensures SkipWs(SkipComments(s)) == SkipComments(s)
    decreases |s|
  {
    hide SkipWs;
    if "//" <= s {
      SkipWsTwice(DropLine(s[2..]));
      CommentsNoSpace(AfterComment(s));
    }
  }

  lemma NoNumber(s: string)
    requires s != "" && !IsDigit(s[0]) && s[0] != '.' && s[0] != '-' && s[0] != '+'
    ensures ReadReal(s) == (None, s)
  {
    assert Digits(s) == "" && After(s, "") == s;
  }

  lemma {:induction false} SkipWsTwice(s: string)
    ensures SkipWs(SkipWs(s)) == SkipWs(s)
    decreases |s|
  {
    if s != "" && IsSpace(s[0]) {
      SkipWsTwice(s[1..]);
    }
  }

  lemma SuffixOf(s: string, n: nat, t: string)
    requires n <= |s| && IsSuffix(t, s[n..])
    ensures n <= |s| - |t| && s[|s| - |t|..] == t
  {
  }

  predicate IsSuffix(t: string, s: string) {
    |t| <= |s| && s[|s| - |t|..] == t
  }

  lemma AfterIsSuffix(s: string, digits: string)
    ensures IsSuffix(After(s, digits), s) && IsSuffix(Unsigned(s), s)
  {
  }

  lemma SuffixTrans(a: string, b: string, c: string)
    requires IsSuffix(a, b) && IsSuffix(b, c)
    ensures IsSuffix(a, c)
  {
  }

  lemma AfterMantissaIsSuffix(s: string)
    ensures IsSuffix(AfterMantissa(s), s)
  {
    var t := After(s, Digits(s));
    AfterIsSuffix(s, Digits(s));
    if t != "" && t[0] == '.' {
      AfterIsSuffix(t[1..], Digits(t[1..]));
      SuffixTrans(AfterMantissa(s), t[1..], t);
      SuffixTrans(AfterMantissa(s), t, s);
    }
    hide Digits, After;
  }

  /** Reading a number stops somewhere in the text. */
  lemma RealEndIsSuffix(s: string)
    ensures IsSuffix(RealEnd(s), s)
  {
    hide Digits, After, Unsigned, AfterMantissa, HasMantissa;
    var u := Unsigned(s);
    var v := AfterMantissa(u);
    AfterIsSuffix(s, "");
    AfterMantissaIsSuffix(u);
    SuffixTrans(v, u, s);
    if HasMantissa(u) && HasExponent(v) {
      var w := Unsigned(v[1..]);
      AfterIsSuffix(v[1..], "");
      AfterIsSuffix(w, Digits(w));
      SuffixTrans(After(w, Digits(w)), w, v[1..]);
      SuffixTrans(After(w, Digits(w)), v[1..], v);
      SuffixTrans(After(w, Digits(w)), v, s);
    }
  }

  lemma PrependTwice(a: string, b: string, r: Option<(string, string)>)
    ensures Prepend(a, Prepend(b, r)) == Prepend(a + b, r)
  {
    if r.Some? {
      assert a + (b + r.value.0) == a + b + r.value.0;
    }
  }

  /** One round of the loop over a string. */
  lemma BodyStep(s: string, delimiter: char)
    ensures StringBody(s, delimiter) ==
      if s == "" then None
      else if s[0] == delimiter then Some(("", s[1..]))
      else if s[0] == '\\' then
        var r := if s[1..] == "" then None else Unescaped(s[1..][0], s[1..][1..], delimiter);
        if r.Some? && r.value.1 <= |s| - 2 then Prepend(r.value.0, StringBody(s[1..][1 + r.value.1..], delimiter)) else None
      else Prepend([s[0]], StringBody(s[1..], delimiter))
  {
    hide Unescaped;
    if |s| > 1 {
      assert s[2..] == s[1..][1..];
      var r := Unescaped(s[1], s[2..], delimiter);
      if r.Some? && r.value.1 <= |s| - 2 {
        assert s[2 + r.value.1..] == s[1..][1 + r.value.1..];
      }
    }
  }

  /** The text agrees with some of the pattern and goes on differently, and not with a comment. */
  predicate BreaksOff(pattern: string, t: string) {
    var n := Common(pattern, t);
    n < |pattern| && n < |t| && !("//" <= t[n..])
  }

  lemma BehindComment(pattern: string, t: string, rest: string, rest': string)
    requires "//" <= rest && rest' == AfterComment(rest) && SkipComments(rest) == t
    requires (pattern <= t || BreaksOff(pattern, t)) && pattern != ""
    ensures SkipComments(rest') == t && rest' != ""
  {
    hide AfterComment;
    NotAtEnd(pattern, t, rest');
  }

  /** The text starts with something else. */
  predicate OtherThan(t: string, chars: string) { t != "" && t[0] !in chars }

  lemma DiffersAtOnce(pattern: string, t: string)
    ensures pattern != "" && t != "" && t[0] != pattern[0] && !("//" <= t) ==> BreaksOff(pattern, t)
  {
  }

  lemma NotAtEnd(pattern: string, t: string, rest: string)
    requires SkipComments(rest) == t && (pattern <= t || BreaksOff(pattern, t)) && pattern != ""
    ensures rest != "" && t != ""
  {
  }

  /** What the next character says about the token, `cur` characters of which have been matched. */
  lemma CharacterFacts(pattern: string, t: string, cur: nat, rest: string)
    requires cur < |pattern| && cur <= Common(pattern, t) && (pattern <= t || BreaksOff(pattern, t)) && pattern[0] != '/'
    requires if cur == 0 then SkipComments(rest) == t else rest == t[cur..]
    ensures rest != ""
    ensures rest[0] == pattern[cur] ==> cur < Common(pattern, t) && (cur == 0 ==> rest == t)
    ensures rest[0] != pattern[cur] && !(cur == 0 && "//" <= rest) ==>
      !("//" <= rest) && BreaksOff(pattern, t) && cur == Common(pattern, t) && (cur == 0 ==> rest == t)
  {
    CommonAll(pattern, t);
    hide AfterComment, Common;
    assert pattern[..Common(pattern, t)] == t[..Common(pattern, t)];
    if cur < Common(pattern, t) {
      assert pattern[cur] == pattern[..Common(pattern, t)][cur] == t[cur];
    }
  }

  /** The text ends where the pattern goes on. */
  predicate EndsInside(pattern: string, t: string) {
    pattern != "" && pattern[0] != '/' && t <= pattern && |t| < |pattern|
  }

  lemma NothingToSkip()
    ensures SkipComments("") == ""
  {
  }

  lemma EndFacts(pattern: string, t: string, cur: nat, rest: string)
    requires EndsInside(pattern, t) && cur <= |t|
    requires if cur == 0 then SkipComments(rest) == t && rest != "" else rest == t[cur..]
    ensures Common(pattern, t) == |t|
    ensures rest == "" ==> cur == |t| > 0
    ensures rest != "" && rest[0] != pattern[cur] ==> cur == 0 && "//" <= rest && SkipComments(AfterComment(rest)) == t
    ensures rest != "" && rest[0] == pattern[cur] ==> cur < |t| && (cur == 0 ==> rest == t)
  {
    hide AfterComment;
    assert t == pattern[..|t|];
  }

  lemma CommonAll(pattern: string, t: string)
    ensures pattern <= t <==> Common(pattern, t) == |pattern|
    ensures BreaksOff(pattern, t) ==> Common(pattern, t) < |pattern|
  {
    if pattern <= t {
      assert pattern == t[..|pattern|];
    }
  }
}
