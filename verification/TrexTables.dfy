/** The character classes, escapes and edges of T-Rex patterns, written out as code points. */
module TrexTables {
  import opened TrexSyntax
  import opened TrexSpelling
  import opened TrexReading
  import opened TrexTree
  import opened TrexWitnesses

  predicate Among(c: char, low: int, high: int) { low <= c as int <= high }

  // ----- classes

  /** What is in the classes with lower-case letters, in the "C" locale; the class 'u' has no complement. */
  predicate Listed(id: char, c: char) {
    match id
    case 'a' => Among(c, 0x41, 0x5A) || Among(c, 0x61, 0x7A)
    case 'w' => Among(c, 0x30, 0x39) || Among(c, 0x41, 0x5A) || c as int == 0x5F || Among(c, 0x61, 0x7A)
    case 's' => Among(c, 0x09, 0x0D) || c as int == 0x20
    case 'd' => Among(c, 0x30, 0x39)
    case 'x' => Among(c, 0x30, 0x39) || Among(c, 0x41, 0x46) || Among(c, 0x61, 0x66)
    case 'c' => Among(c, 0x00, 0x1F) || c as int == 0x7F
    case 'p' => Among(c, 0x21, 0x2F) || Among(c, 0x3A, 0x40) || Among(c, 0x5B, 0x60) || Among(c, 0x7B, 0x7E)
    case 'l' => Among(c, 0x61, 0x7A)
    case 'u' => Among(c, 0x41, 0x5A)
    case _ => false
  }

  function Escaped(id: char): Alt { Only(Link(Class(id), End)) }

  /** The pattern is spelt by a backslash and the letter, and its tree has no other reading. */
  lemma ClassIsSpelt(id: char)
    requires id in "aAwWsSdDxXcCpPlu"
    ensures AltSpelt(['\\', id], Escaped(id), 1)
  {
    OneElement(['\\', id], Class(id), 1);
    hide ElementsSpelt;
    OneSequence(['\\', id], Escaped(id).chain, 1);
  }

  /** On a text of one character the matcher decides by these code points alone. */
  lemma ClassesMatch(x: Input, id: char)
    requires x.eol == 1 && id in "awsdxcplu"
    ensures Match(x, Group(true, Escaped(id)), 0, End, End) == At(1) <==> Listed(id, x.mem(0))
  {
    OneCharacter(x, Class(id));
  }

  /** The other seven are the complements of their lower-case letters. */
  lemma ComplementsMatch(x: Input, id: char)
    requires x.eol == 1 && id in "AWSDXCP"
    ensures Match(x, Group(true, Escaped(id)), 0, End, End) == At(1) <==> !Listed(ToLower(id), x.mem(0))
  {
    OneCharacter(x, Class(id));
  }

  function ToLower(c: char): char
    requires IsUpper(c)
  {
    (c as int + 0x20) as char
  }

  lemma OneCharacter(x: Input, r: Re)
    requires r.Class? || r.Set? || r.Letter? || r.AnyChar?
    ensures Match(x, Group(true, Only(Link(r, End))), 0, End, End) == Match(x, r, 0, End, End)
  {
    hide InClass, InItems;
    assert forall s: nat :: MatchChain(x, End, s, End) == At(s);
    assert MatchChain(x, Link(r, End), 0, End) == Match(x, r, 0, End, End);
  }

  /** A class in brackets has the characters that are written there, those between the ends of a range, and those of \d. */
  lemma SetsMatch(x: Input, c: char, low: char, high: char, negated: bool)
    requires x.eol == 1
    ensures var items := MoreItems(One(c), MoreItems(Range(low, high), MoreItems(Named('d'), NoItems)));
      Match(x, Group(true, Only(Link(Set(negated, items), End))), 0, End, End) == At(1) <==>
        (x.mem(0) == c || (low as int <= x.mem(0) as int <= high as int) || Among(x.mem(0), 0x30, 0x39)) != negated
  {
    var items := MoreItems(One(c), MoreItems(Range(low, high), MoreItems(Named('d'), NoItems)));
    OneCharacter(x, Set(negated, items));
    assert InItems(MoreItems(Named('d'), NoItems), x.mem(0)) <==> Among(x.mem(0), 0x30, 0x39);
    assert InItems(items.rest, x.mem(0)) <==> (low as int <= x.mem(0) as int <= high as int) || Among(x.mem(0), 0x30, 0x39);
  }

  // ----- edges

  predicate Blank(c: char) { Among(c, 0x09, 0x0D) || c as int == 0x20 }

  /**
   An edge is where a character and the next one differ in being blank. It is also before a first and behind a last
   character that is not blank.
   */
  lemma EdgesMatch(x: Input, i: nat)
    ensures Match(x, WordEdge('b'), i, End, End) == At(i) <==>
      || Blank(x.mem(i)) != Blank(x.mem(i + 1))
      || (i == 0 && !Blank(x.mem(0)))
      || (0 < i == x.eol && !Blank(x.mem(i - 1)))
    ensures Match(x, WordEdge('B'), i, End, End) == At(i) <==> Match(x, WordEdge('b'), i, End, End) == NoMatch
  {
  }

  // ----- escapes

  /** The five escapes for control characters; any other letter that is no class and no edge stands for itself. */
  function Meaning(e: char): int {
    match e
    case 'n' => 0x0A
    case 't' => 0x09
    case 'r' => 0x0D
    case 'f' => 0x0C
    case 'v' => 0x0B
    case _ => e as int
  }

  /** What a backslash and a character spell as a whole pattern, which is exactly one thing. */
  lemma EscapesAre(e: char, c: char)
    ensures AltSpelt(['\\', e], Only(Link(Letter(c), End)), 1) <==> e !in "aAwWsSdDxXcCpPlubB" && c as int == Meaning(e)
    ensures AltSpelt(['\\', e], Only(Link(Class(c), End)), 1) <==> e == c && e in "aAwWsSdDxXcCpPlu"
    ensures AltSpelt(['\\', e], Only(Link(WordEdge(c), End)), 1) <==> e == c && e in "bB"
  {
    var s := ['\\', e];
    OneBase(s, Letter(c));
    OneBase(s, Class(c));
    OneBase(s, WordEdge(c));
    hide AltSpelt;
  }

  /** What a single character spells: itself, unless it is special. */
  lemma LettersAre(e: char, c: char)
    ensures AltSpelt([e], Only(Link(Letter(c), End)), 1) <==> e == c && Among(e, 0x20, 0x7E) && e !in "([$.\\^"
    ensures AltSpelt([e], Only(Link(AnyChar, End)), 1) <==> e == '.'
    ensures AltSpelt([e], Only(Link(LineEnd, End)), 1) <==> e == '$'
  {
    OneBase([e], Letter(c));
    OneBase([e], AnyChar);
    OneBase([e], LineEnd);
    if e == '^' {
      NoAnchor(c);
    }
    hide AltSpelt;
  }

  lemma NoAnchor(c: char)
    ensures !AltSpelt("^", Only(Link(Letter(c), End)), 1) && !AltSpelt("^", Only(Link(AnyChar, End)), 1)
    ensures !AltSpelt("^", Only(Link(LineEnd, End)), 1)
  {
  }

  lemma OneBase(s: string, r: Re)
    requires r.Letter? || r.Class? || r.WordEdge? || r.AnyChar? || r.LineEnd?
    ensures !Starts(s, "^") ==> (AltSpelt(s, Only(Link(r, End)), 1) <==> BaseSpelt(s, r, 1))
  {
    hide BaseSpelt, ElementsSpelt;
    if !Starts(s, "^") {
      assert AltSpelt(s, Only(Link(r, End)), 1) <==> ElementsSpelt(s, Link(r, End), 1);
      LoneElement(s, r);
    }
  }

  lemma LoneElement(s: string, r: Re)
    requires r.Letter? || r.Class? || r.WordEdge? || r.AnyChar? || r.LineEnd?
    ensures ElementsSpelt(s, Link(r, End), 1) <==> BaseSpelt(s, r, 1)
  {
    if BaseSpelt(s, r, 1) {
      OneElement(s, r, 1);
    }
    hide BaseSpelt;
    if ElementsSpelt(s, Link(r, End), 1) {
      LoneSplit(s, r);
    }
  }

  lemma LoneSplit(s: string, r: Re)
    requires ElementsSpelt(s, Link(r, End), 1) && !r.Repeat?
    ensures CountedSpelt(s, r, 1)
  {
    hide CountedSpelt;
    var t, u :| s == t + u && CountedSpelt(t, r, 1) && u == "";
    assert t == s;
  }

  /** Inside a class only the closing bracket is special, and \b is the letter. */
  lemma MembersAre(e: char, c: char)
    ensures LetterSpelt([e], c, true) <==> e == c && Among(e, 0x20, 0x7E) && e !in "]\\"
    ensures LetterSpelt(['\\', e], c, true) <==> e !in "aAwWsSdDxXcCpPlu" && c as int == Meaning(e)
    ensures UpperSpelt([e], c) <==> e == c && Among(e, 0x20, 0x7E) && e != '\\'
    ensures UpperSpelt(['\\', e], c) <==> c as int == Meaning(e)
  {
  }
}
