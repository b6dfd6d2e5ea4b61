/** Patterns that show where the matcher and the compiler do not do what one would expect. */
module TrexWitnesses {
  import opened TrexSyntax
  import opened TrexSpelling
  import opened TrexReading
  import opened TrexTree
  import opened TrexRefused

  // ----- putting spellings together

  /** A letter or a digit stands for itself everywhere. */
  lemma LetterIsSpelt(c: char, lo: nat)
    requires IsAlnum(c)
    ensures BaseSpelt([c], Letter(c), lo) && CountedSpelt([c], Letter(c), lo)
  {
  }

  lemma OneElement(s: string, r: Re, lo: nat)
    requires CountedSpelt(s, r, lo)
    ensures ElementsSpelt(s, Link(r, End), lo)
  {
    hide CountedSpelt;
    assert s == s + "";
  }

  lemma MoreElements(t: string, u: string, r: Re, c: Chain, lo: nat)
    requires CountedSpelt(t, r, lo) && ElementsSpelt(u, c, lo + Size(r)) && c.Link?
    requires (r.Repeat? || !Starts(u, "*+?{")) && !Starts(u, "|)*+")
    ensures ElementsSpelt(t + u, Link(r, c), lo)
  {
    hide CountedSpelt;
  }

  lemma Counted(t: string, q: string, b: Re, min: nat, max: nat, lo: nat)
    requires BaseSpelt(t, b, lo) && CountSpelt(q, min, max)
    ensures CountedSpelt(t + q, Repeat(min, max, b), lo)
  {
    hide BaseSpelt, CountSpelt;
  }

  lemma GroupIsSpelt(t: string, a: Alt, lo: nat)
    requires AltSpelt(t, a, lo + 1) && !Starts(t, "?")
    ensures CountedSpelt("(" + t + ")", Group(true, a), lo)
  {
    hide AltSpelt;
    assert Grouped("(" + t + ")", t, true, a, lo);
  }

  lemma OneSequence(s: string, c: Chain, lo: nat)
    requires ElementsSpelt(s, c, lo) && !Starts(s, "^")
    ensures AltSpelt(s, Only(c), lo)
  {
    hide ElementsSpelt;
  }

  lemma TwoSequences(t: string, u: string, c: Chain, b: Alt, lo: nat)
    requires ElementsSpelt(t, c, lo) && !Starts(t, "^") && AltSpelt(u, b, lo + ChainSize(c) + 1)
    ensures AltSpelt(t + "|" + u, Either(c, b), lo)
  {
    hide ElementsSpelt;
  }

  // ----- the matcher

  /** The pattern compiles, the whole text is in its language, and `trex_match` rejects it. */
  ghost predicate Misses(pattern: string, x: Input) {
    exists tree :: AltSpelt(pattern, tree, 1) && AltMeans(x, tree, 0, x.eol) && Match(x, Group(true, tree), 0, End, End) != At(x.eol)
  }

  /** The memory holds the text and its terminating NUL. */
  ghost predicate Reads(x: Input, text: string) {
    x.eol == |text| && x.mem(|text|) == '\0' && forall i: nat :: i < |text| ==> x.mem(i) == text[i]
  }

  lemma Missed(pattern: string, x: Input, tree: Alt)
    requires AltSpelt(pattern, tree, 1) && Means(x, Group(true, tree), 0, x.eol)
    requires Match(x, Group(true, tree), 0, End, End) != At(x.eol)
    ensures Misses(pattern, x)
  {
    hide AltSpelt, Match, AltMeans;
  }

  /** Whatever tree the compiler has found for such a pattern, it is the one that fails. */
  lemma MissesAreRejected(pattern: string, x: Input, tree: Alt)
    requires Misses(pattern, x) && AltSpelt(pattern, tree, 1)
    ensures AltMeans(x, tree, 0, x.eol) && Match(x, Group(true, tree), 0, End, End) != At(x.eol)
  {
    hide AltSpelt, Match, AltMeans;
    var t :| AltSpelt(pattern, t, 1) && AltMeans(x, t, 0, x.eol) && Match(x, Group(true, t), 0, End, End) != At(x.eol);
    PatternsAreUnambiguous(pattern, t, 1, tree, 1);
  }

  function AB(): Alt {
    Either(Link(Letter('a'), End), Only(Link(Letter('a'), Link(Letter('b'), End))))
  }

  function ABC(): Alt { Only(Link(Group(true, AB()), Link(Letter('c'), End))) }

  lemma ABCIsSpelt()
    ensures AltSpelt("(a|ab)c", ABC(), 1)
  {
    hide BaseSpelt, CountedSpelt, ElementsSpelt, AltSpelt, SequenceSpelt;
    var a, ab, c := Link(Letter('a'), End), Link(Letter('a'), Link(Letter('b'), End)), Link(Letter('c'), End);
    LetterIsSpelt('a', 2);
    OneElement("a", Letter('a'), 2);
    LetterIsSpelt('a', 4);
    LetterIsSpelt('b', 5);
    OneElement("b", Letter('b'), 5);
    MoreElements("a", "b", Letter('a'), Link(Letter('b'), End), 4);
    assert "a" + "b" == "ab";
    OneSequence("ab", ab, 4);
    TwoSequences("a", "ab", a, Only(ab), 2);
    assert "a" + "|" + "ab" == "a|ab";
    GroupIsSpelt("a|ab", AB(), 1);
    assert "(" + "a|ab" + ")" == "(a|ab)";
    LetterIsSpelt('c', 6);
    OneElement("c", Letter('c'), 6);
    MoreElements("(a|ab)", "c", Group(true, AB()), c, 1);
    assert "(a|ab)" + "c" == "(a|ab)c";
    OneSequence("(a|ab)c", ABC().chain, 1);
  }

  /** The first alternative that matches is never reconsidered. */
  lemma FirstAlternativeCounts(x: Input)
    requires Reads(x, "abc")
    ensures Misses("(a|ab)c", x)
  {
    NotComplete(x);
    ABCIsSpelt();
    hide AltSpelt, Match, Means, Misses;
    Missed("(a|ab)c", x, ABC());
  }

  function SomeA(): Re { Repeat(0, 0xFFFF, Letter('a')) }

  function MaybeB(): Re { Group(true, Only(Link(Repeat(0, 1, Letter('b')), End))) }

  function OptionalB(): Alt { Only(Link(SomeA(), Link(MaybeB(), Link(Letter('c'), End)))) }

  lemma OptionalBIsSpelt()
    ensures AltSpelt("a*(b?)c", OptionalB(), 1)
  {
    hide BaseSpelt, CountedSpelt, CountSpelt, ElementsSpelt, AltSpelt, SequenceSpelt;
    var b, c := Repeat(0, 1, Letter('b')), Link(Letter('c'), End);
    StarIsSpelt();
    LetterIsSpelt('a', 1);
    Counted("a", "*", Letter('a'), 0, 0xFFFF, 1);
    LetterIsSpelt('b', 4);
    Counted("b", "?", Letter('b'), 0, 1, 4);
    assert "a" + "*" == "a*" && "b" + "?" == "b?";
    OneElement("b?", b, 4);
    OneSequence("b?", Link(b, End), 4);
    GroupIsSpelt("b?", Only(Link(b, End)), 3);
    assert "(" + "b?" + ")" == "(b?)";
    LetterIsSpelt('c', 6);
    OneElement("c", Letter('c'), 6);
    MoreElements("(b?)", "c", MaybeB(), c, 3);
    assert "(b?)" + "c" == "(b?)c";
    MoreElements("a*", "(b?)c", SomeA(), Link(MaybeB(), c), 1);
    assert "a*" + "(b?)c" == "a*(b?)c";
    OneSequence("a*(b?)c", OptionalB().chain, 1);
  }

  lemma DotIsSpelt(lo: nat)
    ensures BaseSpelt(".", AnyChar, lo)
  {
  }

  lemma StarIsSpelt()
    ensures CountSpelt("*", 0, 0xFFFF) && CountSpelt("?", 0, 1)
  {
  }

  /** "b?" is satisfied by nothing at all, which ends the repetition after one "a". */
  lemma OptionalStops(x: Input)
    requires Reads(x, "aac")
    ensures Misses("a*(b?)c", x)
  {
    AskedTooEarly(x);
    OptionalBIsSpelt();
    hide AltSpelt, Match, Means, Misses;
    Missed("a*(b?)c", x, OptionalB());
  }

  function Dots(): Alt { Only(Link(Letter('a'), Link(Repeat(0, 0xFFFF, AnyChar), End))) }

  lemma DotsAreSpelt()
    ensures AltSpelt("a.*", Dots(), 1)
  {
    hide BaseSpelt, CountedSpelt, CountSpelt, ElementsSpelt, AltSpelt, SequenceSpelt;
    var any := Repeat(0, 0xFFFF, AnyChar);
    StarIsSpelt();
    DotIsSpelt(2);
    LetterIsSpelt('a', 1);
    Counted(".", "*", AnyChar, 0, 0xFFFF, 2);
    assert "." + "*" == ".*";
    OneElement(".*", any, 2);
    MoreElements("a", ".*", Letter('a'), Link(any, End), 1);
    assert "a" + ".*" == "a.*";
    OneSequence("a.*", Dots().chain, 1);
  }

  /** The dot takes the NUL at the end of the text for a character. */
  lemma DotTakesTheEnd(x: Input)
    requires Reads(x, "a")
    ensures Misses("a.*", x)
  {
    EndIsEaten(x);
    DotsAreSpelt();
    hide AltSpelt, Match, Means, Misses;
    Missed("a.*", x, Dots());
  }

  // ----- ranges

  /** `n` letters and a class of one range. */
  function Late(n: nat, low: char, high: char): string {
    if n == 0 then "[" + [low, '-', high] + "]" else "x" + Late(n - 1, low, high)
  }

  function LateTree(n: nat, low: char, high: char): Chain {
    if n == 0 then Link(Set(false, MoreItems(Range(low, high), NoItems)), End) else Link(Letter('x'), LateTree(n - 1, low, high))
  }

  lemma RangeIsSpelt(low: char, high: char, lo: nat)
    requires IsAlnum(low) && IsAlnum(high) && lo < high as int
    ensures CountedSpelt(Late(0, low, high), Set(false, MoreItems(Range(low, high), NoItems)), lo)
  {
    var t := [low, '-', high];
    assert t == [low] + "-" + [high];
    assert LetterSpelt([low], low, true) && UpperSpelt([high], high) && [high][0] == high;
    assert ItemSpelt(t, Range(low, high), lo + 1);
    NoItemsSpelt("", lo + 3);
    assert t + "" == t;
    ItemsLink(t, "", Range(low, high), NoItems, lo + 1);
    assert Bracketed(Late(0, low, high), t, false, MoreItems(Range(low, high), NoItems), lo);
  }

  lemma {:induction false} LateIsSpelt(n: nat, low: char, high: char, lo: nat)
    requires IsAlnum(low) && IsAlnum(high) && lo + n < high as int
    ensures ElementsSpelt(Late(n, low, high), LateTree(n, low, high), lo)
  {
    hide CountedSpelt, ElementsSpelt;
    if n == 0 {
      RangeIsSpelt(low, high, lo);
      OneElement(Late(0, low, high), Set(false, MoreItems(Range(low, high), NoItems)), lo);
    } else {
      LateIsSpelt(n - 1, low, high, lo + 1);
      LetterIsSpelt('x', lo);
      MoreElements("x", Late(n - 1, low, high), Letter('x'), LateTree(n - 1, low, high), lo);
    }
  }

  lemma {:induction false} LateIsRefused(p: string, at: nat, n: nat, low: char, high: char, lo: nat)
    requires at <= |p| && p[at..] == Late(n, low, high)
    requires IsAlnum(low) && IsAlnum(high) && lo + n >= high as int
    ensures NoElements(p, at, lo)
    decreases n
  {
    hide NoElements, NoCounted, NoBase, NoClass, ElementsSpelt, CountedSpelt, Rests;
    if n == 0 {
      assert p[at] == '[' && p[at + 1] == low && p[at + 2] == '-' && p[at + 3] == high;
      RestsStart(p, at + 1, lo + 1);
      assert p[at + 1..at + 2] == [low];
      NoRange(p, at + 1, lo + 1, at + 1, lo + 1, at + 2, One(low));
      SetRefused(p, at, lo);
      CountedFromBase(p, at, lo);
      ElementsFromCounted(p, at, lo);
    } else {
      assert p[at] == 'x' && p[at + 1..] == Late(n - 1, low, high);
      LateIsRefused(p, at + 1, n - 1, low, high, lo + 1);
      LetterIsSpelt('x', lo);
      assert p[at..at + 1] == "x";
      assert p[at + 1] == Late(n - 1, low, high)[0];
      ElementsFromTail(p, at, at + 1, Letter('x'), lo);
    }
  }

  /**
   Whether a range compiles depends on how many nodes come before it, and not on the order of its ends: behind `n`
   letters its upper end has to be at least n + 2.
   */
  lemma RangesDependOnTheirPlace(n: nat, low: char, high: char)
    requires IsAlnum(low) && IsAlnum(high)
    ensures (exists tree :: AltSpelt(Late(n, low, high), tree, 1)) <==> n + 2 <= high as int
  {
    var p := Late(n, low, high);
    assert p[0] in "x[";
    hide ElementsSpelt, AltSpelt, SequenceSpelt, NoElements, NoSequence;
    if n + 1 < high as int {
      LateIsSpelt(n, low, high, 1);
      OneSequence(p, LateTree(n, low, high), 1);
    } else {
      assert p[0..] == p;
      LateIsRefused(p, 0, n, low, high, 1);
      SequenceRefused(p, 0, 1);
      AltFromSequence(p, 0, 1);
      forall tree ensures !AltSpelt(p, tree, 1) {
        assert p[0..|p|] == p;
      }
    }
  }

  /** So "[z-a]" compiles, and matches nothing. */
  lemma BackwardRange(c: char)
    ensures AltSpelt("[z-a]", Only(LateTree(0, 'z', 'a')), 1) && !InItems(MoreItems(Range('z', 'a'), NoItems), c)
  {
    hide ElementsSpelt, AltSpelt;
    LateIsSpelt(0, 'z', 'a', 1);
    assert Late(0, 'z', 'a') == "[z-a]";
    OneSequence("[z-a]", LateTree(0, 'z', 'a'), 1);
  }
}
