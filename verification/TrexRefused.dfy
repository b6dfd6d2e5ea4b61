/** What a pattern does not spell: if the compiler cannot go on, there is no way to read the pattern. */
module TrexRefused {
  import opened TrexSyntax
  import opened TrexSpelling
  import opened TrexReading

  /** The character at `at`, or the terminating NUL. */
  function At(p: string, at: nat): char { if at < |p| then p[at] else '\0' }

  ghost predicate NoItem(p: string, at: nat) {
    forall e: nat, i: Item, lo: nat :: at <= e <= |p| ==> !ItemSpelt(p[at..e], i, lo)
  }

  ghost predicate NoUpper(p: string, at: nat) {
    forall e: nat, c: char :: at <= e <= |p| ==> !UpperSpelt(p[at..e], c)
  }

  ghost predicate NoClass(p: string, at: nat, lo: nat) {
    forall e: nat, items: Items :: at <= e < |p| && p[e] == ']' && items.MoreItems? ==> !ItemsSpelt(p[at..e], items, lo)
  }

  ghost predicate NoCount(p: string, at: nat) {
    forall e: nat, min: nat, max: nat :: at <= e <= |p| ==> !CountSpelt(p[at..e], min, max)
  }

  ghost predicate NoBase(p: string, at: nat, lo: nat) {
    forall e: nat, r: Re :: at <= e <= |p| ==> !BaseSpelt(p[at..e], r, lo)
  }

  ghost predicate NoCounted(p: string, at: nat, lo: nat) {
    forall e: nat, r: Re :: at <= e <= |p| && (r.Repeat? || At(p, e) !in "*+?{") ==> !CountedSpelt(p[at..e], r, lo)
  }

  /** A sequence is followed by '|', ')' or the end of the pattern. */
  ghost predicate NoElements(p: string, at: nat, lo: nat) {
    forall e: nat, c: Chain :: at <= e <= |p| && (e == |p| || p[e] in "|)") ==> !ElementsSpelt(p[at..e], c, lo)
  }

  ghost predicate NoSequence(p: string, at: nat, lo: nat) {
    forall e: nat, c: Chain :: at <= e <= |p| && (e == |p| || p[e] in "|)") ==> !SequenceSpelt(p[at..e], c, lo)
  }

  ghost predicate NoAlt(p: string, at: nat, lo: nat) {
    forall e: nat, a: Alt :: at <= e <= |p| && (e == |p| || p[e] == ')') ==> !AltSpelt(p[at..e], a, lo)
  }

  // ----- characters

  /** Neither a printable character nor a backslash with something behind it. */
  predicate Unreadable(p: string, at: nat) {
    at >= |p| || if p[at] == '\\' then at + 1 == |p| else !IsPrint(p[at])
  }

  lemma NothingHere(p: string, at: nat, lo: nat)
    requires at <= |p| && Unreadable(p, at)
    ensures NoBase(p, at, lo) && NoItem(p, at) && NoUpper(p, at)
  {
    hide Unreadable, BaseSpelt, ItemSpelt, UpperSpelt;
    forall e: nat, r: Re | at <= e <= |p| ensures !BaseSpelt(p[at..e], r, lo) {
      if BaseSpelt(p[at..e], r, lo) {
        BaseIsReadable(p, at, e, r, lo);
      }
    }
    forall e: nat, i: Item, n: nat | at <= e <= |p| ensures !ItemSpelt(p[at..e], i, n) {
      if ItemSpelt(p[at..e], i, n) {
        ItemIsReadable(p, at, e, i, n);
      }
    }
    forall e: nat, c: char | at <= e <= |p| ensures !UpperSpelt(p[at..e], c) {
      if UpperSpelt(p[at..e], c) {
        UpperIsReadable(p, at, e, c);
      }
    }
  }

  lemma BaseIsReadable(p: string, at: nat, e: nat, r: Re, lo: nat)
    requires at <= e <= |p| && BaseSpelt(p[at..e], r, lo)
    ensures !Unreadable(p, at)
  {
    hide AltSpelt, ItemsSpelt;
    BaseStarts(p[at..e], "", r, lo);
    assert p[at..e][0] == p[at];
  }

  lemma ItemIsReadable(p: string, at: nat, e: nat, i: Item, lo: nat)
    requires at <= e <= |p| && ItemSpelt(p[at..e], i, lo)
    ensures !Unreadable(p, at) && p[at] != ']'
  {
    hide ItemSpelt;
    var u, v := ItemParts(p[at..e], i, lo);
    assert u[0] == p[at..e][0] == p[at];
  }

  lemma UpperIsReadable(p: string, at: nat, e: nat, c: char)
    requires at <= e <= |p| && UpperSpelt(p[at..e], c)
    ensures !Unreadable(p, at)
  {
  }

  /** Texts of one pattern that start at one place. */
  lemma SameRest(p: string, at: nat, q: nat, e: nat)
    requires at <= q <= |p| && at <= e <= |p|
    ensures p[at..q] + p[q..] == p[at..e] + p[e..]
    ensures p[at..q] == p[at..e] ==> q == e
  {
    assert p[at..q] + p[q..] == p[at..] == p[at..e] + p[e..];
    assert |p[at..q]| == q - at && |p[at..e]| == e - at;
  }

  lemma Inside(p: string, at: nat, e: nat, i: nat, j: nat)
    requires at <= e <= |p| && i <= j <= e - at
    ensures p[at..e][i..j] == p[at + i..at + j]
  {
    var s, t := p[at..e][i..j], p[at + i..at + j];
    assert |s| == |t|;
    assert forall k :: 0 <= k < |s| ==> s[k] == p[at..e][i + k] == p[at + (i + k)] && t[k] == p[at + i + k];
  }

  // ----- classes

  ghost predicate IsRest(p: string, q: nat, e: nat, lo: nat) {
    q <= e <= |p| && exists rest :: ItemsSpelt(p[q..e], rest, lo)
  }

  /** Whoever spells the members from `at` on, spells the rest of them from `q` on. */
  ghost predicate Rests(p: string, at: nat, lo: nat, q: nat, lo2: nat) {
    at <= q &&
    forall e: nat, items: Items :: at <= e < |p| && p[e] == ']' && ItemsSpelt(p[at..e], items, lo) ==> IsRest(p, q, e, lo2)
  }

  lemma RestsStart(p: string, at: nat, lo: nat)
    ensures Rests(p, at, lo, at, lo)
  {
    hide ItemsSpelt;
  }

  /** The first member of the rest, unless there is none. */
  lemma RestSplit(p: string, q: nat, e: nat, lo: nat, rest: Items) returns (r: nat)
    requires q <= e < |p| && p[e] == ']' && ItemsSpelt(p[q..e], rest, lo)
    ensures if rest.NoItems? then r == q == e
            else q < r <= e && ItemSpelt(p[q..r], rest.first, lo) && ItemsSpelt(p[r..e], rest.rest, lo + Width(rest.first))
                 && (rest.first.Range? || p[r] != '-')
  {
    hide ItemsSpelt, ItemSpelt;
    r := q;
    if rest.NoItems? {
      NoItemsSpelt(p[q..e], lo);
      assert |p[q..e]| == e - q;
    } else {
      var u, v := ItemsSplit(p[q..e], rest, lo);
      ItemNotEmpty(u, rest.first, lo);
      r := q + |u|;
      assert u == p[q..e][..|u|] == p[q..r];
      assert v == p[q..e][|u|..] == p[r..e];
      assert v != "" ==> v[0] == p[r];
      assert v == "" ==> r == e;
    }
  }

  lemma ItemSame(p: string, q: nat, r: nat, i: Item, r': nat, i': Item, lo: nat)
    requires q <= r <= |p| && q <= r' <= |p| && ItemSpelt(p[q..r], i, lo) && ItemSpelt(p[q..r'], i', lo)
    requires (i.Range? || At(p, r) != '-') && (i'.Range? || At(p, r') != '-')
    ensures r == r' && i == i'
  {
    hide ItemSpelt;
    SameRest(p, q, r, r');
    ItemUnique(p[q..r], p[r..], i, lo, p[q..r'], p[r'..], i', lo);
  }

  /** The members behind one that has been read. */
  lemma RestBehind(p: string, q: nat, lo: nat, e: nat, rest: Items, r: nat, i: Item)
    requires q < r <= |p| && q <= e < |p| && p[e] == ']' && ItemsSpelt(p[q..e], rest, lo)
    requires ItemSpelt(p[q..r], i, lo) && (i.Range? || At(p, r) != '-')
    ensures IsRest(p, r, e, lo + Width(i))
  {
    hide ItemsSpelt, ItemSpelt;
    ItemIsReadable(p, q, r, i, lo);
    var r' := RestSplit(p, q, e, lo, rest);
    ItemSame(p, q, r, i, r', rest.first, lo);
  }

  lemma RestsNext(p: string, at: nat, lo: nat, q: nat, lo2: nat, r: nat, i: Item)
    requires Rests(p, at, lo, q, lo2) && q < r <= |p| && ItemSpelt(p[q..r], i, lo2) && (i.Range? || At(p, r) != '-')
    ensures Rests(p, at, lo, r, lo2 + Width(i))
  {
    hide ItemsSpelt, ItemSpelt;
    forall e: nat, items: Items | at <= e < |p| && p[e] == ']' && ItemsSpelt(p[at..e], items, lo)
      ensures IsRest(p, r, e, lo2 + Width(i))
    {
      assert IsRest(p, q, e, lo2);
      var rest :| ItemsSpelt(p[q..e], rest, lo2);
      RestBehind(p, q, lo2, e, rest, r, i);
    }
  }

  lemma EmptyClass(p: string, at: nat, lo: nat)
    requires At(p, at) == ']'
    ensures NoClass(p, at, lo)
  {
    hide ItemsSpelt, ItemSpelt;
    forall e: nat, items: Items | at <= e < |p| && p[e] == ']' && items.MoreItems? ensures !ItemsSpelt(p[at..e], items, lo) {
      if ItemsSpelt(p[at..e], items, lo) {
        var r := RestSplit(p, at, e, lo, items);
        ItemIsReadable(p, at, r, items.first, lo);
      }
    }
  }

  lemma NoMember(p: string, at: nat, lo: nat, q: nat, lo2: nat)
    requires q <= |p| && Rests(p, at, lo, q, lo2) && At(p, q) != ']' && NoItem(p, q)
    ensures NoClass(p, at, lo)
  {
    hide ItemsSpelt, ItemSpelt;
    forall e: nat, items: Items | at <= e < |p| && p[e] == ']' && items.MoreItems? ensures !ItemsSpelt(p[at..e], items, lo) {
      if ItemsSpelt(p[at..e], items, lo) {
        assert IsRest(p, q, e, lo2);
        var rest :| ItemsSpelt(p[q..e], rest, lo2);
        var r := RestSplit(p, q, e, lo2, rest);
      }
    }
  }

  /** A member and a dash, with no range to be made of them. */
  lemma NoRange(p: string, at: nat, lo: nat, q: nat, lo2: nat, r: nat, i: Item)
    requires Rests(p, at, lo, q, lo2) && q < r < |p| && p[r] == '-' && ItemSpelt(p[q..r], i, lo2) && !i.Range?
    requires lo2 > At(p, r + 1) as int || i.Named? || NoUpper(p, r + 1)
    ensures NoClass(p, at, lo)
  {
    hide ItemsSpelt, ItemSpelt, NoUpper;
    forall e: nat, items: Items | at <= e < |p| && p[e] == ']' && items.MoreItems? ensures !ItemsSpelt(p[at..e], items, lo) {
      if ItemsSpelt(p[at..e], items, lo) {
        assert IsRest(p, q, e, lo2);
        var rest :| ItemsSpelt(p[q..e], rest, lo2);
        RangeAhead(p, q, lo2, e, rest, r, i);
      }
    }
  }

  /** A member followed by a dash is the lower end of a range. */
  lemma RangeAhead(p: string, q: nat, lo: nat, e: nat, rest: Items, r: nat, i: Item)
    requires q < r < |p| && q <= e < |p| && p[e] == ']' && ItemsSpelt(p[q..e], rest, lo)
    requires p[r] == '-' && ItemSpelt(p[q..r], i, lo) && !i.Range?
    ensures !i.Named? && lo <= At(p, r + 1) as int && !NoUpper(p, r + 1)
  {
    hide ItemsSpelt, ItemSpelt, LetterSpelt, UpperSpelt, ClassSpelt;
    ItemIsReadable(p, q, r, i, lo);
    var s := RestSplit(p, q, e, lo, rest);
    var a, b := ItemParts(p[q..r], i, lo);
    var c, d := ItemParts(p[q..s], rest.first, lo);
    SameRest(p, q, r, s);
    assert a == p[q..r];
    assert c + (d + p[s..]) == p[q..s] + p[s..];
    TokenUnique(a, p[r..], c, d + p[s..]);
    assert |c| == r - q && |d| == s - r;
    assert d == "" ==> s == r;
    assert d == p[q..s][r - q..] == p[r..s];
    assert d[1..] == p[r + 1..s];
    assert d[1] == p[r + 1];
    LetterIsNoClass(a, i, rest.first.low);
  }

  lemma LetterIsNoClass(s: string, i: Item, c: char)
    requires LetterSpelt(s, c, true) && (i.Named? ==> ClassSpelt(s, i.id))
    ensures !i.Named?
  {
  }

  // ----- elements

  lemma SetSplit(p: string, at: nat, e: nat, r: Re, lo: nat)
    requires at <= e <= |p| && At(p, at) == '[' && BaseSpelt(p[at..e], r, lo)
    ensures var a := if At(p, at + 1) == '^' then at + 2 else at + 1;
      r.Set? && r.items.MoreItems? && a < e && p[e - 1] == ']' && ItemsSpelt(p[a..e - 1], r.items, lo + 1)
  {
    hide BaseSpelt, ItemsSpelt;
    var s := p[at..e];
    BaseStarts(s, "", r, lo);
    assert s[0] == p[at];
    var u := SetParts(s, r, lo);
    var k := if r.negated then 2 else 1;
    assert |s| == k + |u| + 1;
    assert s[1] == p[at + 1] && (!r.negated ==> s[1] == u[0]);
    assert s[k..|s| - 1] == u;
    Inside(p, at, e, k, |s| - 1);
    assert s[|s| - 1] == p[e - 1];
  }

  lemma SetRefused(p: string, at: nat, lo: nat)
    requires At(p, at) == '[' && NoClass(p, if At(p, at + 1) == '^' then at + 2 else at + 1, lo + 1)
    ensures NoBase(p, at, lo)
  {
    hide BaseSpelt, ItemsSpelt;
    forall e: nat, r: Re | at <= e <= |p| ensures !BaseSpelt(p[at..e], r, lo) {
      if BaseSpelt(p[at..e], r, lo) {
        SetSplit(p, at, e, r, lo);
      }
    }
  }

  /** The text behind the opening of a group. */
  function Opened(p: string, at: nat): nat { if At(p, at + 1) == '?' then at + 3 else at + 1 }

  lemma GroupSplit(p: string, at: nat, e: nat, r: Re, lo: nat)
    requires at <= e <= |p| && At(p, at) == '(' && BaseSpelt(p[at..e], r, lo)
    ensures var q := Opened(p, at);
      && r.Group? && r.capture == (At(p, at + 1) != '?') && (!r.capture ==> At(p, at + 2) == ':')
      && q < e && p[e - 1] == ')' && AltSpelt(p[q..e - 1], r.body, lo + 1)
  {
    hide BaseSpelt, AltSpelt;
    var s := p[at..e];
    BaseStarts(s, "", r, lo);
    assert s[0] == p[at];
    var u := GroupParts(s, r, lo);
    var k := if r.capture then 1 else 3;
    assert |s| == k + |u| + 1 && s[|s| - 1] == ')' == p[e - 1];
    assert s[1] == p[at + 1];
    assert r.capture ==> s[1] == if u == "" then ')' else u[0];
    assert !r.capture ==> s[1] == '?' && s[2] == ':' && s[2] == p[at + 2];
    assert s[k..|s| - 1] == u;
    Inside(p, at, e, k, |s| - 1);
  }

  lemma NoColon(p: string, at: nat, lo: nat)
    requires At(p, at) == '(' && At(p, at + 1) == '?' && At(p, at + 2) != ':'
    ensures NoBase(p, at, lo)
  {
    hide BaseSpelt, AltSpelt;
    forall e: nat, r: Re | at <= e <= |p| ensures !BaseSpelt(p[at..e], r, lo) {
      if BaseSpelt(p[at..e], r, lo) {
        GroupSplit(p, at, e, r, lo);
      }
    }
  }

  lemma NoContents(p: string, at: nat, lo: nat)
    requires At(p, at) == '(' && NoAlt(p, Opened(p, at), lo + 1)
    ensures NoBase(p, at, lo)
  {
    hide BaseSpelt, AltSpelt;
    forall e: nat, r: Re | at <= e <= |p| ensures !BaseSpelt(p[at..e], r, lo) {
      if BaseSpelt(p[at..e], r, lo) {
        GroupSplit(p, at, e, r, lo);
      }
    }
  }

  lemma AltSame(p: string, at: nat, q: nat, a: Alt, q': nat, a': Alt, lo: nat)
    requires at <= q <= |p| && at <= q' <= |p| && AltSpelt(p[at..q], a, lo) && AltSpelt(p[at..q'], a', lo)
    requires AltEnds(p[q..], a) && (q' == |p| || p[q'] == ')')
    ensures q == q' && a == a'
  {
    hide AltSpelt;
    SameRest(p, at, q, q');
    AltUnique(p[at..q], p[q..], a, lo, p[at..q'], p[q'..], a', lo);
  }

  lemma NotClosed(p: string, at: nat, lo: nat, q: nat, a: Alt)
    requires At(p, at) == '(' && Opened(p, at) <= q <= |p| && AltSpelt(p[Opened(p, at)..q], a, lo + 1)
    requires AltEnds(p[q..], a) && At(p, q) != ')'
    ensures NoBase(p, at, lo)
  {
    hide BaseSpelt, AltSpelt, AltEnds;
    var o := Opened(p, at);
    forall e: nat, r: Re | at <= e <= |p| ensures !BaseSpelt(p[at..e], r, lo) {
      if BaseSpelt(p[at..e], r, lo) {
        GroupSplit(p, at, e, r, lo);
        AltSame(p, o, q, a, e - 1, r.body, lo + 1);
      }
    }
  }

  lemma CountedSplit(p: string, at: nat, e: nat, r: Re, lo: nat) returns (b: Re, q: nat)
    requires at <= e <= |p| && CountedSpelt(p[at..e], r, lo)
    ensures at <= q <= e && BaseSpelt(p[at..q], b, lo)
    ensures if r.Repeat? then CountSpelt(p[q..e], r.min, r.max) else q == e
  {
    hide BaseSpelt, CountedSpelt, CountSpelt;
    var u, n;
    b, u, n := CountedParts(p[at..e], r, lo);
    q := at + |u|;
    assert u == p[at..e][..|u|] == p[at..q];
    assert n == p[at..e][|u|..] == p[q..e];
  }

  lemma CountedFromBase(p: string, at: nat, lo: nat)
    requires NoBase(p, at, lo)
    ensures NoCounted(p, at, lo)
  {
    hide BaseSpelt, CountedSpelt;
    forall e: nat, r: Re | at <= e <= |p| ensures !CountedSpelt(p[at..e], r, lo) {
      if CountedSpelt(p[at..e], r, lo) {
        var b, q := CountedSplit(p, at, e, r, lo);
      }
    }
  }

  lemma CountedFromCount(p: string, at: nat, q: nat, r: Re, lo: nat)
    requires at <= q <= |p| && BaseSpelt(p[at..q], r, lo) && At(p, q) == '{' && NoCount(p, q)
    ensures NoCounted(p, at, lo)
  {
    hide BaseSpelt, CountedSpelt, CountSpelt;
    forall e: nat, r': Re | at <= e <= |p| && (r'.Repeat? || At(p, e) !in "*+?{") ensures !CountedSpelt(p[at..e], r', lo) {
      if CountedSpelt(p[at..e], r', lo) {
        var b, q' := CountedSplit(p, at, e, r', lo);
        BaseSame(p, at, q, r, q', b, lo);
      }
    }
  }

  lemma BaseSame(p: string, at: nat, q: nat, r: Re, q': nat, r': Re, lo: nat)
    requires at <= q <= |p| && at <= q' <= |p| && BaseSpelt(p[at..q], r, lo) && BaseSpelt(p[at..q'], r', lo)
    ensures q == q' && r == r'
  {
    hide BaseSpelt;
    SameRest(p, at, q, q');
    BaseUnique(p[at..q], p[q..], r, lo, p[at..q'], p[q'..], r', lo);
  }

  lemma ElementsSplit(p: string, at: nat, e: nat, c: Chain, lo: nat) returns (q: nat)
    requires at <= e <= |p| && (e == |p| || p[e] in "|)") && ElementsSpelt(p[at..e], c, lo)
    ensures at <= q <= e && c.Link? && CountedSpelt(p[at..q], c.head, lo) && (c.head.Repeat? || At(p, q) !in "*+?{")
    ensures if c.tail.End? then q == e
            else q < e && p[q] !in "|)*+" && ElementsSpelt(p[q..e], c.tail, lo + Size(c.head))
  {
    hide CountedSpelt, ElementsSpelt;
    var u, v := ElementsParts(p[at..e], c, lo);
    q := at + |u|;
    assert u == p[at..e][..|u|] == p[at..q];
    assert v == p[at..e][|u|..] == p[q..e];
    assert v != "" ==> v[0] == p[q];
    assert v == "" ==> q == e;
  }

  lemma ElementsFromCounted(p: string, at: nat, lo: nat)
    requires NoCounted(p, at, lo)
    ensures NoElements(p, at, lo)
  {
    hide CountedSpelt, ElementsSpelt;
    forall e: nat, c: Chain | at <= e <= |p| && (e == |p| || p[e] in "|)") ensures !ElementsSpelt(p[at..e], c, lo) {
      if ElementsSpelt(p[at..e], c, lo) {
        var q := ElementsSplit(p, at, e, c, lo);
      }
    }
  }

  lemma CountedSame(p: string, at: nat, q: nat, r: Re, q': nat, r': Re, lo: nat)
    requires at <= q <= |p| && at <= q' <= |p| && CountedSpelt(p[at..q], r, lo) && CountedSpelt(p[at..q'], r', lo)
    requires (r.Repeat? || At(p, q) !in "*+?{") && (r'.Repeat? || At(p, q') !in "*+?{")
    ensures q == q' && r == r'
  {
    hide CountedSpelt;
    SameRest(p, at, q, q');
    CountedUnique(p[at..q], p[q..], r, lo, p[at..q'], p[q'..], r', lo);
  }

  lemma ElementsFromTail(p: string, at: nat, q: nat, r: Re, lo: nat)
    requires at <= q < |p| && CountedSpelt(p[at..q], r, lo) && (r.Repeat? || p[q] !in "*+?{") && p[q] !in "|)*+"
    requires NoElements(p, q, lo + Size(r))
    ensures NoElements(p, at, lo)
  {
    hide CountedSpelt, ElementsSpelt;
    forall e: nat, c: Chain | at <= e <= |p| && (e == |p| || p[e] in "|)") ensures !ElementsSpelt(p[at..e], c, lo) {
      if ElementsSpelt(p[at..e], c, lo) {
        var q' := ElementsSplit(p, at, e, c, lo);
        CountedSame(p, at, q, r, q', c.head, lo);
      }
    }
  }

  lemma SequenceSplit(p: string, at: nat, e: nat, c: Chain, lo: nat)
    requires at <= e <= |p| && SequenceSpelt(p[at..e], c, lo)
    ensures at < e
    ensures if p[at] == '^' then c.Link? && ElementsSpelt(p[at + 1..e], c.tail, lo + 1) else ElementsSpelt(p[at..e], c, lo)
  {
    hide ElementsSpelt;
    SequenceNotEmpty(p[at..e], c, lo);
    assert p[at..e][0] == p[at];
    assert p[at..e][1..] == p[at + 1..e];
  }

  lemma SequenceRefused(p: string, at: nat, lo: nat)
    requires if At(p, at) == '^' then NoElements(p, at + 1, lo + 1) else NoElements(p, at, lo)
    ensures NoSequence(p, at, lo)
  {
    hide ElementsSpelt, SequenceSpelt;
    forall e: nat, c: Chain | at <= e <= |p| && (e == |p| || p[e] in "|)") ensures !SequenceSpelt(p[at..e], c, lo) {
      if SequenceSpelt(p[at..e], c, lo) {
        SequenceSplit(p, at, e, c, lo);
      }
    }
  }

  lemma AltSplit(p: string, at: nat, e: nat, a: Alt, lo: nat) returns (c: Chain, q: nat)
    requires at <= e <= |p| && AltSpelt(p[at..e], a, lo)
    ensures at <= q <= e && SequenceSpelt(p[at..q], c, lo)
    ensures if a.Only? then q == e && c == a.chain
            else q < e && p[q] == '|' && c == a.first && AltSpelt(p[q + 1..e], a.others, lo + ChainSize(c) + 1)
  {
    hide AltSpelt, SequenceSpelt;
    var u, v;
    c, u, v := AltParts(p[at..e], a, lo);
    q := at + |u|;
    assert u == p[at..e][..|u|] == p[at..q];
    if a.Either? {
      assert p[at..e][|u|] == '|' == p[q];
      assert v == p[at..e][|u| + 1..] == p[q + 1..e];
    }
  }

  lemma AltFromSequence(p: string, at: nat, lo: nat)
    requires NoSequence(p, at, lo)
    ensures NoAlt(p, at, lo)
  {
    hide AltSpelt, SequenceSpelt;
    forall e: nat, a: Alt | at <= e <= |p| && (e == |p| || p[e] == ')') ensures !AltSpelt(p[at..e], a, lo) {
      if AltSpelt(p[at..e], a, lo) {
        var c, q := AltSplit(p, at, e, a, lo);
      }
    }
  }

  lemma SequenceSame(p: string, at: nat, q: nat, c: Chain, q': nat, c': Chain, lo: nat)
    requires at <= q <= |p| && at <= q' <= |p| && SequenceSpelt(p[at..q], c, lo) && SequenceSpelt(p[at..q'], c', lo)
    requires (q == |p| || p[q] in "|)") && (q' == |p| || p[q'] in "|)")
    ensures q == q' && c == c'
  {
    hide SequenceSpelt;
    SameRest(p, at, q, q');
    SequenceUnique(p[at..q], p[q..], c, lo, p[at..q'], p[q'..], c', lo);
  }

  lemma AltFromRest(p: string, at: nat, q: nat, c: Chain, lo: nat)
    requires at <= q < |p| && SequenceSpelt(p[at..q], c, lo) && p[q] == '|' && NoAlt(p, q + 1, lo + ChainSize(c) + 1)
    ensures NoAlt(p, at, lo)
  {
    hide AltSpelt, SequenceSpelt, ChainSize;
    forall e: nat, a: Alt | at <= e <= |p| && (e == |p| || p[e] == ')') ensures !AltSpelt(p[at..e], a, lo) {
      if AltSpelt(p[at..e], a, lo) {
        var c', q' := AltSplit(p, at, e, a, lo);
        SequenceSame(p, at, q, c, q', c', lo);
      }
    }
  }

  // ----- counts

  /** The tenth digit of a number is refused. */
  predicate TooLong(p: string, at: nat) {
    at + 10 <= |p| && AllDigits(p[at..at + 10])
  }

  /** The digits from `a` on end at `q`. */
  predicate DigitsEnd(p: string, a: nat, q: nat) {
    a <= q <= |p| && AllDigits(p[a..q]) && !IsDigit(At(p, q))
  }

  lemma DigitsEndOnce(p: string, a: nat, q: nat, q': nat)
    requires DigitsEnd(p, a, q) && DigitsEnd(p, a, q')
    ensures q == q' && !(TooLong(p, a) && q <= a + 9)
  {
    assert forall k :: a <= k < q ==> p[k] == p[a..q][k - a];
    assert forall k :: a <= k < q' ==> p[k] == p[a..q'][k - a];
    assert TooLong(p, a) ==> forall k :: a <= k < a + 10 ==> p[k] == p[a..a + 10][k - a];
  }

  /** A count in braces: its first number ends at `q`, and a second one, if there is one, at `r`. */
  lemma CountSplit(p: string, at: nat, e: nat, min: nat, max: nat) returns (q: nat, r: nat)
    requires at <= e <= |p| && At(p, at) == '{' && CountSpelt(p[at..e], min, max)
    ensures at + 1 < q <= at + 10 && DigitsEnd(p, at + 1, q) && q < |p|
    ensures p[q] == '}' || (p[q] == ',' && At(p, q + 1) == '}')
      || (p[q] == ',' && q + 1 < r <= q + 10 && DigitsEnd(p, q + 1, r) && At(p, r) == '}')
  {
    hide CountSpelt, UpperPart, Number;
    CountStarts(p[at..e], min, max);
    assert p[at..e][0] == p[at];
    var d, rest := CountParts(p[at..e], min, max);
    UpperStarts(rest, min, max);
    q := at + 1 + |d|;
    assert p[at..e][1..] == d + rest == p[at + 1..e];
    assert d == p[at + 1..e][..|d|] == p[at + 1..q];
    assert rest == p[at + 1..e][|d|..] == p[q..e];
    assert rest[0] == p[q];
    r := SecondSplit(p, q, e, rest, min, max);
  }

  lemma SecondSplit(p: string, q: nat, e: nat, rest: string, min: nat, max: nat) returns (r: nat)
    requires q < e <= |p| && rest == p[q..e] && UpperPart(rest, min, max)
    ensures p[q] == '}' || (p[q] == ',' && At(p, q + 1) == '}')
      || (p[q] == ',' && q + 1 < r <= q + 10 && DigitsEnd(p, q + 1, r) && At(p, r) == '}')
  {
    hide Number;
    r := e - 1;
    assert rest[0] == p[q] && (|rest| > 1 ==> rest[1] == p[q + 1]);
    if |rest| > 2 {
      Inside(p, q, e, 1, |rest| - 1);
    }
    assert rest[|rest| - 1] == p[r];
  }

  lemma NoNumber(p: string, at: nat)
    requires At(p, at) == '{' && !IsDigit(At(p, at + 1))
    ensures NoCount(p, at)
  {
    hide CountSpelt;
    forall e: nat, min: nat, max: nat | at <= e <= |p| ensures !CountSpelt(p[at..e], min, max) {
      if CountSpelt(p[at..e], min, max) {
        var q, r := CountSplit(p, at, e, min, max);
        NothingEnds(p, at + 1, q);
      }
    }
  }

  lemma NothingEnds(p: string, a: nat, q: nat)
    requires DigitsEnd(p, a, q)
    ensures !IsDigit(At(p, a)) ==> q == a
  {
    assert a < q ==> p[a..q][0] == p[a];
  }

  lemma LongNumber(p: string, at: nat)
    requires At(p, at) == '{' && TooLong(p, at + 1)
    ensures NoCount(p, at)
  {
    hide CountSpelt, DigitsEnd, TooLong;
    forall e: nat, min: nat, max: nat | at <= e <= |p| ensures !CountSpelt(p[at..e], min, max) {
      if CountSpelt(p[at..e], min, max) {
        var q, r := CountSplit(p, at, e, min, max);
        DigitsEndOnce(p, at + 1, q, q);
      }
    }
  }

  /** Behind the first number, which ends at `q`. */
  lemma NoUpperPart(p: string, at: nat, q: nat)
    requires At(p, at) == '{' && DigitsEnd(p, at + 1, q)
    requires
      || At(p, q) !in "},"
      || (At(p, q) == ',' && !IsDigit(At(p, q + 1)) && At(p, q + 1) != '}')
      || (At(p, q) == ',' && TooLong(p, q + 1))
    ensures NoCount(p, at)
  {
    hide CountSpelt, DigitsEnd, TooLong;
    forall e: nat, min: nat, max: nat | at <= e <= |p| ensures !CountSpelt(p[at..e], min, max) {
      if CountSpelt(p[at..e], min, max) {
        var q', r := CountSplit(p, at, e, min, max);
        DigitsEndOnce(p, at + 1, q, q');
        EndOfSecond(p, q + 1, r);
      }
    }
  }

  lemma EndOfSecond(p: string, a: nat, r: nat)
    ensures DigitsEnd(p, a, r) && a < r <= a + 9 ==> IsDigit(At(p, a)) && !TooLong(p, a)
    ensures TooLong(p, a) ==> At(p, a) != '}'
  {
    assert TooLong(p, a) ==> p[a..a + 10][0] == p[a];
    if DigitsEnd(p, a, r) && a < r {
      NothingEnds(p, a, r);
      DigitsEndOnce(p, a, r, r);
    }
  }

  /** Behind the second number, which ends at `r`. */
  lemma NoBrace(p: string, at: nat, q: nat, r: nat)
    requires At(p, at) == '{' && DigitsEnd(p, at + 1, q) && At(p, q) == ','
    requires q + 1 < r && DigitsEnd(p, q + 1, r) && At(p, r) != '}'
    ensures NoCount(p, at)
  {
    hide CountSpelt, DigitsEnd;
    forall e: nat, min: nat, max: nat | at <= e <= |p| ensures !CountSpelt(p[at..e], min, max) {
      if CountSpelt(p[at..e], min, max) {
        var q', r' := CountSplit(p, at, e, min, max);
        DigitsEndOnce(p, at + 1, q, q');
        SecondAgain(p, q + 1, r, r');
      }
    }
  }

  lemma SecondAgain(p: string, a: nat, r: nat, r': nat)
    requires a < r && DigitsEnd(p, a, r)
    ensures At(p, a) != '}' && (DigitsEnd(p, a, r') ==> r == r')
  {
    NothingEnds(p, a, r);
    if DigitsEnd(p, a, r') {
      DigitsEndOnce(p, a, r, r');
    }
  }
}
