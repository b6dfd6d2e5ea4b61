/** Patterns are unambiguous: whatever tree the compiler builds is the only one its pattern spells. */
module TrexReading {
  import opened TrexSyntax
  import opened TrexSpelling

  /** Two ways to split the same text have the same first part as soon as the lengths agree. */
  lemma SameSplit(s: string, t: string, s': string, t': string)
    requires s + t == s' + t' && |s| == |s'|
    ensures s == s' && t == t'
  {
    assert s == (s + t)[..|s|] == s';
    assert t == (s + t)[|s|..] == t';
  }

  // ----- single characters

  /** One character, or two after a backslash. */
  predicate Token(s: string) {
    s != "" && |s| == if s[0] == '\\' then 2 else 1
  }

  lemma TokenUnique(s: string, t: string, s': string, t': string)
    requires s + t == s' + t' && Token(s) && Token(s')
    ensures s == s' && t == t'
  {
    assert s[0] == (s + t)[0] == s'[0];
    SameSplit(s, t, s', t');
  }

  // ----- classes

  /** The token an item starts with, and the upper end if it is a range. */
  lemma ItemParts(s: string, i: Item, lo: nat) returns (u: string, v: string)
    requires ItemSpelt(s, i, lo)
    ensures Token(u) && u[0] != ']' && s == u + v
    ensures i.One? ==> v == "" && LetterSpelt(u, i.c, true)
    ensures i.Named? ==> v == "" && ClassSpelt(u, i.id)
    ensures i.Range? ==>
      Starts(v, "-") && LetterSpelt(u, i.low, true) && UpperSpelt(v[1..], i.high) && |v| > 1 && lo <= v[1] as int
  {
    match i
    case One(_) => u, v := s, "";
    case Named(_) => u, v := s, "";
    case Range(low, high) =>
      var a, b :| s == a + "-" + b && LetterSpelt(a, low, true) && UpperSpelt(b, high) && lo <= b[0] as int;
      u, v := a, "-" + b;
      assert v[1..] == b;
  }

  lemma ItemUnique(s: string, t: string, i: Item, lo: nat, s': string, t': string, i': Item, lo': nat)
    requires s + t == s' + t' && ItemSpelt(s, i, lo) && ItemSpelt(s', i', lo')
    requires (i.Range? || !Starts(t, "-")) && (i'.Range? || !Starts(t', "-"))
    ensures s == s' && t == t' && i == i'
  {
    hide ItemSpelt;
    var u, v := ItemParts(s, i, lo);
    var u', v' := ItemParts(s', i', lo');
    assert u + (v + t) == s + t == u' + (v' + t');
    TokenUnique(u, v + t, u', v' + t');
    assert i.Range? ==> Starts(v + t, "-") && v + t == "-" + (v[1..] + t);
    assert i'.Range? ==> Starts(v' + t', "-") && v' + t' == "-" + (v'[1..] + t');
    assert !i.Range? ==> v + t == t;
    assert !i'.Range? ==> v' + t' == t';
    if i.Range? {
      assert v[1..] + t == (v + t)[1..] == v'[1..] + t';
      TokenUnique(v[1..], t, v'[1..], t');
    }
    assert |s| == |s'|;
    SameSplit(s, t, s', t');
  }

  lemma {:induction false} ItemsUnique(s: string, t: string, items: Items, lo: nat, s': string, t': string, items': Items, lo': nat)
    requires s + t == s' + t' && ItemsSpelt(s, items, lo) && ItemsSpelt(s', items', lo')
    requires Starts(t, "]") && Starts(t', "]")
    ensures s == s' && t == t' && items == items'
    decreases items
  {
    hide ItemsSpelt, ItemSpelt;
    if items.NoItems? || items'.NoItems? {
      NoItemsSpelt(s, lo);
      NoItemsSpelt(s', lo');
      if items.MoreItems? {
        FirstIsNoBracket(s, t, items, lo);
      }
      if items'.MoreItems? {
        FirstIsNoBracket(s', t', items', lo');
      }
      assert s == "" ==> s + t == t;
      assert s' == "" ==> s' + t' == t';
    } else {
      var u, v := ItemsSplit(s, items, lo);
      var u', v' := ItemsSplit(s', items', lo');
      assert u + (v + t) == s + t == u' + (v' + t');
      ItemUnique(u, v + t, items.first, lo, u', v' + t', items'.first, lo');
      ItemsUnique(v, t, items.rest, lo + Width(items.first), v', t', items'.rest, lo' + Width(items'.first));
    }
  }

  lemma FirstIsNoBracket(s: string, t: string, items: Items, lo: nat)
    requires ItemsSpelt(s, items, lo) && items.MoreItems?
    ensures s != "" && s[0] != ']' && (s + t)[0] == s[0]
  {
    hide ItemsSpelt, ItemSpelt;
    var u, v := ItemsSplit(s, items, lo);
    var a, b := ItemParts(u, items.first, lo);
  }

  // ----- counts

  lemma DigitsUnique(d: string, t: string, d': string, t': string)
    requires d + t == d' + t' && AllDigits(d) && AllDigits(d')
    requires t != "" && !IsDigit(t[0]) && t' != "" && !IsDigit(t'[0])
    ensures d == d' && t == t'
  {
    assert forall k :: 0 <= k < |d| ==> (d + t)[k] == d[k];
    assert forall k :: 0 <= k < |d'| ==> (d' + t')[k] == d'[k];
    assert (d + t)[|d|] == t[0] && (d' + t')[|d'|] == t'[0];
    SameSplit(d, t, d', t');
  }

  /** What follows the first number in braces: "}", ",}" or "," and a second number. */
  predicate UpperPart(e: string, min: nat, max: nat) {
    || (e == "}" && max == min)
    || (e == ",}" && max == 0xFFFF)
    || (|e| > 2 && e[0] == ',' && IsDigit(e[1]) && e[|e| - 1] == '}' && NumberSpelt(e[1..|e| - 1], max))
  }

  lemma CountParts(q: string, min: nat, max: nat) returns (d: string, e: string)
    requires CountSpelt(q, min, max) && Starts(q, "{")
    ensures q == "{" + (d + e) && NumberSpelt(d, min) && UpperPart(e, min, max)
  {
    hide NumberSpelt;
    if d0 :| q == "{" + d0 + "}" && NumberSpelt(d0, min) && max == min {
      d, e := d0, "}";
    } else if d0 :| q == "{" + d0 + ",}" && NumberSpelt(d0, min) && max == 0xFFFF {
      d, e := d0, ",}";
    } else {
      var d0, e0 :| q == "{" + d0 + "," + e0 + "}" && NumberSpelt(d0, min) && NumberSpelt(e0, max);
      d, e := d0, "," + e0 + "}";
      SecondNumber(e0, min, max);
    }
  }

  lemma SecondNumber(n: string, min: nat, max: nat)
    requires NumberSpelt(n, max)
    ensures UpperPart("," + n + "}", min, max)
  {
    hide Number;
    var e := "," + n + "}";
    assert e[1..|e| - 1] == n;
  }

  lemma CountStarts(q: string, min: nat, max: nat)
    requires CountSpelt(q, min, max)
    ensures Starts(q, "*+?{") && (q[0] != '{' ==> |q| == 1)
  {
    hide NumberSpelt;
  }

  lemma CountUnique(q: string, t: string, min: nat, max: nat, q': string, t': string, min': nat, max': nat)
    requires q + t == q' + t' && CountSpelt(q, min, max) && CountSpelt(q', min', max')
    ensures q == q' && t == t' && min == min' && max == max'
  {
    hide CountSpelt, Number, UpperPart;
    CountStarts(q, min, max);
    CountStarts(q', min', max');
    assert q[0] == (q + t)[0] == q'[0];
    if q[0] == '{' {
      var d, e := CountParts(q, min, max);
      var d', e' := CountParts(q', min', max');
      assert d + (e + t) == (q + t)[1..] == d' + (e' + t');
      UpperStarts(e, min, max);
      UpperStarts(e', min', max');
      DigitsUnique(d, e + t, d', e' + t');
      UpperUnique(e, t, min, max, e', t', max');
      assert q == q';
      SameSplit(q, t, q', t');
    } else {
      SameSplit(q, t, q', t');
      ShortCount(q, min, max, min', max');
    }
  }

  lemma ShortCount(q: string, min: nat, max: nat, min': nat, max': nat)
    requires CountSpelt(q, min, max) && CountSpelt(q, min', max') && |q| == 1
    ensures min == min' && max == max'
  {
  }

  lemma UpperStarts(e: string, min: nat, max: nat)
    requires UpperPart(e, min, max)
    ensures Starts(e, ",}")
  {
    hide NumberSpelt;
  }

  lemma UpperUnique(e: string, t: string, min: nat, max: nat, e': string, t': string, max': nat)
    requires e + t == e' + t' && UpperPart(e, min, max) && UpperPart(e', min, max')
    ensures e == e' && max == max'
  {
    hide Number;
    assert e[0] == (e + t)[0] == e'[0];
    if e[0] == ',' {
      assert e[1] == (e + t)[1] == e'[1];
      if e[1] != '}' {
        var n, n' := e[1..|e| - 1], e'[1..|e'| - 1];
        assert n + ("}" + t) == (e + t)[1..] == n' + ("}" + t');
        DigitsUnique(n, "}" + t, n', "}" + t');
        assert e == "," + n + "}" && e' == "," + n' + "}";
      }
    }
  }

  // ----- elements

  /** Elements of one character: everything but groups and classes. */
  lemma LeafUnique(s: string, t: string, r: Re, lo: nat, s': string, t': string, r': Re, lo': nat)
    requires s + t == s' + t' && BaseSpelt(s, r, lo) && BaseSpelt(s', r', lo')
    requires !r.Group? && !r.Set? && !r'.Group? && !r'.Set?
    ensures s == s' && t == t' && r == r'
  {
    TokenUnique(s, t, s', t');
  }

  lemma BaseStarts(s: string, t: string, r: Re, lo: nat)
    requires BaseSpelt(s, r, lo)
    ensures s != "" && (s + t)[0] == s[0] && (s[0] == '(' <==> r.Group?) && (s[0] == '[' <==> r.Set?)
  {
    hide AltSpelt, ItemsSpelt;
  }

  lemma SetParts(s: string, r: Re, lo: nat) returns (u: string)
    requires BaseSpelt(s, r, lo) && r.Set?
    ensures s == (if r.negated then "[^" else "[") + u + "]" && ItemsSpelt(u, r.items, lo + 1)
    ensures r.items.MoreItems? && (r.negated || !Starts(u, "^")) && u != ""
  {
    hide ItemsSpelt;
    u :| Bracketed(s, u, r.negated, r.items, lo);
    ItemsNotEmpty(u, r.items, lo + 1);
  }

  lemma SetUnique(s: string, t: string, r: Re, lo: nat, s': string, t': string, r': Re, lo': nat)
    requires s + t == s' + t' && BaseSpelt(s, r, lo) && BaseSpelt(s', r', lo') && r.Set? && r'.Set?
    ensures s == s' && t == t' && r == r'
  {
    hide BaseSpelt, ItemsSpelt;
    var u := SetParts(s, r, lo);
    var u' := SetParts(s', r', lo');
    assert s[1] == (s + t)[1] == s'[1];
    var k := if r.negated then 2 else 1;
    assert u + ("]" + t) == (s + t)[k..] == u' + ("]" + t');
    ItemsUnique(u, "]" + t, r.items, lo + 1, u', "]" + t', r'.items, lo' + 1);
    SameSplit(s, t, s', t');
  }

  lemma GroupParts(s: string, r: Re, lo: nat) returns (u: string)
    requires BaseSpelt(s, r, lo) && r.Group?
    ensures s == (if r.capture then "(" else "(?:") + u + ")" && AltSpelt(u, r.body, lo + 1)
    ensures r.capture ==> !Starts(u, "?")
  {
    hide AltSpelt;
    u :| Grouped(s, u, r.capture, r.body, lo);
  }

  lemma {:induction false} BaseUnique(s: string, t: string, r: Re, lo: nat, s': string, t': string, r': Re, lo': nat)
    requires s + t == s' + t' && BaseSpelt(s, r, lo) && BaseSpelt(s', r', lo')
    ensures s == s' && t == t' && r == r'
    decreases r, 0
  {
    hide BaseSpelt, AltSpelt;
    BaseStarts(s, t, r, lo);
    BaseStarts(s', t', r', lo');
    if r.Group? {
      var u := GroupParts(s, r, lo);
      var u' := GroupParts(s', r', lo');
      assert (s + t)[1] == s[1] && (s' + t')[1] == s'[1];
      assert r.capture == (s[1] != '?') && r'.capture == (s'[1] != '?');
      var k := if r.capture then 1 else 3;
      assert u + (")" + t) == (s + t)[k..] == u' + (")" + t');
      AltUnique(u, ")" + t, r.body, lo + 1, u', ")" + t', r'.body, lo' + 1);
      SameSplit(s, t, s', t');
    } else if r.Set? {
      SetUnique(s, t, r, lo, s', t', r', lo');
    } else {
      LeafUnique(s, t, r, lo, s', t', r', lo');
    }
  }

  lemma CountedParts(s: string, r: Re, lo: nat) returns (b: Re, u: string, q: string)
    requires CountedSpelt(s, r, lo)
    ensures s == u + q && BaseSpelt(u, b, lo)
    ensures if r.Repeat? then b == r.body1 && CountSpelt(q, r.min, r.max) else b == r && q == ""
  {
    hide BaseSpelt, CountSpelt;
    if r.Repeat? {
      b := r.body1;
      u, q :| s == u + q && BaseSpelt(u, b, lo) && CountSpelt(q, r.min, r.max);
    } else {
      b, u, q := r, s, "";
    }
  }

  lemma {:induction false} CountedUnique(s: string, t: string, r: Re, lo: nat, s': string, t': string, r': Re, lo': nat)
    requires s + t == s' + t' && CountedSpelt(s, r, lo) && CountedSpelt(s', r', lo')
    requires (r.Repeat? || !Starts(t, "*+?{")) && (r'.Repeat? || !Starts(t', "*+?{"))
    ensures s == s' && t == t' && r == r'
    decreases r, 1
  {
    hide CountedSpelt, BaseSpelt, CountSpelt;
    var b, u, q := CountedParts(s, r, lo);
    var b', u', q' := CountedParts(s', r', lo');
    assert u + (q + t) == s + t == u' + (q' + t');
    BaseUnique(u, q + t, b, lo, u', q' + t', b', lo');
    if r.Repeat? {
      CountStarts(q, r.min, r.max);
    }
    if r'.Repeat? {
      CountStarts(q', r'.min, r'.max);
    }
    assert q == "" ==> q + t == t;
    assert q' == "" ==> q' + t' == t';
    if r.Repeat? {
      CountUnique(q, t, r.min, r.max, q', t', r'.min, r'.max);
    }
  }

  lemma ElementsParts(s: string, c: Chain, lo: nat) returns (u: string, v: string)
    requires ElementsSpelt(s, c, lo)
    ensures c.Link? && s == u + v && u != "" && CountedSpelt(u, c.head, lo) && (c.head.Repeat? || !Starts(v, "*+?{"))
    ensures if c.tail.End? then v == "" else ElementsSpelt(v, c.tail, lo + Size(c.head)) && v != "" && !Starts(v, "|)*+")
    decreases c
  {
    hide CountedSpelt;
    u, v :|
      && s == u + v && CountedSpelt(u, c.head, lo)
      && (c.head.Repeat? || !Starts(v, "*+?{"))
      && (if c.tail.End? then v == "" else ElementsSpelt(v, c.tail, lo + Size(c.head)) && !Starts(v, "|)*+"));
    CountedNotEmpty(u, c.head, lo);
    if c.tail.Link? {
      var _, _ := ElementsParts(v, c.tail, lo + Size(c.head));
    }
  }

  lemma CountedNotEmpty(s: string, r: Re, lo: nat)
    requires CountedSpelt(s, r, lo)
    ensures s != ""
  {
    hide CountedSpelt, BaseSpelt, CountSpelt;
    var b, u, q := CountedParts(s, r, lo);
    BaseStarts(u, "", b, lo);
  }

  lemma HeadEnds(t: string, c: Chain, v: string)
    requires c.Link? && Ends(t, c) && (c.head.Repeat? || !Starts(v, "*+?{"))
    requires if c.tail.End? then v == "" else v != "" && !Starts(v, "|)*+")
    ensures c.head.Repeat? || !Starts(v + t, "*+?{")
    ensures v == "" ==> v + t == t
    ensures c.tail.Link? ==> Ends(t, c.tail)
  {
  }

  lemma SameEnd(t: string, c: Chain, v: string, t': string, c': Chain, v': string)
    requires c.Link? && c'.Link? && Ends(t, c) && Ends(t', c') && v + t == v' + t'
    requires if c.tail.End? then v == "" else v != "" && !Starts(v, "|)*+")
    requires if c'.tail.End? then v' == "" else v' != "" && !Starts(v', "|)*+")
    ensures c.tail.End? <==> c'.tail.End?
  {
    hide LastRepeats;
    assert v == "" ==> v + t == t;
    assert v' == "" ==> v' + t' == t';
    assert v != "" ==> (v + t)[0] == v[0];
    assert v' != "" ==> (v' + t')[0] == v'[0];
  }

  lemma {:induction false} ElementsUnique(s: string, t: string, c: Chain, lo: nat, s': string, t': string, c': Chain, lo': nat)
    requires s + t == s' + t' && ElementsSpelt(s, c, lo) && ElementsSpelt(s', c', lo')
    requires Ends(t, c) && Ends(t', c')
    ensures s == s' && t == t' && c == c'
    decreases c, 0
  {
    hide ElementsSpelt, CountedSpelt;
    var u, v := ElementsParts(s, c, lo);
    var u', v' := ElementsParts(s', c', lo');
    assert u + (v + t) == s + t == u' + (v' + t');
    HeadEnds(t, c, v);
    HeadEnds(t', c', v');
    CountedUnique(u, v + t, c.head, lo, u', v' + t', c'.head, lo');
    SameEnd(t, c, v, t', c', v');
    hide Ends;
    if c.tail.Link? {
      ElementsUnique(v, t, c.tail, lo + Size(c.head), v', t', c'.tail, lo' + Size(c'.head));
    }
  }

  lemma {:induction false} SequenceUnique(s: string, t: string, c: Chain, lo: nat, s': string, t': string, c': Chain, lo': nat)
    requires s + t == s' + t' && SequenceSpelt(s, c, lo) && SequenceSpelt(s', c', lo')
    requires Ends(t, c) && Ends(t', c')
    ensures s == s' && t == t' && c == c'
    decreases c, 1
  {
    hide ElementsSpelt;
    SequenceNotEmpty(s, c, lo);
    SequenceNotEmpty(s', c', lo');
    assert (s + t)[0] == s[0] && (s' + t')[0] == s'[0];
    if Starts(s, "^") {
      assert s[1..] + t == (s + t)[1..] == s'[1..] + t';
      var _, _ := ElementsParts(s[1..], c.tail, lo + 1);
      var _, _ := ElementsParts(s'[1..], c'.tail, lo' + 1);
      ElementsUnique(s[1..], t, c.tail, lo + 1, s'[1..], t', c'.tail, lo' + 1);
      SameSplit(s, t, s', t');
    } else {
      ElementsUnique(s, t, c, lo, s', t', c', lo');
    }
  }

  lemma SequenceNotEmpty(s: string, c: Chain, lo: nat)
    requires SequenceSpelt(s, c, lo)
    ensures s != ""
  {
    hide ElementsSpelt;
    if !Starts(s, "^") {
      var _, _ := ElementsParts(s, c, lo);
    }
  }

  lemma AltParts(s: string, a: Alt, lo: nat) returns (c: Chain, u: string, v: string)
    requires AltSpelt(s, a, lo)
    ensures SequenceSpelt(u, c, lo)
    ensures a.Only? ==> c == a.chain && u == s && v == ""
    ensures a.Either? ==> c == a.first && s == u + ("|" + v) && AltSpelt(v, a.others, lo + ChainSize(c) + 1)
  {
    hide SequenceSpelt;
    match a
    case Only(d) => c, u, v := d, s, "";
    case Either(d, b) =>
      c := d;
      u, v :| s == u + "|" + v && SequenceSpelt(u, d, lo) && AltSpelt(v, b, lo + ChainSize(d) + 1);
  }

  lemma {:induction false} AltUnique(s: string, t: string, a: Alt, lo: nat, s': string, t': string, a': Alt, lo': nat)
    requires s + t == s' + t' && AltSpelt(s, a, lo) && AltSpelt(s', a', lo')
    requires AltEnds(t, a) && AltEnds(t', a')
    ensures s == s' && t == t' && a == a'
    decreases a
  {
    hide AltSpelt, SequenceSpelt;
    var c, u, v := AltParts(s, a, lo);
    var c', u', v' := AltParts(s', a', lo');
    var w := if a.Only? then t else "|" + (v + t);
    var w' := if a'.Only? then t' else "|" + (v' + t');
    assert u + w == s + t;
    assert u' + w' == s' + t';
    SequenceUnique(u, w, c, lo, u', w', c', lo');
    if a.Either? {
      assert v + t == w[1..] && v' + t' == w'[1..];
      AltUnique(v, t, a.others, lo + ChainSize(c) + 1, v', t', a'.others, lo' + ChainSize(c') + 1);
    }
    SameSplit(s, t, s', t');
  }

  /** A pattern has at most one reading. */
  lemma PatternsAreUnambiguous(pattern: string, a: Alt, lo: nat, b: Alt, lo': nat)
    requires AltSpelt(pattern, a, lo) && AltSpelt(pattern, b, lo')
    ensures a == b
  {
    AltUnique(pattern, "", a, lo, pattern, "", b, lo');
  }
}
