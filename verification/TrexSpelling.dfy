/**
 How a pattern spells a tree: the grammar of T-Rex patterns. It takes some care to make the grammar unambiguous,
 as nearly every special character is a letter where it cannot mean anything else. `lo` is the number of the first
 node of the tree, on which the source makes it depend whether a range is accepted.
 */
module TrexSpelling {
  import opened TrexSyntax

  predicate IsClassId(c: char) { c in "aAwWsSdDxXcCpPlu" }

  predicate IsEdgeId(c: char) { c == 'b' || c == 'B' }

  function Unescape(c: char): char {
    match c
    case 'v' => '\U{0B}'
    case 'n' => '\n'
    case 't' => '\t'
    case 'r' => '\r'
    case 'f' => '\U{0C}'
    case other => other
  }

  predicate Starts(s: string, chars: string) {
    s != "" && s[0] in chars
  }

  predicate Escape(s: string) { |s| == 2 && s[0] == '\\' }

  /** A letter. Inside a class only the backslash and the closing bracket are special, and \b is just a letter. */
  predicate LetterSpelt(s: string, c: char, inClass: bool) {
    || (s == [c] && IsPrint(c) && c != '\\' && (if inClass then c != ']' else c !in "([$."))
    || (Escape(s) && c == Unescape(s[1]) && !IsClassId(s[1]) && (inClass || !IsEdgeId(s[1])))
  }

  predicate ClassSpelt(s: string, id: char) { s == ['\\', id] && IsClassId(id) }

  /** The upper end of a range: here even \d is just a letter, and so is the closing bracket. */
  predicate UpperSpelt(s: string, c: char) {
    (s == [c] && IsPrint(c) && c != '\\') || (Escape(s) && c == Unescape(s[1]))
  }

  /** The source compares the first character of the upper end with the number of the node of the lower end. */
  ghost predicate ItemSpelt(s: string, i: Item, lo: nat) {
    match i
    case One(c) => LetterSpelt(s, c, true)
    case Named(id) => ClassSpelt(s, id)
    case Range(low, high) =>
      exists u, v :: s == u + "-" + v && LetterSpelt(u, low, true) && UpperSpelt(v, high) && lo <= v[0] as int
  }

  /** A member followed by '-' is the lower end of a range. */
  ghost predicate ItemsSpelt(s: string, items: Items, lo: nat)
    decreases items
  {
    if items.NoItems? then s == ""
    else exists u, v :: s == u + v && ItemSpelt(u, items.first, lo) && ItemsSpelt(v, items.rest, lo + Width(items.first))
                        && (items.first.Range? || !Starts(v, "-"))
  }

  predicate AllDigits(s: string) { forall i :: 0 <= i < |s| ==> IsDigit(s[i]) }

  function Number(s: string): nat
    requires AllDigits(s)
    decreases |s|
  {
    if s == "" then 0 else 10 * Number(s[..|s| - 1]) + (s[|s| - 1] as int - '0' as int)
  }

  /** At most nine digits, of whose value 16 bits are kept. */
  predicate NumberSpelt(s: string, n: nat) {
    0 < |s| <= 9 && AllDigits(s) && n == Number(s) % 0x10000
  }

  ghost predicate CountSpelt(s: string, min: nat, max: nat) {
    || (s == "*" && min == 0 && max == 0xFFFF)
    || (s == "+" && min == 1 && max == 0xFFFF)
    || (s == "?" && min == 0 && max == 1)
    || (exists d :: s == "{" + d + "}" && NumberSpelt(d, min) && max == min)
    || (exists d :: s == "{" + d + ",}" && NumberSpelt(d, min) && max == 0xFFFF)
    || (exists d, e :: s == "{" + d + "," + e + "}" && NumberSpelt(d, min) && NumberSpelt(e, max))
  }

  /** An element without its count. */
  ghost predicate BaseSpelt(s: string, r: Re, lo: nat)
    decreases r, 0
  {
    match r
    case Letter(c) => LetterSpelt(s, c, false)
    case Class(id) => ClassSpelt(s, id)
    case AnyChar => s == "."
    case LineEnd => s == "$"
    case LineStart => false
    case WordEdge(b) => s == ['\\', b] && IsEdgeId(b)
    case Set(negated, items) =>
      items.MoreItems? && exists t :: Bracketed(s, t, negated, items, lo)
    case Group(capture, a) => exists t :: Grouped(s, t, capture, a, lo)
    case Repeat(_, _, _) => false
  }

  ghost predicate Bracketed(s: string, t: string, negated: bool, items: Items, lo: nat) {
    s == (if negated then "[^" else "[") + t + "]" && ItemsSpelt(t, items, lo + 1) && (negated || !Starts(t, "^"))
  }

  ghost predicate Grouped(s: string, t: string, capture: bool, a: Alt, lo: nat)
    decreases a, 1
  {
    s == (if capture then "(" else "(?:") + t + ")" && AltSpelt(t, a, lo + 1) && (capture ==> !Starts(t, "?"))
  }

  ghost predicate CountedSpelt(s: string, r: Re, lo: nat)
    decreases r, 1
  {
    match r
    case Repeat(min, max, b) => exists t, q :: s == t + q && BaseSpelt(t, b, lo) && CountSpelt(q, min, max)
    case _ => BaseSpelt(s, r, lo)
  }

  /** Elements in sequence: the ones behind the first do not start with a special character. */
  ghost predicate ElementsSpelt(s: string, c: Chain, lo: nat)
    decreases c, 0
  {
    c.Link? &&
    exists t, u ::
      && s == t + u && CountedSpelt(t, c.head, lo)
      && (c.head.Repeat? || !Starts(u, "*+?{"))
      && (if c.tail.End? then u == "" else ElementsSpelt(u, c.tail, lo + Size(c.head)) && !Starts(u, "|)*+"))
  }

  /** A '^' at the start of a sequence is an assertion, elsewhere a letter. */
  ghost predicate SequenceSpelt(s: string, c: Chain, lo: nat)
    decreases c, 1
  {
    if Starts(s, "^") then c.Link? && c.head == LineStart && ElementsSpelt(s[1..], c.tail, lo + 1)
    else ElementsSpelt(s, c, lo)
  }

  ghost predicate AltSpelt(s: string, a: Alt, lo: nat)
    decreases a, 0
  {
    match a
    case Only(c) => SequenceSpelt(s, c, lo)
    case Either(c, b) => exists t, u :: s == t + "|" + u && SequenceSpelt(t, c, lo) && AltSpelt(u, b, lo + ChainSize(c) + 1)
  }

  // ----- classes, member by member

  function Snoc(items: Items, i: Item): (more: Items)
    ensures Span(more) == Span(items) + Width(i)
  {
    if items.NoItems? then MoreItems(i, NoItems) else MoreItems(items.first, Snoc(items.rest, i))
  }

  /** What follows these members, a dash or not, does not turn the last one into a range. */
  predicate MayFollow(items: Items, dash: bool) {
    items.MoreItems? ==> if items.rest.MoreItems? then MayFollow(items.rest, dash) else items.first.Range? || !dash
  }

  lemma ItemNotEmpty(s: string, i: Item, lo: nat)
    requires ItemSpelt(s, i, lo)
    ensures s != ""
  {
  }

  lemma {:induction false} ItemsSpeltSnoc(s: string, items: Items, t: string, i: Item, lo: nat)
    requires ItemsSpelt(s, items, lo) && ItemSpelt(t, i, lo + Span(items)) && MayFollow(items, Starts(t, "-"))
    ensures ItemsSpelt(s + t, Snoc(items, i), lo)
    decreases items
  {
    hide ItemSpelt, ItemsSpelt;
    if items.NoItems? {
      NoItemsSpelt(s, lo);
      NoItemsSpelt("", lo + Width(i));
      assert s + t == t + "";
      ItemsLink(t, "", i, NoItems, lo);
    } else {
      var u, v := ItemsSplit(s, items, lo);
      var next := lo + Width(items.first);
      ItemsSpeltSnoc(v, items.rest, t, i, next);
      assert s + t == u + (v + t);
      if items.rest.MoreItems? {
        ItemsNotEmpty(v, items.rest, next);
        assert (v + t)[0] == v[0];
      } else {
        NoItemsSpelt(v, next);
        assert v + t == t;
      }
      ItemsLink(u, v + t, items.first, Snoc(items.rest, i), lo);
    }
  }

  lemma NoItemsSpelt(s: string, lo: nat)
    ensures ItemsSpelt(s, NoItems, lo) <==> s == ""
  {
  }

  lemma ItemsSplit(s: string, items: Items, lo: nat) returns (u: string, v: string)
    requires ItemsSpelt(s, items, lo) && items.MoreItems?
    ensures s == u + v && ItemSpelt(u, items.first, lo) && ItemsSpelt(v, items.rest, lo + Width(items.first))
    ensures items.first.Range? || !Starts(v, "-")
  {
    hide ItemSpelt;
    u, v :| s == u + v && ItemSpelt(u, items.first, lo) && ItemsSpelt(v, items.rest, lo + Width(items.first))
            && (items.first.Range? || !Starts(v, "-"));
  }

  lemma ItemsLink(u: string, v: string, i: Item, items: Items, lo: nat)
    requires ItemSpelt(u, i, lo) && ItemsSpelt(v, items, lo + Width(i)) && (i.Range? || !Starts(v, "-"))
    ensures ItemsSpelt(u + v, MoreItems(i, items), lo)
  {
    hide ItemSpelt;
  }

  lemma ItemsNotEmpty(s: string, items: Items, lo: nat)
    requires ItemsSpelt(s, items, lo) && items.MoreItems?
    ensures s != ""
  {
    hide ItemSpelt, ItemsSpelt;
    var u, v := ItemsSplit(s, items, lo);
    ItemNotEmpty(u, items.first, lo);
  }

  lemma {:induction false} AfterSnoc(items: Items, i: Item, dash: bool)
    requires i.Range? || !dash
    ensures MayFollow(Snoc(items, i), dash)
  {
    if items.MoreItems? {
      AfterSnoc(items.rest, i, dash);
    }
  }

  lemma {:induction false} NoDashMayFollow(items: Items)
    ensures MayFollow(items, false)
  {
    if items.MoreItems? {
      NoDashMayFollow(items.rest);
    }
  }

  // ----- where the compiler stops

  predicate LastRepeats(c: Chain) {
    c.Link? && if c.tail.End? then c.head.Repeat? else LastRepeats(c.tail)
  }

  predicate AltLastRepeats(a: Alt) {
    match a
    case Only(c) => LastRepeats(c)
    case Either(_, b) => AltLastRepeats(b)
  }

  /** The text `t` ends a sequence. A second count does, too, although nothing goes on from there. */
  predicate Ends(t: string, c: Chain) {
    t == "" || Starts(t, "|)") || (Starts(t, "*+") && LastRepeats(c))
  }

  predicate AltEnds(t: string, a: Alt) {
    t == "" || Starts(t, ")") || (Starts(t, "*+") && AltLastRepeats(a))
  }
}
