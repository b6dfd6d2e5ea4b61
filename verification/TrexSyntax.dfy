/** The T-Rex regular expressions: node arrays as the compiler builds them, and the trees they stand for. */
module TrexSyntax {

  // ----- the node array

  datatype NodeType =
    | OpGreedy | OpOr | OpExpr | OpNoCapExpr | OpDot | OpClass | OpCClass | OpNClass | OpRange | OpEol | OpBol | OpWb
    | Char(c: char)

  /** `TRexNode`; -1 is "no node". Depending on the type, `left` and `right` also hold characters or counts. */
  datatype Node = Node(typ: NodeType, left: int, right: int, next: int)

  // ----- the tree

  /** A member of a character class. */
  datatype Item = One(c: char) | Named(id: char) | Range(low: char, high: char)

  datatype Items = NoItems | MoreItems(first: Item, rest: Items)

  datatype Re =
    | Letter(c: char)
    | Class(id: char)
    | AnyChar
    | LineEnd
    | LineStart
    | WordEdge(b: char)
    | Set(negated: bool, items: Items)
    | Group(capture: bool, body: Alt)
    | Repeat(min: nat, max: nat, body1: Re)

  /** Elements in sequence. */
  datatype Chain = End | Link(head: Re, tail: Chain)

  datatype Alt = Only(chain: Chain) | Either(first: Chain, others: Alt)

  /** The node of a range's lower end stays allocated, unlinked, before the node of the range. */
  function Width(i: Item): nat {
    if i.Range? then 2 else 1
  }

  function Span(items: Items): nat {
    if items.NoItems? then 0 else Width(items.first) + Span(items.rest)
  }

  /** How many nodes the compiler allocates for each. */
  function Size(r: Re): (n: nat)
    ensures n >= 1
  {
    match r
    case Set(_, items) => 1 + Span(items)
    case Group(_, a) => 1 + AltSize(a)
    case Repeat(_, _, b) => Size(b) + 1
    case _ => 1
  }

  function ChainSize(c: Chain): (n: nat)
    ensures c.Link? ==> n >= 1
  {
    if c.End? then 0 else Size(c.head) + ChainSize(c.tail)
  }

  function AltSize(a: Alt): nat {
    match a
    case Only(c) => ChainSize(c)
    case Either(c, b) => ChainSize(c) + 1 + AltSize(b)
  }

  /** The index of the node that stands for each, when its nodes start at `lo`. */
  function Root(r: Re, lo: nat): nat {
    if r.Repeat? then lo + Size(r) - 1 else lo
  }

  function ChainRoot(c: Chain, lo: nat): int {
    if c.End? then -1 else Root(c.head, lo)
  }

  function AltRoot(a: Alt, lo: nat): int {
    match a
    case Only(c) => ChainRoot(c, lo)
    case Either(c, _) => lo + ChainSize(c)
  }

  // ----- character classes

  /** The <ctype.h> predicates in the "C" locale. */
  predicate IsLower(c: char) { 'a' <= c <= 'z' }

  predicate IsUpper(c: char) { 'A' <= c <= 'Z' }

  predicate IsAlpha(c: char) { IsLower(c) || IsUpper(c) }

  predicate IsDigit(c: char) { '0' <= c <= '9' }

  predicate IsAlnum(c: char) { IsAlpha(c) || IsDigit(c) }

  predicate IsSpace(c: char) { c == ' ' || '\t' <= c <= '\r' }

  predicate IsXDigit(c: char) { IsDigit(c) || 'a' <= c <= 'f' || 'A' <= c <= 'F' }

  predicate IsPrint(c: char) { ' ' <= c <= '~' }

  predicate IsCntrl(c: char) { c < ' ' || c == '\U{7F}' }

  predicate IsPunct(c: char) { IsPrint(c) && c != ' ' && !IsAlnum(c) }

  /** `trex_matchcclass`. */
  predicate InClass(id: char, c: char) {
    match id
    case 'a' => IsAlpha(c)
    case 'A' => !IsAlpha(c)
    case 'w' => IsAlnum(c) || c == '_'
    case 'W' => !IsAlnum(c) && c != '_'
    case 's' => IsSpace(c)
    case 'S' => !IsSpace(c)
    case 'd' => IsDigit(c)
    case 'D' => !IsDigit(c)
    case 'x' => IsXDigit(c)
    case 'X' => !IsXDigit(c)
    case 'c' => IsCntrl(c)
    case 'C' => !IsCntrl(c)
    case 'p' => IsPunct(c)
    case 'P' => !IsPunct(c)
    case 'l' => IsLower(c)
    case 'u' => IsUpper(c)
    case _ => false
  }

  predicate InItem(i: Item, c: char) {
    match i
    case One(d) => c == d
    case Named(id) => InClass(id, c)
    case Range(low, high) => low <= c <= high
  }

  predicate InItems(s: Items, c: char) {
    s.MoreItems? && (InItem(s.first, c) || InItems(s.rest, c))
  }

  // ----- what a tree means

  /** Memory from the start of the text on; the text ends at `eol`. Nothing is assumed about what lies beyond. */
  datatype Input = Input(mem: nat -> char, eol: nat)

  predicate EdgeAt(x: Input, i: nat) {
    || (i == 0 && !IsSpace(x.mem(i)))
    || (i == x.eol && i > 0 && !IsSpace(x.mem(i - 1)))
    || (!IsSpace(x.mem(i)) && IsSpace(x.mem(i + 1)))
    || (IsSpace(x.mem(i)) && !IsSpace(x.mem(i + 1)))
  }

  /** The most repetitions a count allows: 0xFFFF stands for "no limit", which the matcher stops at 65536. */
  function Most(max: nat): nat {
    if max == 0xFFFF then 0x10000 else max
  }

  /** The text from `i` to `j` is in the language of `r`. */
  ghost predicate Means(x: Input, r: Re, i: nat, j: nat)
    decreases r, 0, 0
  {
    match r
    case Letter(c) => j == i + 1 && x.mem(i) == c
    case Class(id) => j == i + 1 && InClass(id, x.mem(i))
    case AnyChar => j == i + 1
    case LineEnd => i == j == x.eol
    case LineStart => i == j == 0
    case WordEdge(b) => i == j && (EdgeAt(x, i) <==> b == 'b')
    case Set(negated, items) => j == i + 1 && (InItems(items, x.mem(i)) <==> !negated)
    case Group(_, a) => AltMeans(x, a, i, j)
    case Repeat(min, max, b) => exists n: nat :: min <= n <= Most(max) && Times(x, b, n, i, j)
  }

  /** Exactly `n` repetitions. */
  ghost predicate Times(x: Input, r: Re, n: nat, i: nat, j: nat)
    decreases r, 1, n
  {
    if n == 0 then i == j
    else exists k: nat :: Times(x, r, n - 1, i, k) && Means(x, r, k, j)
  }

  ghost predicate ChainMeans(x: Input, c: Chain, i: nat, j: nat)
    decreases c, 0, 0
  {
    if c.End? then i == j
    else exists k: nat :: Means(x, c.head, i, k) && ChainMeans(x, c.tail, k, j)
  }

  ghost predicate AltMeans(x: Input, a: Alt, i: nat, j: nat)
    decreases a, 0, 0
  {
    match a
    case Only(c) => ChainMeans(x, c, i, j)
    case Either(c, b) => ChainMeans(x, c, i, j) || AltMeans(x, b, i, j)
  }
}
