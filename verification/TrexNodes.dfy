/**
 When a node array holds a tree. Nodes are allocated in the order the pattern is read, so a tree occupies a
 contiguous stretch of the array, and every link out of a node stays within the stretch: the reachable nodes
 form a finite tree.
 */
module TrexNodes {
  import opened TrexSyntax
  import opened TrexSpelling

  /** `first` of a range, and letters, are kept as character codes. */
  predicate HoldsItem(n: Node, i: Item) {
    match i
    case One(c) => n.typ == Char(c)
    case Named(id) => n.typ == OpCClass && n.left == id as int
    case Range(low, high) => n.typ == OpRange && n.left == low as int && n.right == high as int
  }

  /** The members of a class, linked through `next` with growing indices in [lo, hi). */
  predicate HoldsItems(nodes: seq<Node>, at: int, items: Items, lo: nat, hi: nat)
    decreases items
  {
    if items.NoItems? then at == -1
    else lo <= at < hi <= |nodes| && HoldsItem(nodes[at], items.first)
         && HoldsItems(nodes, nodes[at].next, items.rest, at + 1, hi)
  }

  /** The nodes of `r` start at `lo`. Nothing is said about the `next` link out of its root. */
  predicate Holds(nodes: seq<Node>, r: Re, lo: nat)
    decreases r
  {
    lo + Size(r) <= |nodes| &&
    var n := nodes[Root(r, lo)];
    match r
    case Letter(c) => n.typ == Char(c)
    case Class(id) => n.typ == OpCClass && n.left == id as int
    case AnyChar => n.typ == OpDot
    case LineEnd => n.typ == OpEol
    case LineStart => n.typ == OpBol
    case WordEdge(b) => n.typ == OpWb && n.left == b as int
    case Set(negated, items) =>
      n.typ == (if negated then OpNClass else OpClass) && items.MoreItems?
      && HoldsItems(nodes, n.left, items, lo + 1, lo + 1 + Span(items))
    case Group(capture, a) =>
      n.typ == (if capture then OpExpr else OpNoCapExpr) && n.left == AltRoot(a, lo + 1) && HoldsAlt(nodes, a, lo + 1)
    case Repeat(min, max, b) =>
      n.typ == OpGreedy && n.left == Root(b, lo) && n.right == min * 0x10000 + max && min < 0x10000 && max < 0x10000
      && Holds(nodes, b, lo) && nodes[Root(b, lo)].next == -1
  }

  predicate HoldsChain(nodes: seq<Node>, c: Chain, lo: nat)
    decreases c
  {
    c.Link? ==>
      && Holds(nodes, c.head, lo)
      && nodes[Root(c.head, lo)].next == ChainRoot(c.tail, lo + Size(c.head))
      && HoldsChain(nodes, c.tail, lo + Size(c.head))
  }

  predicate HoldsAlt(nodes: seq<Node>, a: Alt, lo: nat)
    decreases a
  {
    match a
    case Only(c) => c.Link? && HoldsChain(nodes, c, lo)
    case Either(c, b) =>
      var m := lo + ChainSize(c);
      && c.Link? && m < |nodes| && HoldsChain(nodes, c, lo)
      && nodes[m] == Node(OpOr, ChainRoot(c, lo), AltRoot(b, m + 1), -1)
      && HoldsAlt(nodes, b, m + 1)
  }

  /** The two arrays agree on [lo, hi). */
  predicate Same(a: seq<Node>, b: seq<Node>, lo: nat, hi: nat) {
    hi <= |a| && hi <= |b| && forall i :: lo <= i < hi ==> a[i] == b[i]
  }

  lemma {:induction false} ItemsFrame(a: seq<Node>, b: seq<Node>, at: int, items: Items, lo: nat, hi: nat)
    requires HoldsItems(a, at, items, lo, hi) && Same(a, b, lo, hi)
    ensures HoldsItems(b, at, items, lo, hi)
    decreases items
  {
    if items.MoreItems? {
      ItemsFrame(a, b, a[at].next, items.rest, at + 1, hi);
    }
  }

  /** A tree is held by its own stretch of nodes only, and the root's `next` is not part of it. */
  lemma {:induction false} Frame(a: seq<Node>, b: seq<Node>, r: Re, lo: nat)
    requires Holds(a, r, lo) && lo + Size(r) <= |b|
    requires forall i :: lo <= i < lo + Size(r) && i != Root(r, lo) ==> a[i] == b[i]
    requires b[Root(r, lo)] == a[Root(r, lo)].(next := b[Root(r, lo)].next)
    ensures Holds(b, r, lo)
    decreases r
  {
    hide HoldsItems, HoldsAlt, HoldsChain;
    match r
    case Set(_, items) => ItemsFrame(a, b, a[lo].left, items, lo + 1, lo + 1 + Span(items));
    case Group(_, alt) => AltFrame(a, b, alt, lo + 1);
    case Repeat(_, _, body) => Frame(a, b, body, lo);
    case _ =>
  }

  lemma {:induction false} ChainFrame(a: seq<Node>, b: seq<Node>, c: Chain, lo: nat)
    requires HoldsChain(a, c, lo) && Same(a, b, lo, lo + ChainSize(c))
    ensures HoldsChain(b, c, lo)
    decreases c
  {
    hide Holds;
    if c.Link? {
      RootInside(c.head, lo);
      Frame(a, b, c.head, lo);
      ChainFrame(a, b, c.tail, lo + Size(c.head));
    }
  }

  lemma {:induction false} AltFrame(a: seq<Node>, b: seq<Node>, alt: Alt, lo: nat)
    requires HoldsAlt(a, alt, lo) && Same(a, b, lo, lo + AltSize(alt))
    ensures HoldsAlt(b, alt, lo)
    decreases alt
  {
    hide HoldsChain, Holds;
    match alt
    case Only(c) => ChainFrame(a, b, c, lo);
    case Either(c, d) =>
      ChainFrame(a, b, c, lo);
      AltFrame(a, b, d, lo + ChainSize(c) + 1);
  }

  lemma RootInside(r: Re, lo: nat)
    ensures lo <= Root(r, lo) < lo + Size(r)
  {
  }

  /** Every node a held tree can be left through `left`, `right` or `next` lies inside its stretch. */
  lemma {:induction false} LinksStayInside(nodes: seq<Node>, a: Alt, lo: nat)
    requires HoldsAlt(nodes, a, lo)
    ensures lo + AltSize(a) <= |nodes| && lo <= AltRoot(a, lo) < lo + AltSize(a)
    decreases a
  {
    match a
    case Only(c) => ChainInside(nodes, c, lo);
    case Either(c, b) =>
      ChainInside(nodes, c, lo);
      LinksStayInside(nodes, b, lo + ChainSize(c) + 1);
  }

  lemma {:induction false} ChainInside(nodes: seq<Node>, c: Chain, lo: nat)
    requires HoldsChain(nodes, c, lo) && (c.End? ==> lo <= |nodes|)
    ensures lo + ChainSize(c) <= |nodes| && (c.Link? ==> lo <= ChainRoot(c, lo) < lo + ChainSize(c))
    decreases c
  {
    if c.Link? {
      RootInside(c.head, lo);
      ChainInside(nodes, c.tail, lo + Size(c.head));
    }
  }

  // ----- building a class member by member

  /** `last` is the node of the last member of a held, non-empty list. */
  predicate EndsAt(nodes: seq<Node>, at: int, items: Items, last: int)
    decreases items
  {
    items.MoreItems? && 0 <= at < |nodes|
    && if items.rest.NoItems? then at == last else EndsAt(nodes, nodes[at].next, items.rest, last)
  }

  lemma {:induction false} ItemsGrow(nodes: seq<Node>, more: seq<Node>, at: int, items: Items, lo: nat, last: int)
    requires HoldsItems(nodes, at, items, lo, |nodes|)
    ensures HoldsItems(nodes + more, at, items, lo, |nodes + more|)
    ensures EndsAt(nodes, at, items, last) ==> EndsAt(nodes + more, at, items, last)
    decreases items
  {
    if items.MoreItems? {
      ItemsGrow(nodes, more, nodes[at].next, items.rest, at + 1, last);
    }
  }

  /** Linking one more member behind the last one. */
  lemma {:induction false} ItemsExtend(nodes: seq<Node>, at: int, items: Items, lo: nat, last: int, c: int, i: Item)
    requires HoldsItems(nodes, at, items, lo, |nodes|) && EndsAt(nodes, at, items, last)
    requires 0 <= last < c < |nodes| && HoldsItem(nodes[c], i) && nodes[c].next == -1
    ensures at <= last
    ensures var b := nodes[last := nodes[last].(next := c)];
      HoldsItems(b, at, Snoc(items, i), lo, |nodes|) && EndsAt(b, at, Snoc(items, i), c)
    decreases items
  {
    if items.rest.MoreItems? {
      ItemsExtend(nodes, nodes[at].next, items.rest, at + 1, last, c, i);
    }
  }
}
