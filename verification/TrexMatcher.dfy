/** `trex_matchnode` and `trex_match`: the recursive matcher on node arrays, and what a successful match proves. */
module TrexMatcher {
  import opened TrexSyntax
  import opened TrexSpelling
  import opened TrexTree
  import opened TrexNodes
  import opened TrexCompiler
  import opened TrexComplete

  /** What the node passed to the matcher stands for: an element with what surrounds it, or a '|' node. */
  datatype View =
    | Element(r: Re, rest: Chain, next: Chain, nextLo: nat)
    | Choice(c: Chain, b: Alt)

  /** The second operand of a '|' node. */
  function MatchOther(x: Input, b: Alt, i: nat): Found {
    match b
    case Only(c) => MatchBranch(x, c, i)
    case Either(c, d) => MatchEither(x, c, d, i)
  }

  function MatchView(x: Input, v: View, i: nat): Found
    requires v.Element? ==> Consistent(v.rest, v.next)
  {
    match v
    case Element(r, rest, next, _) => Match(x, r, i, rest, next)
    case Choice(c, b) => MatchEither(x, c, b, i)
  }

  function ViewReach(v: View): nat {
    match v
    case Element(r, rest, next, _) => Reach(r, rest, next)
    case Choice(c, b) => AltSize(Either(c, b))
  }

  /** The node at `at`, with `next` to look ahead to, stands for `v`, whose own nodes start at `lo`. */
  predicate Fits(nodes: seq<Node>, at: int, next: int, lo: nat, v: View) {
    match v
    case Element(r, rest, nx, nextLo) =>
      && Consistent(rest, nx) && Holds(nodes, r, lo) && at == Root(r, lo) < |nodes|
      && nodes[at].next == ChainRoot(rest, lo + Size(r)) && HoldsChain(nodes, rest, lo + Size(r))
      && next == ChainRoot(nx, nextLo) && HoldsChain(nodes, nx, nextLo)
    case Choice(c, b) =>
      HoldsAlt(nodes, Either(c, b), lo) && at == lo + ChainSize(c)
  }

  /** The root node of `a` as a group sees it, when `next` follows the group. */
  function InGroup(a: Alt, lo: nat, next: Chain, nextLo: nat): View
    requires a.Only? ==> a.chain.Link?
  {
    match a
    case Only(c) =>
      Element(c.head, c.tail, Follow(c.tail, next), if c.tail.Link? then lo + Size(c.head) else nextLo)
    case Either(c, b) => Choice(c, b)
  }

  /** The root node of `a` as an alternation sees it. */
  function InChoice(a: Alt): View
    requires a.Only? ==> a.chain.Link?
  {
    match a
    case Only(c) => Element(c.head, c.tail, End, 0)
    case Either(c, b) => Choice(c, b)
  }

  /** One round of a group's loop: the node at hand, and what is left when it links to another one. */
  lemma GroupRound(x: Input, nodes: seq<Node>, a: Alt, lo: nat, i: nat, next: Chain, nextLo: nat)
    requires HoldsAlt(nodes, a, lo) && HoldsChain(nodes, next, nextLo)
    ensures 0 <= AltRoot(a, lo) < |nodes| && (a.Only? ==> a.chain.Link?)
    ensures var n := AltRoot(a, lo);
      var v := InGroup(a, lo, next, nextLo);
      var subnext := if nodes[n].next != -1 then nodes[n].next else ChainRoot(next, nextLo);
      && Fits(nodes, n, subnext, lo, v) && ViewReach(v) <= AltSize(a) + ChainSize(next)
      && if nodes[n].next == -1 then MatchAlt(x, a, i, next) == MatchView(x, v, i)
         else
           && a.Only? && a.chain.tail.Link? && AltSize(Only(a.chain.tail)) < AltSize(a)
           && HoldsAlt(nodes, Only(a.chain.tail), lo + Size(a.chain.head))
           && nodes[n].next == AltRoot(Only(a.chain.tail), lo + Size(a.chain.head))
           && MatchAlt(x, a, i, next) ==
                match MatchView(x, v, i)
                case NoMatch => NoMatch
                case At(s) => MatchAlt(x, Only(a.chain.tail), s, next)
  {
    hide Match, MatchEither, Holds;
    if a.Only? {
      RootInside(a.chain.head, lo);
      ChainInside(nodes, a.chain, lo);
      LinkIsNode(nodes, a.chain.tail, lo + Size(a.chain.head));
      assert forall s: nat :: MatchChain(x, End, s, next) == At(s);
    }
  }

  /** One round of either loop of an alternation. */
  lemma ChoiceRound(x: Input, nodes: seq<Node>, a: Alt, lo: nat, i: nat)
    requires HoldsAlt(nodes, a, lo)
    ensures 0 <= AltRoot(a, lo) < |nodes| && (a.Only? ==> a.chain.Link?)
    ensures var n := AltRoot(a, lo);
      var v := InChoice(a);
      && Fits(nodes, n, -1, lo, v) && ViewReach(v) <= AltSize(a)
      && if nodes[n].next == -1 then MatchOther(x, a, i) == MatchView(x, v, i)
         else
           && a.Only? && a.chain.tail.Link? && AltSize(Only(a.chain.tail)) < AltSize(a)
           && HoldsAlt(nodes, Only(a.chain.tail), lo + Size(a.chain.head))
           && nodes[n].next == AltRoot(Only(a.chain.tail), lo + Size(a.chain.head))
           && MatchOther(x, a, i) ==
                match MatchView(x, v, i)
                case NoMatch => NoMatch
                case At(s) => MatchOther(x, Only(a.chain.tail), s)
  {
    hide Match, MatchEither, Holds, Root, Size;
    if a.Only? {
      RootInside(a.chain.head, lo);
      ChainInside(nodes, a.chain, lo);
      LinkIsNode(nodes, a.chain.tail, lo + Size(a.chain.head));
      assert forall s: nat :: MatchBranch(x, End, s) == At(s);
    }
  }

  lemma LinkIsNode(nodes: seq<Node>, c: Chain, lo: nat)
    ensures ChainRoot(c, lo) == -1 <==> c.End?
  {
  }

  lemma NodeOf(nodes: seq<Node>, at: int, next: int, lo: nat, v: View)
    requires Fits(nodes, at, next, lo, v)
    ensures 0 <= at < |nodes| && (nodes[at].typ.OpOr? ==> v.Choice? && Fits(nodes, at, -1, lo, v))
  {
    hide HoldsChain, ChainRoot;
  }

  lemma ChoiceView(x: Input, nodes: seq<Node>, at: int, lo: nat, v: View, i: nat)
    requires Fits(nodes, at, -1, lo, v) && v.Choice?
    ensures 0 <= at < |nodes| && HoldsAlt(nodes, Only(v.c), lo) && nodes[at].left == AltRoot(Only(v.c), lo)
    ensures HoldsAlt(nodes, v.b, at + 1) && nodes[at].right == AltRoot(v.b, at + 1)
    ensures ViewReach(v) > AltSize(Only(v.c)) && ViewReach(v) > AltSize(v.b)
    ensures MatchView(x, v, i) == if MatchOther(x, Only(v.c), i).At? then MatchOther(x, Only(v.c), i) else MatchOther(x, v.b, i)
  {
    hide HoldsChain, MatchBranch;
  }

  lemma GroupView(x: Input, nodes: seq<Node>, at: int, next: int, lo: nat, v: View, i: nat)
    requires Fits(nodes, at, next, lo, v) && at < |nodes| && (nodes[at].typ.OpExpr? || nodes[at].typ.OpNoCapExpr?)
    ensures v.Element? && v.r.Group? && HoldsAlt(nodes, v.r.body, lo + 1) && nodes[at].left == AltRoot(v.r.body, lo + 1)
    ensures next == ChainRoot(v.next, v.nextLo) && HoldsChain(nodes, v.next, v.nextLo)
    ensures ViewReach(v) > AltSize(v.r.body) + ChainSize(v.next)
    ensures MatchView(x, v, i) == MatchAlt(x, v.r.body, i, v.next)
  {
    hide HoldsChain, MatchAlt;
  }

  /** What a repetition looks ahead to, seen as a node: not asked about if it is optional. */
  lemma FollowView(x: Input, nodes: seq<Node>, follow: Chain, lo: nat, s: nat)
    requires HoldsChain(nodes, follow, lo) && follow.Link?
    ensures var at := ChainRoot(follow, lo);
      var v := Element(follow.head, follow.tail, follow.tail, lo + Size(follow.head));
      && 0 <= at < |nodes| && Fits(nodes, at, nodes[at].next, lo, v) && ViewReach(v) <= ChainSize(follow)
      && Satisfied(x, follow, s) ==
           if nodes[at].typ.OpGreedy? && nodes[at].right / 0x10000 == 0 then false else MatchView(x, v, s).At?
  {
    RootInside(follow.head, lo);
    hide Match, HoldsAlt;
  }

  /** Where the elements start that a repetition looks ahead to. */
  function FollowLo(lo: nat, v: View): nat
    requires v.Element?
  {
    if v.rest.Link? then lo + Size(v.r) else v.nextLo
  }

  /** The test the matcher makes both before it stops early and at the end. */
  predicate Enough(p0: nat, p1: nat, n: nat)
    ensures n <= 0x10000 ==> (Enough(p0, p1, n) <==> p0 <= n <= Most(p1))
  {
    if p0 == p1 && p0 == n then true
    else if n >= p0 && p1 == 0xFFFF then true
    else p0 <= n <= p1
  }

  lemma RepeatView(x: Input, nodes: seq<Node>, at: int, next: int, lo: nat, v: View, i: nat)
    requires Fits(nodes, at, next, lo, v) && at < |nodes| && nodes[at].typ.OpGreedy?
    ensures v.Element? && v.r.Repeat?
    ensures v.r.min == nodes[at].right / 0x10000 && v.r.max == nodes[at].right % 0x10000
    ensures var follow := Follow(v.rest, v.next);
      var stop := if nodes[at].next != -1 then nodes[at].next else next;
      var (n, good) := MatchRepeat(x, v.r.body1, v.r.min, v.r.max, i, 0, follow);
      && stop == ChainRoot(follow, FollowLo(lo, v)) && HoldsChain(nodes, follow, FollowLo(lo, v))
      && (stop != -1 <==> follow.Link?)
      && Consistent(v.rest, v.next) && next == ChainRoot(v.next, v.nextLo) && HoldsChain(nodes, v.next, v.nextLo)
      && Fits(nodes, nodes[at].left, stop, lo, Element(v.r.body1, End, follow, FollowLo(lo, v)))
      && ViewReach(v) > Reach(v.r.body1, End, follow) > ChainSize(follow)
      && MatchView(x, v, i) == if v.r.min <= n <= Most(v.r.max) then At(good) else NoMatch
  {
    hide MatchRepeat;
    if v.Element? && v.r.Repeat? {
      LinkIsNode(nodes, v.rest, lo + Size(v.r));
      LinkIsNode(nodes, v.next, v.nextLo);
      RootInside(v.r.body1, lo);
    }
  }

  /** One round of the loop over repetitions. */
  lemma RepeatRound(x: Input, b: Re, min: nat, max: nat, i: nat, n: nat, follow: Chain)
    requires n == 0xFFFF || n < max
    ensures MatchRepeat(x, b, min, max, i, n, follow) ==
      match Match(x, b, i, End, follow)
      case NoMatch => (n, i)
      case At(s) =>
        if (Satisfied(x, follow, s) && min <= n + 1 <= Most(max)) || s >= x.eol then (n + 1, s)
        else MatchRepeat(x, b, min, max, s, n + 1, follow)
  {
    hide Match, Satisfied;
  }

  /** `TRexMatch`; no position is the null pointer. */
  datatype Capture = Capture(begin: Found, len: int)

  class TRex {
    const nodes: seq<Node>
    const nsubexpr: nat
    const matches: array<Capture>
    var currsubexp: nat
    /** `_bol` is offset 0, `_eol` is `text.eol`. */
    var text: Input

    ghost const pattern: string
    ghost const tree: Alt

    /** `_nodes` holds the one tree the pattern spells, under a root group. */
    ghost predicate Valid()
      reads this
    {
      && CapturesOk(nodes, nsubexpr) && matches.Length == nsubexpr
      && Holds(nodes, Group(true, tree), 0) && nodes[0].next == -1 && nodes[0].right == 0
      && AltSpelt(pattern, tree, 1)
    }

    constructor (compiled: Compiler, ghost tree: Alt)
      requires CapturesOk(compiled.nodes, compiled.nsubexpr)
      requires Holds(compiled.nodes, Group(true, tree), 0) && compiled.nodes[0].next == -1 && compiled.nodes[0].right == 0
      requires AltSpelt(compiled.pattern, tree, 1)
      ensures Valid() && pattern == compiled.pattern && fresh(matches)
    {
      nodes, nsubexpr := compiled.nodes, compiled.nsubexpr;
      this.tree, pattern := tree, compiled.pattern;
      matches := new Capture[compiled.nsubexpr](_ => Capture(NoMatch, 0));
      currsubexp := 0;
      text := Input(_ => '\0', 0);
    }

    /** `trex_matchclass`. */
    method MatchClass(at: int, c: char, ghost items: Items, ghost lo: nat, ghost hi: nat) returns (found: bool)
      requires HoldsItems(nodes, at, items, lo, hi) && items.MoreItems?
      ensures found == InItems(items, c)
    {
      hide InClass;
      var node := at;
      ghost var left, from: int := items, lo;
      while true
        invariant 0 <= from && left.MoreItems? && HoldsItems(nodes, node, left, from, hi)
        invariant InItems(left, c) == InItems(items, c)
        decreases left
      {
        if nodes[node].typ.OpRange? {
          if nodes[node].left <= c as int <= nodes[node].right {
            return true;
          }
        } else if nodes[node].typ.OpCClass? {
          if InClass(nodes[node].left as char, c) {
            return true;
          }
        } else if nodes[node].typ == Char(c) {
          return true;
        }
        if nodes[node].next == -1 {
          return false;
        }
        from := node + 1;
        node, left := nodes[node].next, left.rest;
      }
    }

    /** What the matcher may do to the captures: number further ones, and leave alone those numbered before. */
    twostate predicate Captures()
      reads this, matches
    {
      old(currsubexp) <= currsubexp
      && forall k :: 0 <= k < old(currsubexp) && k < matches.Length ==> matches[k] == old(matches[k])
    }

    /** A capturing group that is next in number holds what it has matched, or nothing. */
    twostate predicate Recorded(at: int, str: nat, found: Found)
      reads this, matches
    {
      0 <= at < |nodes| && nodes[at].typ.OpExpr? && nodes[at].right == old(currsubexp) < matches.Length ==>
        matches[old(currsubexp)] == if found.At? then Capture(At(str), found.pos - str) else Capture(NoMatch, 0)
    }

    /** `trex_matchnode`. */
    method MatchNode(at: int, str: nat, next: int, ghost lo: nat, ghost v: View) returns (found: Found)
      requires CapturesOk(nodes, nsubexpr) && matches.Length == nsubexpr && Fits(nodes, at, next, lo, v)
      modifies this`currsubexp, matches
      ensures Captures() && found == MatchView(text, v, str) && Recorded(at, str, found)
      decreases ViewReach(v), 1
    {
      NodeOf(nodes, at, next, lo, v);
      hide Fits, MatchView, ViewReach;
      var node := nodes[at];
      if node.typ.OpGreedy? {
        found := MatchGreedy(at, str, next, lo, v);
      } else if node.typ.OpOr? {
        found := MatchOr(at, str, lo, v);
      } else if node.typ.OpExpr? || node.typ.OpNoCapExpr? {
        found := MatchGroup(at, str, next, lo, v);
      } else {
        found := MatchLeaf(at, str, next, lo, v);
      }
    }

    /** Nodes that match one character, or none. */
    method MatchLeaf(at: int, str: nat, next: int, ghost lo: nat, ghost v: View) returns (found: Found)
      requires Fits(nodes, at, next, lo, v)
      requires var typ := nodes[at].typ; !typ.OpGreedy? && !typ.OpOr? && !typ.OpExpr? && !typ.OpNoCapExpr?
      ensures found == MatchView(text, v, str)
    {
      hide MatchEither, MatchAlt, MatchRepeat, HoldsChain;
      var node := nodes[at];
      if node.typ.OpWb? {
        if EdgeAt(text, str) {
          return if node.left == 'b' as int then At(str) else NoMatch;
        }
        return if node.left == 'b' as int then NoMatch else At(str);
      } else if node.typ.OpBol? {
        return if str == 0 then At(str) else NoMatch;
      } else if node.typ.OpEol? {
        return if str == text.eol then At(str) else NoMatch;
      } else if node.typ.OpDot? {
        return At(str + 1);
      } else if node.typ.OpNClass? || node.typ.OpClass? {
        var inside := MatchClass(node.left, text.mem(str), v.r.items, lo + 1, lo + 1 + Span(v.r.items));
        return if inside == node.typ.OpClass? then At(str + 1) else NoMatch;
      } else if node.typ.OpCClass? {
        return if InClass(node.left as char, text.mem(str)) then At(str + 1) else NoMatch;
      } else {
        return if Char(text.mem(str)) == node.typ then At(str + 1) else NoMatch;
      }
    }

    /** A repetition: as often as possible, but no further once what follows is satisfied. */
    method MatchGreedy(at: int, str: nat, next: int, ghost lo: nat, ghost v: View) returns (found: Found)
      requires CapturesOk(nodes, nsubexpr) && matches.Length == nsubexpr && Fits(nodes, at, next, lo, v)
      requires nodes[at].typ.OpGreedy?
      modifies this`currsubexp, matches
      ensures Captures() && found == MatchView(text, v, str)
      decreases ViewReach(v), 0
    {
      RepeatView(text, nodes, at, next, lo, v, str);
      ghost var body, follow, followLo := v.r.body1, Follow(v.rest, v.next), FollowLo(lo, v);
      hide Match, MatchRepeat, Satisfied, HoldsChain, Reach, Fits, ChainRoot, ChainSize, Enough;
      var node := nodes[at];
      var p0, p1 := node.right / 0x10000, node.right % 0x10000;
      var greedystop := if node.next != -1 then node.next else next;
      var nmatches, s: nat, good: nat := 0, str, str;
      while nmatches == 0xFFFF || nmatches < p1
        invariant Captures() && s == good
        invariant nmatches <= 0x10000
        invariant MatchRepeat(text, body, p0, p1, s, nmatches, follow) == MatchRepeat(text, body, p0, p1, str, 0, follow)
        decreases 0x10000 - nmatches
      {
        RepeatRound(text, body, p0, p1, s, nmatches, follow);
        var f := MatchNode(node.left, s, greedystop, lo, Element(body, End, follow, followLo));
        if f.NoMatch? {
          break;
        }
        s := f.pos;
        nmatches := nmatches + 1;
        good := s;
        if greedystop != -1 {
          var stop := MatchStop(greedystop, s, next, v, followLo, follow);
          if stop && Enough(p0, p1, nmatches) {
            break;
          }
        }
        if s >= text.eol {
          break;
        }
      }
      return if Enough(p0, p1, nmatches) then At(good) else NoMatch;
    }

    /** Is what follows a repetition satisfied at `s`? Never asked about something that may be absent. */
    method MatchStop(greedystop: int, s: nat, next: int, ghost v: View, ghost lo: nat, ghost follow: Chain)
      returns (stop: bool)
      requires CapturesOk(nodes, nsubexpr) && matches.Length == nsubexpr && v.Element?
      requires follow == Follow(v.rest, v.next) && follow.Link? && Consistent(v.rest, v.next)
      requires HoldsChain(nodes, follow, lo) && greedystop == ChainRoot(follow, lo)
      requires HoldsChain(nodes, v.next, v.nextLo) && next == ChainRoot(v.next, v.nextLo)
      requires v.rest.End? ==> lo == v.nextLo
      modifies this`currsubexp, matches
      ensures Captures() && stop == Satisfied(text, follow, s)
      decreases ChainSize(follow), 2
    {
      RootInside(follow.head, lo);
      FollowView(text, nodes, follow, lo, s);
      hide Match, Holds, Satisfied, HoldsAlt, Size, Root;
      if nodes[greedystop].typ.OpGreedy? && nodes[greedystop].right / 0x10000 == 0 {
        return false;
      }
      var gnext := -1;
      if nodes[greedystop].next != -1 {
        gnext := nodes[greedystop].next;
      } else if next != -1 {
        RootInside(v.next.head, v.nextLo);
        var behind := nodes[next].next;
        if behind != -1 {
          gnext := behind;
        }
      }
      var found := MatchNode(greedystop, s, gnext, lo,
                             Element(follow.head, follow.tail, follow.tail, lo + Size(follow.head)));
      return found.At?;
    }

    predicate Begun(capture: int, str: nat)
      reads matches
    {
      0 <= capture < matches.Length && matches[capture].begin == At(str)
    }

    /** A capturing group that is next in number records where it begins. */
    method Begin(at: int, str: nat) returns (capture: int)
      requires CapturesOk(nodes, nsubexpr) && matches.Length == nsubexpr && 0 <= at < |nodes|
      requires nodes[at].typ.OpExpr? || nodes[at].typ.OpNoCapExpr?
      modifies this`currsubexp, matches
      ensures Captures()
      ensures if nodes[at].typ.OpExpr? && nodes[at].right == old(currsubexp)
              then capture == old(currsubexp) < currsubexp && Begun(capture, str)
              else capture == -1
    {
      var node := nodes[at];
      capture := -1;
      if !node.typ.OpNoCapExpr? && node.right == currsubexp {
        capture := currsubexp;
        matches[capture] := matches[capture].(begin := At(str));
        currsubexp := currsubexp + 1;
      }
    }

    /** The group did not match: its capture holds nothing. */
    method Drop(capture: int)
      requires -1 <= capture < matches.Length
      modifies matches
      ensures forall k :: 0 <= k < matches.Length ==> matches[k] == if k == capture then Capture(NoMatch, 0) else old(matches[k])
    {
      if capture != -1 {
        matches[capture] := Capture(NoMatch, 0);
      }
    }

    /** The group matched up to `cur`. */
    method Close(capture: int, str: nat, cur: nat)
      requires capture == -1 || Begun(capture, str)
      modifies matches
      ensures forall k :: 0 <= k < matches.Length ==>
        matches[k] == if k == capture then Capture(At(str), cur - str) else old(matches[k])
    {
      if capture != -1 {
        matches[capture] := matches[capture].(len := cur - matches[capture].begin.pos);
      }
    }

    /** A group: its elements in sequence, the last one looking ahead to what follows the group. */
    method MatchGroup(at: int, str: nat, next: int, ghost lo: nat, ghost v: View) returns (found: Found)
      requires CapturesOk(nodes, nsubexpr) && matches.Length == nsubexpr && Fits(nodes, at, next, lo, v)
      requires nodes[at].typ.OpExpr? || nodes[at].typ.OpNoCapExpr?
      modifies this`currsubexp, matches
      ensures Captures() && found == MatchView(text, v, str) && Recorded(at, str, found)
      decreases ViewReach(v), 0
    {
      GroupView(text, nodes, at, next, lo, v, str);
      hide Fits, HoldsAlt, HoldsChain, MatchView, MatchAlt, InGroup, AltRoot, AltSize, ViewReach, ChainRoot, ChainSize, Size, Match, Holds;
      var capture := Begin(at, str);
      found := MatchElements(nodes[at].left, str, next, v.r.body, lo + 1, v.next, v.nextLo);
      if found.NoMatch? {
        Drop(capture);
      } else {
        Close(capture, str, found.pos);
      }
    }

    /** The loop over the elements of a group. */
    method MatchElements(start: int, str: nat, next: int, ghost a: Alt, ghost lo: nat, ghost follow: Chain, ghost followLo: nat)
      returns (found: Found)
      requires CapturesOk(nodes, nsubexpr) && matches.Length == nsubexpr
      requires HoldsAlt(nodes, a, lo) && start == AltRoot(a, lo)
      requires HoldsChain(nodes, follow, followLo) && next == ChainRoot(follow, followLo)
      modifies this`currsubexp, matches
      ensures Captures() && found == MatchAlt(text, a, str, follow)
      decreases AltSize(a) + ChainSize(follow), 2
    {
      hide Fits, HoldsAlt, HoldsChain, MatchView, MatchAlt, InGroup, AltRoot, AltSize, ViewReach, ChainRoot, ChainSize, Size, Match, Holds;
      var n, cur: nat := start, str;
      ghost var left, from: nat := a, lo;
      while true
        invariant Captures()
        invariant HoldsAlt(nodes, left, from) && n == AltRoot(left, from) && AltSize(left) <= AltSize(a)
        invariant MatchAlt(text, left, cur, follow) == MatchAlt(text, a, str, follow)
        decreases AltSize(left)
      {
        GroupRound(text, nodes, left, from, cur, follow, followLo);
        var subnext := if nodes[n].next != -1 then nodes[n].next else next;
        found := MatchNode(n, cur, subnext, from, InGroup(left, from, follow, followLo));
        if found.NoMatch? || nodes[n].next == -1 {
          return;
        }
        cur := found.pos;
        n := nodes[n].next;
        left, from := Only(left.chain.tail), from + Size(left.chain.head);
      }
    }

    /** '|': the first operand, or else the second. */
    method MatchOr(at: int, str: nat, ghost lo: nat, ghost v: View) returns (found: Found)
      requires CapturesOk(nodes, nsubexpr) && matches.Length == nsubexpr && v.Choice? && Fits(nodes, at, -1, lo, v)
      modifies this`currsubexp, matches
      ensures Captures() && found == MatchView(text, v, str)
      decreases ViewReach(v), 0
    {
      ChoiceView(text, nodes, at, lo, v, str);
      hide Fits, HoldsAlt, MatchView, MatchOther, AltRoot, AltSize, ViewReach;
      found := MatchOperand(nodes[at].left, str, Only(v.c), lo);
      if found.NoMatch? {
        found := MatchOperand(nodes[at].right, str, v.b, at + 1);
      }
    }

    /** Either loop of the OP_OR case: nothing to look ahead to but siblings. */
    method MatchOperand(start: int, str: nat, ghost a: Alt, ghost lo: nat) returns (found: Found)
      requires CapturesOk(nodes, nsubexpr) && matches.Length == nsubexpr && HoldsAlt(nodes, a, lo) && start == AltRoot(a, lo)
      modifies this`currsubexp, matches
      ensures Captures() && found == MatchOther(text, a, str)
      decreases AltSize(a), 2
    {
      hide Fits, HoldsAlt, MatchView, MatchOther, InChoice, AltRoot, AltSize, ViewReach;
      var temp, asd: nat := start, str;
      ghost var left, from: nat := a, lo;
      while true
        invariant Captures()
        invariant HoldsAlt(nodes, left, from) && temp == AltRoot(left, from) && AltSize(left) <= AltSize(a)
        invariant MatchOther(text, left, asd) == MatchOther(text, a, str)
        decreases AltSize(left)
      {
        ChoiceRound(text, nodes, left, from, asd);
        var f := MatchNode(temp, asd, -1, from, InChoice(left));
        if f.NoMatch? {
          return NoMatch;
        }
        asd := f.pos;
        if nodes[temp].next == -1 {
          return At(asd);
        }
        temp := nodes[temp].next;
        left, from := Only(left.chain.tail), from + Size(left.chain.head);
      }
    }

    /** `trex_match`, for the text that `mem` holds up to its terminating NUL at `eol`. */
    method MatchText(mem: nat -> char, eol: nat) returns (matched: bool)
      requires Valid()
      requires mem(eol) == '\0' && forall i :: 0 <= i < eol ==> mem(i) != '\0'
      modifies this, matches
      ensures Valid()
      ensures matched <==> Match(Input(mem, eol), Group(true, tree), 0, End, End) == At(eol)
      ensures matched ==> AltMeans(Input(mem, eol), tree, 0, eol)
      ensures DecidedPattern(tree) ==> (matched <==> AltMeans(Input(mem, eol), tree, 0, eol))
      ensures matches.Length > 0 && (matched ==> matches[0] == Capture(At(0), eol))
    {
      text := Input(mem, eol);
      currsubexp := 0;
      ghost var root := Group(true, tree);
      assert Fits(nodes, 0, -1, 0, Element(root, End, End, 0));
      var res := MatchNode(0, 0, -1, 0, Element(root, End, End, 0));
      if DecidedPattern(tree) {
        WholeTextsAreExact(text, tree);
      }
      if res.NoMatch? || res.pos != eol {
        return false;
      }
      MatchSound(text, root, 0, End, End);
      return true;
    }
  }

  /** `trex_compile`. */
  method Compile(pattern: string) returns (st: Status, exp: TRex?)
    requires pattern != "" && '\0' !in pattern
    ensures exp != null <==> st.Fine?
    ensures exp != null <==> exists tree :: AltSpelt(pattern, tree, 1)
    ensures exp != null ==> fresh(exp) && fresh(exp.matches) && exp.Valid() && exp.pattern == pattern
  {
    exp := null;
    var compiler := new Compiler(pattern);
    ghost var a;
    st, a := compiler.Compile();
    if st.Fine? {
      exp := new TRex(compiler, a);
    }
  }
}
