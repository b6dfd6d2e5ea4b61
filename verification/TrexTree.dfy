/**
 The matcher on trees: greedy, with one-element look-ahead and no further backtracking. `trex_matchnode`
 computes this function on node arrays (`TrexMatcher`); here it is shown to terminate and to be sound.
 */
module TrexTree {
  import opened TrexSyntax

  datatype Found = NoMatch | At(pos: nat)

  /** What follows: the node to look ahead to, given the later siblings and the caller's `next`. */
  function Follow(rest: Chain, next: Chain): Chain {
    if rest.Link? then rest else next
  }

  /** Callers pass the next sibling or, from an alternation, nothing. */
  predicate Consistent(rest: Chain, next: Chain) {
    rest.Link? ==> next.End? || next == rest
  }

  /** Everything a call may still visit: its own element and what it may look ahead to. */
  function Reach(r: Re, rest: Chain, next: Chain): nat {
    Size(r) + ChainSize(Follow(rest, next))
  }

  /** `trex_matchnode`. `rest` are the elements after `r`, `next` is the node passed for look-ahead. */
  function Match(x: Input, r: Re, i: nat, rest: Chain, next: Chain): Found
    requires Consistent(rest, next)
    decreases Reach(r, rest, next), 2, 0
  {
    match r
    case Letter(c) => if x.mem(i) == c then At(i + 1) else NoMatch
    case Class(id) => if InClass(id, x.mem(i)) then At(i + 1) else NoMatch
    case AnyChar => At(i + 1)
    case LineEnd => if i == x.eol then At(i) else NoMatch
    case LineStart => if i == 0 then At(i) else NoMatch
    case WordEdge(b) => if EdgeAt(x, i) == (b == 'b') then At(i) else NoMatch
    case Set(negated, items) => if InItems(items, x.mem(i)) == !negated then At(i + 1) else NoMatch
    case Group(_, a) => MatchAlt(x, a, i, next)
    case Repeat(min, max, b) =>
      var (n, good) := MatchRepeat(x, b, min, max, i, 0, Follow(rest, next));
      if min <= n <= Most(max) then At(good) else NoMatch
  }

  /** The loop over repetitions: `n` so far, the text consumed up to `i`. */
  function MatchRepeat(x: Input, b: Re, min: nat, max: nat, i: nat, n: nat, follow: Chain): (nat, nat)
    decreases Size(b) + ChainSize(follow), 3, 0x10000 + max - n
  {
    if n == 0xFFFF || n < max then
      match Match(x, b, i, End, follow)
      case NoMatch => (n, i)
      case At(s) =>
        if Satisfied(x, follow, s) && min <= n + 1 <= Most(max) then (n + 1, s)
        else if s >= x.eol then (n + 1, s)
        else MatchRepeat(x, b, min, max, s, n + 1, follow)
    else (n, i)
  }

  /** The look-ahead: is what follows satisfied at `s`? It is not asked about optional elements. */
  function Satisfied(x: Input, follow: Chain, s: nat): bool
    decreases ChainSize(follow), 3, 0
  {
    follow.Link? && !(follow.head.Repeat? && follow.head.min == 0)
    && Match(x, follow.head, s, follow.tail, follow.tail).At?
  }

  /** The elements of a group in sequence; `next` is what follows the group. */
  function MatchChain(x: Input, c: Chain, i: nat, next: Chain): Found
    decreases ChainSize(c) + ChainSize(next), 3, c
  {
    if c.End? then At(i)
    else
      match Match(x, c.head, i, c.tail, Follow(c.tail, next))
      case NoMatch => NoMatch
      case At(s) => MatchChain(x, c.tail, s, next)
  }

  /** The elements of an alternative in sequence, with no look-ahead beyond siblings. */
  function MatchBranch(x: Input, c: Chain, i: nat): Found
    decreases ChainSize(c), 3, c
  {
    if c.End? then At(i)
    else
      match Match(x, c.head, i, c.tail, End)
      case NoMatch => NoMatch
      case At(s) => MatchBranch(x, c.tail, s)
  }

  /** The contents of a group: a sequence, or the first alternative that matches. */
  function MatchAlt(x: Input, a: Alt, i: nat, next: Chain): Found
    decreases AltSize(a) + ChainSize(next), 4, 0
  {
    match a
    case Only(c) => MatchChain(x, c, i, next)
    case Either(c, b) => MatchEither(x, c, b, i)
  }

  function MatchEither(x: Input, c: Chain, b: Alt, i: nat): Found
    decreases ChainSize(c) + 1 + AltSize(b), 3, 0
  {
    match MatchBranch(x, c, i)
    case At(s) => At(s)
    case NoMatch =>
      match b
      case Only(d) => MatchBranch(x, d, i)
      case Either(d, b') => MatchEither(x, d, b', i)
  }

  // ----- soundness

  /** Whatever the matcher consumes is in the language of the element, and it never moves backwards. */
  lemma {:induction false} MatchSound(x: Input, r: Re, i: nat, rest: Chain, next: Chain)
    requires Consistent(rest, next)
    requires Match(x, r, i, rest, next).At?
    ensures Means(x, r, i, Match(x, r, i, rest, next).pos) && i <= Match(x, r, i, rest, next).pos
    decreases Reach(r, rest, next), 2, 0
  {
    match r
    case Group(_, a) =>
      AltSound(x, a, i, next);
    case Repeat(min, max, b) =>
      RepeatSound(x, b, min, max, i, i, 0, Follow(rest, next));
      var (n, good) := MatchRepeat(x, b, min, max, i, 0, Follow(rest, next));
      assert Times(x, b, n, i, good);
    case _ =>
  }

  lemma {:induction false} RepeatSound(x: Input, b: Re, min: nat, max: nat, start: nat, i: nat, n: nat, follow: Chain)
    requires Times(x, b, n, start, i) && start <= i
    ensures var (m, good) := MatchRepeat(x, b, min, max, i, n, follow);
      Times(x, b, m, start, good) && start <= good
    decreases Size(b) + ChainSize(follow), 3, 0x10000 + max - n
  {
    if n == 0xFFFF || n < max {
      var f := Match(x, b, i, End, follow);
      if f.At? {
        MatchSound(x, b, i, End, follow);
        assert Times(x, b, n + 1, start, f.pos);
        if !(Satisfied(x, follow, f.pos) && min <= n + 1 <= Most(max)) && f.pos < x.eol {
          RepeatSound(x, b, min, max, start, f.pos, n + 1, follow);
        }
      }
    }
  }

  lemma {:induction false} ChainSound(x: Input, c: Chain, i: nat, next: Chain)
    requires MatchChain(x, c, i, next).At?
    ensures ChainMeans(x, c, i, MatchChain(x, c, i, next).pos) && i <= MatchChain(x, c, i, next).pos
    decreases ChainSize(c) + ChainSize(next), 3, c
  {
    if c.Link? {
      MatchSound(x, c.head, i, c.tail, Follow(c.tail, next));
      ChainSound(x, c.tail, Match(x, c.head, i, c.tail, Follow(c.tail, next)).pos, next);
    }
  }

  lemma {:induction false} BranchSound(x: Input, c: Chain, i: nat)
    requires MatchBranch(x, c, i).At?
    ensures ChainMeans(x, c, i, MatchBranch(x, c, i).pos) && i <= MatchBranch(x, c, i).pos
    decreases ChainSize(c), 3, c
  {
    if c.Link? {
      MatchSound(x, c.head, i, c.tail, End);
      BranchSound(x, c.tail, Match(x, c.head, i, c.tail, End).pos);
    }
  }

  lemma {:induction false} AltSound(x: Input, a: Alt, i: nat, next: Chain)
    requires MatchAlt(x, a, i, next).At?
    ensures AltMeans(x, a, i, MatchAlt(x, a, i, next).pos) && i <= MatchAlt(x, a, i, next).pos
    decreases AltSize(a) + ChainSize(next), 4, 0
  {
    match a
    case Only(c) => ChainSound(x, c, i, next);
    case Either(c, b) => EitherSound(x, c, b, i);
  }

  lemma {:induction false} EitherSound(x: Input, c: Chain, b: Alt, i: nat)
    requires MatchEither(x, c, b, i).At?
    ensures AltMeans(x, Either(c, b), i, MatchEither(x, c, b, i).pos) && i <= MatchEither(x, c, b, i).pos
    decreases ChainSize(c) + 1 + AltSize(b), 3, 0
  {
    if MatchBranch(x, c, i).At? {
      BranchSound(x, c, i);
    } else {
      match b
      case Only(d) => BranchSound(x, d, i);
      case Either(d, b') => EitherSound(x, d, b', i);
    }
  }

  // ----- no completeness

  /** (a|ab)c does not match "abc": the first alternative that matches is never reconsidered. */
  lemma NotComplete(x: Input)
    requires x.mem(0) == 'a' && x.mem(1) == 'b' && x.mem(2) == 'c' && x.eol == 3
    ensures var ab := Group(true, Either(Link(Letter('a'), End), Only(Link(Letter('a'), Link(Letter('b'), End)))));
      var r := Group(true, Only(Link(ab, Link(Letter('c'), End))));
      Match(x, r, 0, End, End).NoMatch? && Means(x, r, 0, 3)
  {
    var a, b, c := Link(Letter('a'), End), Link(Letter('a'), Link(Letter('b'), End)), Link(Letter('c'), End);
    var ab := Group(true, Either(a, Only(b)));
    assert MatchBranch(x, a, 0) == At(1);
    assert Match(x, ab, 0, c, c) == At(1);
    assert MatchChain(x, c, 1, End).NoMatch?;
    assert ChainMeans(x, b, 0, 2) by {
      assert Means(x, Letter('a'), 0, 1) && Means(x, Letter('b'), 1, 2) && ChainMeans(x, End, 2, 2);
      assert ChainMeans(x, Link(Letter('b'), End), 1, 2);
    }
    assert AltMeans(x, Only(b), 0, 2);
    assert Means(x, ab, 0, 2);
    assert ChainMeans(x, c, 2, 3) by {
      assert Means(x, Letter('c'), 2, 3) && ChainMeans(x, End, 3, 3);
    }
    assert ChainMeans(x, Link(ab, c), 0, 3);
  }

  predicate Plain(r: Re) {
    !r.Repeat? && (r.Group? ==> r.body.Only? && PlainChain(r.body.chain))
  }

  predicate PlainChain(c: Chain) {
    c.Link? ==> Plain(c.head) && PlainChain(c.tail)
  }

  /** Without alternatives and repetitions there is nothing to reconsider: the matcher is complete, at any position. */
  lemma {:induction false} PlainIsComplete(x: Input, r: Re, i: nat, j: nat, rest: Chain, next: Chain)
    requires Plain(r) && Consistent(rest, next)
    ensures Match(x, r, i, rest, next) == At(j) <==> Means(x, r, i, j)
    decreases Size(r), 0
  {
    match r
    case Group(_, a) =>
      assert Size(r) == 1 + AltSize(a) == 1 + ChainSize(a.chain);
      PlainChainIsComplete(x, a.chain, i, j, next);
    case _ =>
  }

  lemma {:induction false} PlainChainIsComplete(x: Input, c: Chain, i: nat, j: nat, next: Chain)
    requires PlainChain(c)
    ensures MatchChain(x, c, i, next) == At(j) <==> ChainMeans(x, c, i, j)
    decreases ChainSize(c), 1
  {
    if c.Link? {
      var f := Match(x, c.head, i, c.tail, Follow(c.tail, next));
      forall k: nat ensures f == At(k) <==> Means(x, c.head, i, k) {
        PlainIsComplete(x, c.head, i, k, c.tail, Follow(c.tail, next));
      }
      if f.At? {
        PlainChainIsComplete(x, c.tail, f.pos, j, next);
      }
    }
  }

  /** a*(b?)c does not match "aac": "b?" is satisfied by nothing at all, which ends the repetition after one "a". */
  lemma AskedTooEarly(x: Input)
    requires x.mem(0) == 'a' && x.mem(1) == 'a' && x.mem(2) == 'c' && x.eol == 3
    ensures var some, opt := Repeat(0, 0xFFFF, Letter('a')), Group(true, Only(Link(Repeat(0, 1, Letter('b')), End)));
      var r := Group(true, Only(Link(some, Link(opt, Link(Letter('c'), End)))));
      Match(x, r, 0, End, End).NoMatch? && Means(x, r, 0, 3)
  {
    var a, b, c := Letter('a'), Letter('b'), Link(Letter('c'), End);
    var some, opt := Repeat(0, 0xFFFF, a), Group(true, Only(Link(Repeat(0, 1, b), End)));
    var follow := Link(opt, c);
    assert MatchRepeat(x, b, 0, 1, 1, 0, c) == (0, 1);
    assert MatchChain(x, Link(Repeat(0, 1, b), End), 1, c) == At(1);
    assert Match(x, opt, 1, c, c) == At(1);
    assert Satisfied(x, follow, 1);
    assert MatchRepeat(x, a, 0, 0xFFFF, 0, 0, follow) == (1, 1);
    assert Match(x, some, 0, follow, follow) == At(1);
    assert MatchChain(x, c, 1, End).NoMatch?;
    assert MatchChain(x, follow, 1, End).NoMatch?;
    assert Times(x, a, 0, 0, 0) && Means(x, a, 0, 1);
    assert Times(x, a, 1, 0, 1) && Means(x, a, 1, 2);
    assert Times(x, a, 2, 0, 2);
    assert Means(x, some, 0, 2);
    assert Times(x, b, 0, 2, 2);
    assert Means(x, Repeat(0, 1, b), 2, 2) && ChainMeans(x, End, 2, 2);
    assert ChainMeans(x, Link(Repeat(0, 1, b), End), 2, 2);
    assert Means(x, opt, 2, 2);
    assert Means(x, Letter('c'), 2, 3) && ChainMeans(x, End, 3, 3);
    assert ChainMeans(x, c, 2, 3);
    assert ChainMeans(x, follow, 2, 3);
    assert ChainMeans(x, Link(some, follow), 0, 3);
  }

  /** a.* does not match "a": the dot takes the NUL at the end of the text for a character. */
  lemma EndIsEaten(x: Input)
    requires x.mem(0) == 'a' && x.eol == 1
    ensures var r := Group(true, Only(Link(Letter('a'), Link(Repeat(0, 0xFFFF, AnyChar), End))));
      Match(x, r, 0, End, End) == At(2) && Means(x, r, 0, 1)
  {
    var any := Repeat(0, 0xFFFF, AnyChar);
    assert MatchRepeat(x, AnyChar, 0, 0xFFFF, 1, 0, End) == (1, 2);
    assert MatchChain(x, Link(any, End), 1, End) == At(2);
    assert Times(x, AnyChar, 0, 1, 1);
    assert Means(x, any, 1, 1) && ChainMeans(x, End, 1, 1);
    assert ChainMeans(x, Link(any, End), 1, 1);
    assert Means(x, Letter('a'), 0, 1);
    assert ChainMeans(x, Link(Letter('a'), Link(any, End)), 0, 1);
  }
}
