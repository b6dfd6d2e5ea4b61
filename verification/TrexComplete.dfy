/**
 When the matcher is complete. It never reconsiders a choice, so it finds a match that exists whenever the next
 character decides every choice: which alternative to take, and whether to repeat once more.
 */
module TrexComplete {
  import opened TrexSyntax
  import opened TrexTree

  // ----- what a match starts with

  /** An empty match is possible. */
  predicate Nullable(r: Re) {
    match r
    case LineEnd => true
    case LineStart => true
    case WordEdge(_) => true
    case Group(_, a) => NullableAlt(a)
    case Repeat(min, _, b) => min == 0 || Nullable(b)
    case _ => false
  }

  predicate NullableChain(c: Chain) { c.Link? ==> Nullable(c.head) && NullableChain(c.tail) }

  predicate NullableAlt(a: Alt) {
    match a
    case Only(c) => NullableChain(c)
    case Either(c, b) => NullableChain(c) || NullableAlt(b)
  }

  /** A match that is not empty may start with `c`; at the end of the text, `c` is NUL. */
  predicate First(r: Re, c: char) {
    match r
    case Letter(d) => c == d
    case Class(id) => InClass(id, c)
    case AnyChar => true
    case Set(negated, items) => InItems(items, c) == !negated
    case Group(_, a) => FirstAlt(a, c)
    case Repeat(_, _, b) => First(b, c)
    case _ => false
  }

  predicate FirstChain(s: Chain, c: char) {
    s.Link? && (First(s.head, c) || (Nullable(s.head) && FirstChain(s.tail, c)))
  }

  predicate FirstAlt(a: Alt, c: char) {
    match a
    case Only(s) => FirstChain(s, c)
    case Either(s, b) => FirstChain(s, c) || FirstAlt(b, c)
  }

  lemma {:induction false} FirstMeans(x: Input, r: Re, i: nat, j: nat)
    requires Means(x, r, i, j)
    ensures i <= j && (if i == j then Nullable(r) else First(r, x.mem(i)))
    decreases r, 0, 0
  {
    match r
    case Group(_, a) => FirstAltMeans(x, a, i, j);
    case Repeat(min, max, b) =>
      var n: nat :| min <= n <= Most(max) && Times(x, b, n, i, j);
      FirstTimes(x, b, n, i, j);
    case _ =>
  }

  lemma {:induction false} FirstTimes(x: Input, b: Re, n: nat, i: nat, j: nat)
    requires Times(x, b, n, i, j)
    ensures i <= j && (if i == j then n == 0 || Nullable(b) else First(b, x.mem(i)))
    decreases b, 1, n
  {
    if n > 0 {
      var k: nat :| Times(x, b, n - 1, i, k) && Means(x, b, k, j);
      FirstTimes(x, b, n - 1, i, k);
      FirstMeans(x, b, k, j);
    }
  }

  lemma {:induction false} FirstChainMeans(x: Input, c: Chain, i: nat, j: nat)
    requires ChainMeans(x, c, i, j)
    ensures i <= j && (if i == j then NullableChain(c) else FirstChain(c, x.mem(i)))
    decreases c, 0, 0
  {
    if c.Link? {
      var k: nat :| Means(x, c.head, i, k) && ChainMeans(x, c.tail, k, j);
      FirstMeans(x, c.head, i, k);
      FirstChainMeans(x, c.tail, k, j);
    }
  }

  lemma {:induction false} FirstAltMeans(x: Input, a: Alt, i: nat, j: nat)
    requires AltMeans(x, a, i, j)
    ensures i <= j && (if i == j then NullableAlt(a) else FirstAlt(a, x.mem(i)))
    decreases a, 0, 0
  {
    match a
    case Only(c) => FirstChainMeans(x, c, i, j);
    case Either(c, b) =>
      if ChainMeans(x, c, i, j) {
        FirstChainMeans(x, c, i, j);
      } else {
        FirstAltMeans(x, b, i, j);
      }
  }

  // ----- matches of one length

  datatype Length = Varies | Always(n: nat)

  /** The length of every match, if there is only one. */
  function LengthOf(r: Re): Length {
    match r
    case LineEnd => Always(0)
    case LineStart => Always(0)
    case WordEdge(_) => Always(0)
    case Group(_, a) => LengthOfAlt(a)
    case Repeat(min, max, b) =>
      if min == max < 0xFFFF && LengthOf(b).Always? then Always(min * LengthOf(b).n) else Varies
    case _ => Always(1)
  }

  function LengthOfChain(c: Chain): Length {
    if c.End? then Always(0)
    else if LengthOf(c.head).Always? && LengthOfChain(c.tail).Always?
    then Always(LengthOf(c.head).n + LengthOfChain(c.tail).n) else Varies
  }

  function LengthOfAlt(a: Alt): Length {
    match a
    case Only(c) => LengthOfChain(c)
    case Either(c, b) => if LengthOfChain(c) == LengthOfAlt(b) then LengthOfChain(c) else Varies
  }

  lemma {:induction false} LengthMeans(x: Input, r: Re, i: nat, j: nat)
    requires Means(x, r, i, j) && LengthOf(r).Always?
    ensures j == i + LengthOf(r).n
    decreases r, 0, 0
  {
    match r
    case Group(_, a) => LengthAltMeans(x, a, i, j);
    case Repeat(min, max, b) =>
      var n: nat :| min <= n <= Most(max) && Times(x, b, n, i, j);
      LengthTimes(x, b, n, i, j);
    case _ =>
  }

  lemma {:induction false} LengthTimes(x: Input, b: Re, n: nat, i: nat, j: nat)
    requires Times(x, b, n, i, j) && LengthOf(b).Always?
    ensures j == i + n * LengthOf(b).n
    decreases b, 1, n
  {
    if n > 0 {
      var k: nat :| Times(x, b, n - 1, i, k) && Means(x, b, k, j);
      LengthTimes(x, b, n - 1, i, k);
      LengthMeans(x, b, k, j);
    }
  }

  lemma {:induction false} LengthChainMeans(x: Input, c: Chain, i: nat, j: nat)
    requires ChainMeans(x, c, i, j) && LengthOfChain(c).Always?
    ensures j == i + LengthOfChain(c).n
    decreases c, 0, 0
  {
    if c.Link? {
      var k: nat :| Means(x, c.head, i, k) && ChainMeans(x, c.tail, k, j);
      LengthMeans(x, c.head, i, k);
      LengthChainMeans(x, c.tail, k, j);
    }
  }

  lemma {:induction false} LengthAltMeans(x: Input, a: Alt, i: nat, j: nat)
    requires AltMeans(x, a, i, j) && LengthOfAlt(a).Always?
    ensures j == i + LengthOfAlt(a).n
    decreases a, 0, 0
  {
    match a
    case Only(c) => LengthChainMeans(x, c, i, j);
    case Either(c, b) =>
      if ChainMeans(x, c, i, j) {
        LengthChainMeans(x, c, i, j);
      } else {
        LengthAltMeans(x, b, i, j);
      }
  }

  // ----- the next character decides

  /** The characters that may come next. */
  type Chars = char -> bool

  /** What may come behind an element, when `rest` and then `f` follow it. */
  function Then(rest: Chain, f: Chars): Chars {
    c => FirstChain(rest, c) || (NullableChain(rest) && f(c))
  }

  function Again(b: Re, f: Chars): Chars { c => First(b, c) || f(c) }

  /** No character goes on with `b` as well as with `f`, except for the end of the text if `b` is required. */
  ghost predicate Apart(b: Re, min: nat, f: Chars) {
    forall c :: First(b, c) && f(c) ==> min > 0 && c == '\0'
  }

  /** Asking whether `follow` is satisfied never stops a repetition early: it cannot be where there is more to repeat. */
  predicate Askable(follow: Chain) {
    follow.Link? ==>
      !Nullable(follow.head) || follow.head.LineEnd? || (follow.head.Repeat? && follow.head.min == 0)
  }

  /** The alternative `c` is not taken by mistake for one of `b`. */
  ghost predicate Told(c: Chain, b: Alt, f: Chars) {
    || (LengthOfChain(c).Always? && LengthOfChain(c) == LengthOfAlt(b))
    || (!NullableChain(c) && forall d :: FirstChain(c, d) ==> !FirstAlt(b, d) && !(NullableAlt(b) && f(d)))
  }

  /** Every choice inside `r` is decided by the next character, when `f` may come behind it. */
  ghost predicate Decided(r: Re, f: Chars, rest: Chain, next: Chain)
    decreases Size(r), 1
  {
    match r
    case Group(_, a) => DecidedAlt(a, f, next)
    case Repeat(min, max, b) =>
      && !Nullable(b) && Decided(b, Again(b, f), End, Follow(rest, next))
      && (min == max < 0xFFFF || (Apart(b, min, f) && (max <= 1 || Askable(Follow(rest, next)))))
    case _ => true
  }

  ghost predicate DecidedChain(c: Chain, f: Chars, next: Chain)
    decreases ChainSize(c), 2
  {
    c.Link? ==> Decided(c.head, Then(c.tail, f), c.tail, Follow(c.tail, next)) && DecidedChain(c.tail, f, next)
  }

  ghost predicate DecidedBranch(c: Chain, f: Chars)
    decreases ChainSize(c), 2
  {
    c.Link? ==> Decided(c.head, Then(c.tail, f), c.tail, End) && DecidedBranch(c.tail, f)
  }

  ghost predicate DecidedAlt(a: Alt, f: Chars, next: Chain)
    decreases AltSize(a), 4
  {
    match a
    case Only(c) => DecidedChain(c, f, next)
    case Either(c, b) => DecidedEither(c, b, f)
  }

  ghost predicate DecidedEither(c: Chain, b: Alt, f: Chars)
    decreases ChainSize(c) + 1 + AltSize(b), 3
  {
    && DecidedBranch(c, f) && Told(c, b, f)
    && match b {
         case Only(d) => DecidedBranch(d, f)
         case Either(d, b') => DecidedEither(d, b', f)
       }
  }

  // ----- completeness

  /** The text ends at its first NUL. */
  ghost predicate Text(x: Input) {
    x.mem(x.eol) == '\0' && forall i :: 0 <= i < x.eol ==> x.mem(i) != '\0'
  }

  /** What is looked ahead to may come next. */
  ghost predicate Ahead(follow: Chain, f: Chars) {
    follow.Link? ==> forall c :: First(follow.head, c) ==> f(c)
  }

  /** If the text from `i` to `j` is in the language and may be followed by what stands at `j`, the matcher finds it. */
  lemma {:induction false} MatchComplete(x: Input, r: Re, f: Chars, i: nat, j: nat, rest: Chain, next: Chain)
    requires Text(x) && Decided(r, f, rest, next) && Consistent(rest, next) && Ahead(Follow(rest, next), f)
    requires Means(x, r, i, j) && j <= x.eol && f(x.mem(j))
    ensures Match(x, r, i, rest, next) == At(j)
    decreases Size(r), 1, 0
  {
    match r
    case Group(_, a) => AltComplete(x, a, f, i, j, next);
    case Repeat(min, max, b) =>
      var n: nat :| min <= n <= Most(max) && Times(x, b, n, i, j);
      RepeatComplete(x, r, f, i, j, 0, n, rest, next);
    case _ =>
  }

  /** A repetition from the front. */
  lemma {:induction false} TimesFront(x: Input, b: Re, n: nat, i: nat, j: nat) returns (k: nat)
    requires n > 0 && Times(x, b, n, i, j)
    ensures Means(x, b, i, k) && Times(x, b, n - 1, k, j)
    decreases n
  {
    var l: nat :| Times(x, b, n - 1, i, l) && Means(x, b, l, j);
    if n == 1 {
      k := j;
    } else {
      k := TimesFront(x, b, n - 1, i, l);
      assert Times(x, b, n - 1, k, j);
    }
  }

  /** After `n` rounds at `i`, with `more` to go, and not at the end of the text yet. */
  lemma {:induction false} RepeatComplete(x: Input, r: Re, f: Chars, i: nat, j: nat, n: nat, more: nat, rest: Chain, next: Chain)
    requires Text(x) && r.Repeat? && Decided(r, f, rest, next) && Consistent(rest, next) && Ahead(Follow(rest, next), f)
    requires Times(x, r.body1, more, i, j) && j <= x.eol && f(x.mem(j)) && (n == 0 || i < x.eol)
    requires r.min <= n + more <= Most(r.max)
    ensures MatchRepeat(x, r.body1, r.min, r.max, i, n, Follow(rest, next)) == (n + more, j)
    decreases Size(r), 0, more
  {
    var b, follow := r.body1, Follow(rest, next);
    if more == 0 {
      if n == 0xFFFF || n < r.max {
        NoneLeft(x, r, f, i, n, rest, next);
      }
    } else {
      var k := TimesFront(x, b, more, i, j);
      FirstMeans(x, b, i, k);
      FirstTimes(x, b, more - 1, k, j);
      assert Again(b, f)(x.mem(k));
      MatchComplete(x, b, Again(b, f), i, k, End, follow);
      if more > 1 {
        NotYet(x, r, f, k, j, n, more, rest, next);
      }
      if k < x.eol {
        RepeatComplete(x, r, f, k, j, n + 1, more - 1, rest, next);
      }
    }
  }

  /** Where the repetition has to end, there is no further round. */
  lemma NoneLeft(x: Input, r: Re, f: Chars, i: nat, n: nat, rest: Chain, next: Chain)
    requires Text(x) && r.Repeat? && Decided(r, f, rest, next) && i <= x.eol && f(x.mem(i)) && (n == 0 || i < x.eol)
    requires r.min <= n <= Most(r.max) && (n == 0xFFFF || n < r.max)
    ensures Match(x, r.body1, i, End, Follow(rest, next)).NoMatch?
  {
    hide Match;
    var m := Match(x, r.body1, i, End, Follow(rest, next));
    if m.At? {
      MatchSound(x, r.body1, i, End, Follow(rest, next));
      FirstMeans(x, r.body1, i, m.pos);
    }
  }

  /** Where a further round is due, what follows is not satisfied. */
  lemma NotYet(x: Input, r: Re, f: Chars, k: nat, j: nat, n: nat, more: nat, rest: Chain, next: Chain)
    requires Text(x) && r.Repeat? && Decided(r, f, rest, next) && Ahead(Follow(rest, next), f)
    requires more > 1 && n + more <= Most(r.max) && Times(x, r.body1, more - 1, k, j) && j <= x.eol
    ensures k < x.eol && !(Satisfied(x, Follow(rest, next), k) && r.min <= n + 1)
  {
    hide Match;
    var b, follow := r.body1, Follow(rest, next);
    FirstTimes(x, b, more - 1, k, j);
    if Satisfied(x, follow, k) && r.min <= n + 1 {
      var s := Match(x, follow.head, k, follow.tail, follow.tail).pos;
      MatchSound(x, follow.head, k, follow.tail, follow.tail);
      FirstMeans(x, follow.head, k, s);
    }
  }

  lemma AheadThen(rest: Chain, f: Chars, next: Chain)
    requires Ahead(next, f)
    ensures Ahead(Follow(rest, next), Then(rest, f))
  {
    if rest.Link? {
      forall c | First(rest.head, c) ensures Then(rest, f)(c) {
        assert FirstChain(rest, c);
      }
    } else {
      forall c ensures Then(rest, f)(c) == f(c) {
      }
    }
  }

  lemma {:induction false} ChainComplete(x: Input, c: Chain, f: Chars, i: nat, j: nat, next: Chain)
    requires Text(x) && DecidedChain(c, f, next) && Ahead(next, f)
    requires ChainMeans(x, c, i, j) && j <= x.eol && f(x.mem(j))
    ensures MatchChain(x, c, i, next) == At(j)
    decreases ChainSize(c), 2, 0
  {
    if c.Link? {
      var k: nat :| Means(x, c.head, i, k) && ChainMeans(x, c.tail, k, j);
      FirstChainMeans(x, c.tail, k, j);
      AheadThen(c.tail, f, next);
      MatchComplete(x, c.head, Then(c.tail, f), i, k, c.tail, Follow(c.tail, next));
      ChainComplete(x, c.tail, f, k, j, next);
    }
  }

  lemma {:induction false} BranchComplete(x: Input, c: Chain, f: Chars, i: nat, j: nat)
    requires Text(x) && DecidedBranch(c, f)
    requires ChainMeans(x, c, i, j) && j <= x.eol && f(x.mem(j))
    ensures MatchBranch(x, c, i) == At(j)
    decreases ChainSize(c), 2, 0
  {
    if c.Link? {
      var k: nat :| Means(x, c.head, i, k) && ChainMeans(x, c.tail, k, j);
      FirstChainMeans(x, c.tail, k, j);
      AheadThen(c.tail, f, End);
      MatchComplete(x, c.head, Then(c.tail, f), i, k, c.tail, End);
      BranchComplete(x, c.tail, f, k, j);
    }
  }

  lemma {:induction false} AltComplete(x: Input, a: Alt, f: Chars, i: nat, j: nat, next: Chain)
    requires Text(x) && DecidedAlt(a, f, next) && Ahead(next, f)
    requires AltMeans(x, a, i, j) && j <= x.eol && f(x.mem(j))
    ensures MatchAlt(x, a, i, next) == At(j)
    decreases AltSize(a), 4, 0
  {
    match a
    case Only(c) => ChainComplete(x, c, f, i, j, next);
    case Either(c, b) => EitherComplete(x, c, b, f, i, j);
  }

  lemma {:induction false} EitherComplete(x: Input, c: Chain, b: Alt, f: Chars, i: nat, j: nat)
    requires Text(x) && DecidedEither(c, b, f)
    requires (ChainMeans(x, c, i, j) || AltMeans(x, b, i, j)) && j <= x.eol && f(x.mem(j))
    ensures MatchEither(x, c, b, i) == At(j)
    decreases ChainSize(c) + 1 + AltSize(b), 3, 0
  {
    if ChainMeans(x, c, i, j) {
      BranchComplete(x, c, f, i, j);
    } else {
      NotMistaken(x, c, b, f, i, j);
      if MatchBranch(x, c, i).NoMatch? {
        match b
        case Only(d) => BranchComplete(x, d, f, i, j);
        case Either(d, b') => EitherComplete(x, d, b', f, i, j);
      }
    }
  }

  lemma NotMistaken(x: Input, c: Chain, b: Alt, f: Chars, i: nat, j: nat)
    requires Told(c, b, f) && AltMeans(x, b, i, j) && f(x.mem(j))
    ensures MatchBranch(x, c, i).At? ==> MatchBranch(x, c, i).pos == j
  {
    var m := MatchBranch(x, c, i);
    if m.At? {
      BranchSound(x, c, i);
      if LengthOfChain(c).Always? && LengthOfChain(c) == LengthOfAlt(b) {
        LengthChainMeans(x, c, i, m.pos);
        LengthAltMeans(x, b, i, j);
      } else {
        FirstChainMeans(x, c, i, m.pos);
        FirstAltMeans(x, b, i, j);
      }
    }
  }

  // ----- whole texts

  /** Nothing but the end of the text comes behind the whole pattern. */
  function AtEnd(): Chars { c => c == '\0' }

  ghost predicate DecidedPattern(tree: Alt) { DecidedAlt(tree, AtEnd(), End) }

  /** If the next character decides every choice in a pattern, it matches exactly the texts in its language. */
  lemma WholeTextsAreExact(x: Input, tree: Alt)
    requires Text(x) && DecidedPattern(tree)
    ensures Match(x, Group(true, tree), 0, End, End) == At(x.eol) <==> AltMeans(x, tree, 0, x.eol)
  {
    if AltMeans(x, tree, 0, x.eol) {
      AltComplete(x, tree, AtEnd(), 0, x.eol, End);
    }
    if MatchAlt(x, tree, 0, End) == At(x.eol) {
      AltSound(x, tree, 0, End);
    }
  }
}
