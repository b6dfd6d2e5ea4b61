/** `trex_compile`: recursive descent over the pattern, appending to the node array and linking nodes in place. */
module TrexCompiler {
  import opened TrexSyntax
  import opened TrexSpelling
  import opened TrexNodes
  import opened TrexRefused

  /**
   `Failed` is `trex_error`, which abandons the compilation. `Overread`: the pattern ends in a backslash, and
   the C code would step over its terminating NUL.
   */
  datatype Status = Fine | Failed(error: string) | Overread

  /** Every capturing group has a slot in the array of matches. */
  predicate CapturesOk(nodes: seq<Node>, nsubexpr: nat) {
    forall i :: 0 <= i < |nodes| && nodes[i].typ.OpExpr? ==> 0 <= nodes[i].right < nsubexpr
  }

  /** The members of a class: those linked so far, the one read last, and where in the pattern that one starts. */
  datatype Members = Members(items: Items, pending: Re, q: nat)

  class Compiler {
    const pattern: string
    /** `_p`, as an offset into the pattern. */
    var p: nat
    var nodes: seq<Node>
    var nallocated: nat
    var nsubexpr: nat

    ghost predicate Sane()
      reads this
    {
      && p <= |pattern| && '\0' !in pattern
      && 0 < nallocated && |nodes| <= nallocated
      && CapturesOk(nodes, nsubexpr)
    }

    constructor (pattern: string)
      requires pattern != "" && '\0' !in pattern
      ensures Sane() && this.pattern == pattern && p == 0 && nodes == [] && nsubexpr == 0 && nallocated == |pattern|
    {
      this.pattern := pattern;
      p, nodes, nallocated, nsubexpr := 0, [], |pattern|, 0;
    }

    /** `*exp->_p`. */
    function Cur(): char
      reads this
    {
      Cur0(p)
    }

    function Cur0(at: nat): char {
      At(pattern, at)
    }

    method NewNode(typ: NodeType) returns (id: nat)
      requires Sane()
      modifies this`nodes, this`nallocated, this`nsubexpr
      ensures Sane()
      ensures id == |old(nodes)|
      ensures nodes == old(nodes) + [Node(typ, -1, if typ.OpExpr? then old(nsubexpr) else -1, -1)]
      ensures nsubexpr == if typ.OpExpr? then old(nsubexpr) + 1 else old(nsubexpr)
    {
      var n := Node(typ, -1, -1, -1);
      if typ.OpExpr? {
        n := n.(right := nsubexpr);
        nsubexpr := nsubexpr + 1;
      }
      if nallocated < |nodes| + 1 {
        nallocated := nallocated * 2;
      }
      nodes := nodes + [n];
      id := |nodes| - 1;
    }

    method Expect(c: char) returns (st: Status)
      requires Sane() && c != '\0'
      modifies this`p
      ensures Sane() && (st.Fine? <==> old(Cur()) == c) && !st.Overread?
      ensures if st.Fine? then p == old(p) + 1 && pattern[old(p)] == c else p == old(p)
    {
      if Cur() != c {
        return Failed("expected paren");
      }
      p := p + 1;
      return Fine;
    }

    /** `trex_escapechar`: the upper end of a range. */
    method EscapeChar() returns (st: Status, c: char)
      requires Sane()
      modifies this`p
      ensures Sane() && old(p) <= p
      ensures if st.Fine? then old(p) < p && UpperSpelt(pattern[old(p)..p], c) else NoUpper(pattern, old(p))
    {
      hide CapturesOk, NoUpper;
      c := '\0';
      if Unreadable(pattern, p) {
        NothingHere(pattern, p, 0);
      }
      if Cur() == '\\' {
        p := p + 1;
        if p == |pattern| {
          return Overread, c;
        }
        c := Unescape(Cur());
        p := p + 1;
        return Fine, c;
      }
      if !IsPrint(Cur()) {
        return Failed("letter expected"), c;
      }
      c := Cur();
      p := p + 1;
      return Fine, c;
    }

    /** A node that keeps a character in `left`, as `trex_charclass` makes. */
    method CharacterNode(typ: NodeType, t: char) returns (id: nat)
      requires Sane() && !typ.OpExpr?
      modifies this`nodes, this`nallocated, this`nsubexpr
      ensures Sane()
      ensures id == |old(nodes)| && nodes == old(nodes) + [Node(typ, t as int, -1, -1)]
    {
      id := NewNode(typ);
      nodes := nodes[id := nodes[id].(left := t as int)];
    }

    /** `trex_charnode`. */
    method CharNode(isClass: bool) returns (st: Status, id: int, ghost r: Re)
      requires Sane()
      modifies this
      ensures Sane() && old(p) <= p && |old(nodes)| <= |nodes| && nodes[..|old(nodes)|] == old(nodes)
      ensures st.Fine? ==>
        && old(p) < p && id == |old(nodes)| && |nodes| == id + 1 && nodes[id].next == -1
        && Holds(nodes, r, id) && Size(r) == 1
        && (if isClass then (r.Letter? || r.Class?) && (Cur0(old(p)) != ']' ==> ItemSpelt(pattern[old(p)..p], ItemOf(r), id))
            else Cur0(old(p)) !in "([$." ==> BaseSpelt(pattern[old(p)..p], r, id))
      ensures !st.Fine? ==> NoItem(pattern, old(p)) && NoBase(pattern, old(p), |old(nodes)|)
    {
      hide CapturesOk, BaseSpelt, ItemSpelt, Holds, NoItem, NoBase, NoUpper;
      id, r := -1, AnyChar;
      if Unreadable(pattern, p) {
        NothingHere(pattern, p, |nodes|);
      }
      if Cur() == '\\' {
        p := p + 1;
        if p == |pattern| {
          return Overread, id, r;
        }
        var t := Cur();
        p := p + 1;
        TwoFrom(old(p));
        if IsClassId(t) {
          id := CharacterNode(OpCClass, t);
          r := Class(t);
          SpellCharacter(['\\', t], r, isClass, id);
          return Fine, id, r;
        }
        if IsEdgeId(t) && !isClass {
          id := CharacterNode(OpWb, t);
          r := WordEdge(t);
          SpellCharacter(['\\', t], r, isClass, id);
          return Fine, id, r;
        }
        var c := Unescape(t);
        id := NewNode(Char(c));
        r := Letter(c);
        SpellCharacter(['\\', t], r, isClass, id);
        return Fine, id, r;
      }
      if !IsPrint(Cur()) {
        return Failed("letter expected"), id, r;
      }
      var t := Cur();
      p := p + 1;
      id := NewNode(Char(t));
      r := Letter(t);
      CharacterFrom(old(p));
      if if isClass then t != ']' else t !in "([$." {
        SpellCharacter([t], r, isClass, id);
      } else {
        HoldsCharacter(r, id);
      }
      return Fine, id, r;
    }

    lemma CharacterFrom(b: nat)
      requires b < |pattern|
      ensures pattern[b..b + 1] == [pattern[b]]
    {
    }

    lemma TwoFrom(b: nat)
      requires b + 1 < |pattern|
      ensures pattern[b..b + 2] == [pattern[b], pattern[b + 1]]
    {
    }

    lemma HoldsCharacter(r: Re, id: nat)
      requires id < |nodes|
      requires (r.Letter? && nodes[id].typ == Char(r.c)) || (r.Class? && nodes[id].typ.OpCClass? && nodes[id].left == r.id as int)
        || (r.WordEdge? && nodes[id].typ.OpWb? && nodes[id].left == r.b as int)
      ensures Holds(nodes, r, id)
    {
    }

    lemma SpellCharacter(s: string, r: Re, isClass: bool, id: nat)
      requires id < |nodes|
      requires
        || (r.Letter? && LetterSpelt(s, r.c, isClass) && nodes[id].typ == Char(r.c))
        || (r.Class? && ClassSpelt(s, r.id) && nodes[id].typ.OpCClass? && nodes[id].left == r.id as int)
        || (r.WordEdge? && !isClass && s == ['\\', r.b] && IsEdgeId(r.b) && nodes[id].typ.OpWb? && nodes[id].left == r.b as int)
      ensures Holds(nodes, r, id)
      ensures if isClass then (r.Letter? || r.Class?) && ItemSpelt(s, ItemOf(r), id) else BaseSpelt(s, r, id)
    {
      hide LetterSpelt, ClassSpelt;
      HoldsCharacter(r, id);
    }

    static ghost function ItemOf(r: Re): Item {
      if r.Class? then Named(r.id) else if r.Letter? then One(r.c) else One('\0')
    }

    /** The class being built: `ret` owns the list so far, `chain` is its last node (or `ret`). */
    ghost predicate Building(ret: int, chain: int, items: Items)
      reads this
    {
      && 0 <= ret <= chain < |nodes|
      && (nodes[ret].typ.OpClass? || nodes[ret].typ.OpNClass?)
      && HoldsItems(nodes, nodes[ret].next, items, ret + 1, |nodes|)
      && (if items.NoItems? then chain == ret else EndsAt(nodes, nodes[ret].next, items, chain))
    }

    /** The member read last, not yet linked. */
    ghost predicate Waiting(first: int, chain: int, pending: Re)
      reads this
    {
      first == -1 ||
      (chain < first < |nodes| && 0 <= first && nodes[first].next == -1 && (pending.Letter? || pending.Class?)
       && HoldsItem(nodes[first], ItemOf(pending)))
    }

    /**
     Where the loop of `trex_class` stands: the members linked so far spell the pattern from `a` to `g.q`, and
     the pending one, if any, spells the rest.
     */
    ghost predicate Reading(a: nat, ret: int, chain: int, first: int, g: Members)
      reads this
    {
      && Building(ret, chain, g.items) && Waiting(first, chain, g.pending)
      && |nodes| == ret + 1 + Span(g.items) + (if first == -1 then 0 else 1)
      && a <= g.q <= p <= |pattern|
      && ItemsSpelt(pattern[a..g.q], g.items, ret + 1) && Rests(pattern, a, ret + 1, g.q, ret + 1 + Span(g.items))
      && (if first == -1 then g.q == p && MayFollow(g.items, true)
          else g.q < p && first == ret + 1 + Span(g.items) && ItemSpelt(pattern[g.q..p], ItemOf(g.pending), first)
               && MayFollow(g.items, pattern[g.q] == '-'))
      && (p == a || g.items.MoreItems? || first != -1)
    }

    /** `exp->_nodes[chain].next = c; chain = c`. */
    method LinkMember(ret: int, chain: int, c: int, ghost items: Items, ghost i: Item) returns (ghost items': Items)
      requires Sane() && Building(ret, chain, items)
      requires chain < c < |nodes| && HoldsItem(nodes[c], i) && nodes[c].next == -1
      modifies this`nodes
      ensures Sane() && Building(ret, c, items') && items' == Snoc(items, i)
      ensures |nodes| == |old(nodes)| && forall k :: 0 <= k < |nodes| && k != chain ==> nodes[k] == old(nodes)[k]
      ensures nodes[chain] == old(nodes)[chain].(next := c)
    {
      items' := Snoc(items, i);
      if items.MoreItems? {
        EndsAfter(nodes, nodes[ret].next, items, ret + 1, chain);
        ItemsExtend(nodes, nodes[ret].next, items, ret + 1, chain, c, i);
      }
      nodes := nodes[chain := nodes[chain].(next := c)];
      if items.NoItems? {
        assert HoldsItems(nodes, nodes[c].next, NoItems, c + 1, |nodes|);
      }
    }

    /** What every step of `trex_class` leaves alone: the nodes before the class, and its kind. */
    twostate predicate KeepsBelow(ret: int)
      reads this
    {
      && 0 <= ret < |old(nodes)| <= |nodes| && old(p) <= p
      && nodes[..ret] == old(nodes)[..ret] && nodes[ret].typ == old(nodes)[ret].typ
    }

    /** The node of a range, behind the class that is being built. */
    method RangeNode(ret: int, chain: int, ghost items: Items) returns (c: nat)
      requires Sane() && Building(ret, chain, items)
      modifies this`nodes, this`nallocated, this`nsubexpr
      ensures Sane() && Building(ret, chain, items)
      ensures c == |old(nodes)| && nodes == old(nodes) + [Node(OpRange, -1, -1, -1)]
    {
      hide CapturesOk, HoldsItems, EndsAt;
      ghost var before := nodes;
      c := NewNode(OpRange);
      assert nodes == before + nodes[c..];
      ItemsGrow(before, nodes[c..], nodes[ret].next, items, ret + 1, chain);
    }

    /** `first` was followed by '-': a range from it to the next character. */
    method ClassRange(ghost a: nat, ret: int, chain: int, first: int, ghost g: Members)
      returns (st: Status, c: int, ghost g': Members)
      requires Sane() && Reading(a, ret, chain, first, g) && first != -1 && Cur() == '-'
      modifies this
      ensures Sane() && KeepsBelow(ret)
      ensures if st.Fine? then old(p) < p && Reading(a, ret, c, -1, g') && first <= Cur0(old(p) + 1) as int
              else NoClass(pattern, a, ret + 1)
    {
      hide CapturesOk, LetterSpelt, UpperSpelt, ItemsSpelt, HoldsItems, EndsAt, MayFollow, Rests, NoClass, NoUpper;
      g' := g;
      p := p + 1;
      c := RangeNode(ret, chain, g.items);
      if first > Cur() as int {
        NoRange(pattern, a, ret + 1, g.q, first, old(p), ItemOf(g.pending));
        return Failed("invalid range"), c, g';
      }
      if nodes[first].typ.OpCClass? {
        NoRange(pattern, a, ret + 1, g.q, first, old(p), ItemOf(g.pending));
        return Failed("cannot use character classes in ranges"), c, g';
      }
      var low := nodes[first].typ.c;
      var high;
      st, high := EscapeChar();
      if !st.Fine? {
        NoRange(pattern, a, ret + 1, g.q, first, old(p), ItemOf(g.pending));
        return st, c, g';
      }
      ghost var i := Range(low, high);
      SpellRange(g.q, old(p), p, low, high, first);
      RestsNext(pattern, a, ret + 1, g.q, first, p, i);
      ghost var items' := LinkRange(ret, chain, c, g.items, low, high);
      SpellMore(a, g.q, p, g.items, i, ret + 1);
      AfterSnoc(g.items, i, true);
      g' := Members(items', g.pending, p);
    }

    lemma SpellRange(a: nat, dash: nat, e: nat, low: char, high: char, lo: nat)
      requires a <= dash && dash + 1 < e <= |pattern| && pattern[dash] == '-' && lo <= pattern[dash + 1] as int
      requires LetterSpelt(pattern[a..dash], low, true) && UpperSpelt(pattern[dash + 1..e], high)
      ensures ItemSpelt(pattern[a..e], Range(low, high), lo)
    {
      hide LetterSpelt, UpperSpelt;
      var v := pattern[dash + 1..e];
      assert pattern[a..e] == pattern[a..dash] + "-" + v && v[0] == pattern[dash + 1];
    }

    method FillRange(ret: int, chain: int, c: int, ghost items: Items, low: char, high: char)
      requires Sane() && Building(ret, chain, items) && chain < c < |nodes| && nodes[c].typ == OpRange
      modifies this`nodes
      ensures Sane() && Building(ret, chain, items) && |nodes| == |old(nodes)|
      ensures nodes == old(nodes)[c := old(nodes)[c].(left := low as int, right := high as int)]
    {
      ghost var before := nodes;
      nodes := nodes[c := nodes[c].(left := low as int, right := high as int)];
      ItemsSame(before, nodes, nodes[ret].next, items, ret + 1, chain, c);
    }

    /** Fills in the range and links it. */
    method LinkRange(ret: int, chain: int, c: int, ghost items: Items, low: char, high: char) returns (ghost items': Items)
      requires Sane() && Building(ret, chain, items) && chain < c < |nodes| && nodes[c].typ == OpRange && nodes[c].next == -1
      modifies this`nodes
      ensures Sane() && Building(ret, c, items') && items' == Snoc(items, Range(low, high)) && |nodes| == |old(nodes)|
      ensures forall k :: 0 <= k < |nodes| && k != chain && k != c ==> nodes[k] == old(nodes)[k]
      ensures nodes[chain] == old(nodes)[chain].(next := c)
    {
      hide CapturesOk, HoldsItems, EndsAt;
      FillRange(ret, chain, c, items, low, high);
      items' := LinkMember(ret, chain, c, items, Range(low, high));
    }

    /** Any other character: links the member that was waiting and reads the next one. */
    method ClassMember(ghost a: nat, ret: int, chain: int, first: int, ghost g: Members)
      returns (st: Status, chain': int, first': int, ghost g': Members)
      requires Sane() && Reading(a, ret, chain, first, g) && Cur() != ']' && (first != -1 ==> Cur() != '-')
      modifies this
      ensures Sane() && KeepsBelow(ret)
      ensures if st.Fine? then old(p) < p && first' != -1 && Reading(a, ret, chain', first', g')
              else NoClass(pattern, a, ret + 1)
    {
      hide CapturesOk, ItemSpelt, ItemsSpelt, MayFollow, Rests, NoClass, NoItem, NoBase;
      chain' := chain;
      ghost var items := g.items;
      if first != -1 {
        chain', items := LinkPending(a, ret, chain, first, g);
      }
      if Cur() != '-' {
        NoDashMayFollow(items);
      }
      ghost var before, q := nodes, p;
      ghost var pending;
      st, first', pending := CharNode(true);
      g' := Members(items, pending, q);
      if st.Fine? {
        assert nodes == before + nodes[|before|..];
        ItemsGrow(before, nodes[|before|..], nodes[ret].next, items, ret + 1, chain');
      } else {
        NoMember(pattern, a, ret + 1, q, ret + 1 + Span(items));
      }
    }

    /** Links the member that was waiting. */
    method LinkPending(ghost a: nat, ret: int, chain: int, first: int, ghost g: Members)
      returns (chain': int, ghost items: Items)
      requires Sane() && Reading(a, ret, chain, first, g) && first != -1 && Cur() != '-'
      modifies this`nodes
      ensures Sane() && KeepsBelow(ret) && |nodes| == |old(nodes)|
      ensures Building(ret, chain', items) && |nodes| == ret + 1 + Span(items) && items.MoreItems?
      ensures ItemsSpelt(pattern[a..p], items, ret + 1) && Rests(pattern, a, ret + 1, p, ret + 1 + Span(items))
    {
      hide CapturesOk, ItemSpelt, ItemsSpelt, MayFollow, HoldsItems, EndsAt, HoldsItem, Rests;
      RestsNext(pattern, a, ret + 1, g.q, first, p, ItemOf(g.pending));
      items := LinkMember(ret, chain, first, g.items, ItemOf(g.pending));
      SpellMore(a, g.q, p, g.items, ItemOf(g.pending), ret + 1);
      chain' := first;
    }

    /** `trex_class`. */
    method CharClass() returns (st: Status, ret: int, ghost r: Re)
      requires Sane()
      modifies this
      ensures Sane() && old(p) <= p && |old(nodes)| <= |nodes| && nodes[..|old(nodes)|] == old(nodes)
      ensures st.Fine? ==>
        && old(p) < p && ret == |old(nodes)| && r.Set? && |nodes| == ret + Size(r) && nodes[ret].next == -1
        && Holds(nodes, r, ret) && r.items.MoreItems? && Cur() == ']'
        && r.negated == (pattern[old(p)] == '^')
        && ItemsSpelt(pattern[if r.negated then old(p) + 1 else old(p)..p], r.items, ret + 1)
      ensures !st.Fine? ==> NoClass(pattern, if Cur0(old(p)) == '^' then old(p) + 1 else old(p), |old(nodes)| + 1)
    {
      hide CapturesOk, ItemSpelt, ItemsSpelt, EndsAt, HoldsItem, Holds, MayFollow, Rests, NoClass;
      r := AnyChar;
      var negated := Cur() == '^';
      if negated {
        ret := NewNode(OpNClass);
        p := p + 1;
      } else {
        ret := NewNode(OpClass);
      }
      ghost var a := p;
      if Cur() == ']' {
        EmptyClass(pattern, a, ret + 1);
        return Failed("empty class"), ret, r;
      }
      var first, chain := -1, ret;
      ghost var g := Members(NoItems, AnyChar, p);
      StartsEmpty(a, ret + 1);
      RestsStart(pattern, a, ret + 1);
      // `exp->_eol` is still NULL here, so only a bracket ends the loop
      while Cur() != ']'
        invariant Sane() && ret == |old(nodes)| && a <= p
        invariant ret < |nodes| && nodes[..ret] == old(nodes) && nodes[ret].typ == if negated then OpNClass else OpClass
        invariant Reading(a, ret, chain, first, g)
        decreases |pattern| - p
      {
        hide Building, Waiting;
        if Cur() == '-' && first != -1 {
          st, chain, g := ClassRange(a, ret, chain, first, g);
          first := -1;
        } else {
          st, chain, first, g := ClassMember(a, ret, chain, first, g);
        }
        if !st.Fine? {
          return st, ret, r;
        }
      }
      ghost var items := g.items;
      if first != -1 {
        chain, items := LinkPending(a, ret, chain, first, g);
        first := -1;
      }
      r := FinishClass(ret, chain, items, negated);
      return Fine, ret, r;
    }

    lemma StartsEmpty(a: nat, lo: nat)
      requires a <= |pattern|
      ensures ItemsSpelt(pattern[a..a], NoItems, lo) && MayFollow(NoItems, true)
    {
    }

    lemma SpellMore(a: nat, b: nat, c: nat, items: Items, i: Item, lo: nat)
      requires a <= b < c <= |pattern| && ItemsSpelt(pattern[a..b], items, lo) && ItemSpelt(pattern[b..c], i, lo + Span(items))
      requires MayFollow(items, pattern[b] == '-')
      ensures ItemsSpelt(pattern[a..c], Snoc(items, i), lo)
    {
      hide ItemSpelt, ItemsSpelt;
      ItemsSpeltSnoc(pattern[a..b], items, pattern[b..c], i, lo);
      assert pattern[a..b] + pattern[b..c] == pattern[a..c];
    }

    /** Moves the list of members from `next` to `left`. */
    method FinishClass(ret: int, chain: int, ghost items: Items, negated: bool) returns (ghost r: Re)
      requires Sane() && Building(ret, chain, items) && items.MoreItems? && |nodes| == ret + 1 + Span(items)
      requires nodes[ret].typ == if negated then OpNClass else OpClass
      modifies this`nodes
      ensures |nodes| == |old(nodes)| && nodes[..ret] == old(nodes)[..ret] && nodes[ret].next == -1
      ensures Sane() && r == Set(negated, items) && Holds(nodes, r, ret)
    {
      hide CapturesOk;
      r := Set(negated, items);
      ghost var before := nodes;
      nodes := nodes[ret := nodes[ret].(left := nodes[ret].next, next := -1)];
      ItemsFrame(before, nodes, before[ret].next, items, ret + 1, |nodes|);
      CapturesSame(before, nodes, nsubexpr);
    }

    /** `trex_parsenumber`: at most nine digits. */
    method ParseNumber() returns (st: Status, n: nat)
      requires Sane() && IsDigit(Cur())
      modifies this`p
      ensures Sane() && old(p) < p
      ensures if st.Fine? then DigitsEnd(pattern, old(p), p) && p <= old(p) + 9 && n == Number(pattern[old(p)..p])
              else TooLong(pattern, old(p))
    {
      n := Cur() as int - '0' as int;
      var positions := 10;
      p := p + 1;
      assert pattern[old(p)..p] == [pattern[old(p)]] && [pattern[old(p)]][..0] == "";
      while IsDigit(Cur())
        invariant Sane() && old(p) < p
        invariant AllDigits(pattern[old(p)..p]) && n == Number(pattern[old(p)..p])
        invariant p - old(p) <= 9 && positions == Ten(p - old(p))
        decreases |pattern| - p
      {
        NineDigits(p - old(p));
        n := n * 10 + (Cur() as int - '0' as int);
        p := p + 1;
        assert pattern[old(p)..p][..p - old(p) - 1] == pattern[old(p)..p - 1];
        if positions == 1000000000 {
          return Failed("overflow in numeric constant"), n;
        }
        positions := positions * 10;
      }
      return Fine, n;
    }

    static function Ten(n: nat): nat { if n == 0 then 1 else 10 * Ten(n - 1) }

    lemma NineDigits(n: nat)
      ensures n <= 9 ==> (Ten(n) == 1_000_000_000 <==> n == 9)
    {
      assert Ten(3) == 1000 && Ten(6) == 1_000_000 && Ten(9) == 1_000_000_000;
      if n < 9 {
        TenGrows(n, 9);
      }
    }

    lemma {:induction false} TenGrows(m: nat, n: nat)
      requires m < n
      ensures 0 < Ten(m) < Ten(n)
      decreases n - m, m
    {
      if m + 1 < n {
        TenGrows(m, n - 1);
      } else if m > 0 {
        TenGrows(m - 1, m);
      }
    }

    /** The part of `trex_element` that reads a repetition count, if there is one. */
    method Count() returns (st: Status, isGreedy: bool, p0: nat, p1: nat)
      requires Sane()
      modifies this`p
      ensures Sane() && old(p) <= p
      ensures st.Fine? ==>
        if isGreedy then p0 < 0x10000 && p1 < 0x10000 && CountSpelt(pattern[old(p)..p], p0, p1)
        else p == old(p) && Cur() !in "*+?{"
      ensures !st.Fine? ==> Cur0(old(p)) == '{' && NoCount(pattern, old(p))
    {
      hide NoCount;
      st, isGreedy, p0, p1 := Fine, true, 0, 0;
      if Cur() == '*' {
        p0, p1 := 0, 0xFFFF;
        p := p + 1;
      } else if Cur() == '+' {
        p0, p1 := 1, 0xFFFF;
        p := p + 1;
      } else if Cur() == '?' {
        p0, p1 := 0, 1;
        p := p + 1;
      } else if Cur() == '{' {
        st, p0, p1 := Bounds();
      } else {
        isGreedy := false;
      }
    }

    /** The text from `open` to `end` is a count, its first number ends at `q`, its second one starts at `b` if there is one. */
    lemma SpellBounds(open: nat, a: nat, q: nat, b: nat, end: nat, p0: nat, p1: nat)
      requires a == open + 1 <= q < end <= |pattern| && pattern[open] == '{' && pattern[end - 1] == '}'
      requires NumberSpelt(pattern[a..q], p0)
      requires
        || (q == end - 1 && p1 == p0)
        || (q == end - 2 && pattern[q] == ',' && p1 == 0xFFFF)
        || (q + 1 == b < end && pattern[q] == ',' && NumberSpelt(pattern[b..end - 1], p1))
      ensures CountSpelt(pattern[open..end], p0, p1)
    {
      var d := pattern[a..q];
      InBraces(open, end);
      if q == end - 1 {
        assert pattern[open..end] == "{" + d + "}";
      } else if q == end - 2 && p1 == 0xFFFF {
        assert pattern[a..end - 1] == d + ",";
        assert pattern[open..end] == "{" + d + ",}";
      } else {
        var e := pattern[b..end - 1];
        assert pattern[a..end - 1] == d + "," + e;
        assert pattern[open..end] == "{" + d + "," + e + "}";
      }
      hide NumberSpelt;
    }

    lemma InBraces(open: nat, end: nat)
      requires open + 1 < end <= |pattern| && pattern[open] == '{' && pattern[end - 1] == '}'
      ensures pattern[open..end] == "{" + pattern[open + 1..end - 1] + "}"
    {
    }

    /** `{n}`, `{n,}` or `{n,m}`, truncated to 16 bits. */
    method Bounds() returns (st: Status, p0: nat, p1: nat)
      requires Sane() && Cur() == '{'
      modifies this`p
      ensures Sane() && old(p) <= p
      ensures if st.Fine? then p0 < 0x10000 && p1 < 0x10000 && CountSpelt(pattern[old(p)..p], p0, p1)
              else NoCount(pattern, old(p))
    {
      hide CountSpelt, NoCount, TooLong, CapturesOk;
      p0, p1 := 0, 0;
      p := p + 1;
      if !IsDigit(Cur()) {
        NoNumber(pattern, old(p));
        return Failed("number expected"), p0, p1;
      }
      ghost var a := p;
      st, p0 := ParseNumber();
      if !st.Fine? {
        LongNumber(pattern, old(p));
        return;
      }
      p0 := p0 % 0x10000;
      ghost var q := p;
      assert NumberSpelt(pattern[a..q], p0);
      if Cur() == '}' {
        p1 := p0;
        p := p + 1;
        SpellBounds(old(p), a, q, 0, p, p0, p1);
      } else if Cur() == ',' {
        p := p + 1;
        p1 := 0xFFFF;
        if IsDigit(Cur()) {
          ghost var b := p;
          st, p1 := ParseNumber();
          if !st.Fine? {
            NoUpperPart(pattern, old(p), q);
            return;
          }
          p1 := p1 % 0x10000;
          assert NumberSpelt(pattern[b..p], p1);
          st := Expect('}');
          if st.Fine? {
            SpellBounds(old(p), a, q, b, p, p0, p1);
          } else {
            NoBrace(pattern, old(p), q, p);
          }
        } else {
          st := Expect('}');
          if st.Fine? {
            SpellBounds(old(p), a, q, 0, p, p0, p1);
          } else {
            NoUpperPart(pattern, old(p), q);
          }
        }
      } else {
        NoUpperPart(pattern, old(p), q);
        return Failed(", or } expected"), p0, p1;
      }
    }

    /** What `trex_element` and `trex_list` promise about the nodes they did not allocate. */
    twostate predicate Appends()
      reads this
    {
      old(p) <= p && |old(nodes)| <= |nodes| && nodes[..|old(nodes)|] == old(nodes)
    }

    /** '(' or "(?:", and the node of the group. */
    method OpenGroup() returns (st: Status, expr: int, capture: bool)
      requires Sane() && Cur() == '('
      modifies this
      ensures Sane() && Appends()
      ensures if st.Fine?
              then expr == |old(nodes)| && |nodes| == expr + 1 && nodes[expr].next == -1 && old(p) < p
                && nodes[expr].typ == (if capture then OpExpr else OpNoCapExpr) && p == Opened(pattern, old(p))
                && capture == (Cur0(old(p) + 1) != '?') && (!capture ==> Cur0(old(p) + 2) == ':')
              else NoBase(pattern, old(p), |old(nodes)|)
    {
      hide CapturesOk, NoBase;
      expr := -1;
      p := p + 1;
      capture := Cur() != '?';
      if !capture {
        p := p + 1;
        st := Expect(':');
        if !st.Fine? {
          NoColon(pattern, old(p), |nodes|);
          return;
        }
        expr := NewNode(OpNoCapExpr);
      } else {
        st := Fine;
        expr := NewNode(OpExpr);
      }
    }

    /** The first half of `trex_element`: the element without its count. */
    method Base() returns (st: Status, ret: int, ghost r: Re)
      requires Sane()
      modifies this
      ensures Sane() && Appends()
      ensures st.Fine? ==>
        && old(p) < p && ret == |old(nodes)| == Root(r, ret) && |nodes| == ret + Size(r) && nodes[ret].next == -1
        && Holds(nodes, r, ret) && BaseSpelt(pattern[old(p)..p], r, ret)
      ensures !st.Fine? ==> NoBase(pattern, old(p), |old(nodes)|)
      decreases |pattern| - p, 2
    {
      hide CapturesOk, BaseSpelt, Holds, NoBase, NoItem;
      r := AnyChar;
      if Cur() == '(' {
        st, ret, r := GroupElement();
      } else if Cur() == '[' {
        st, ret, r := ClassElement();
      } else if Cur() == '$' {
        p := p + 1;
        ret := NewNode(OpEol);
        r := LineEnd;
        OneCharacter(old(p), r, ret);
        return Fine, ret, r;
      } else if Cur() == '.' {
        p := p + 1;
        ret := NewNode(OpDot);
        OneCharacter(old(p), r, ret);
        return Fine, ret, r;
      } else {
        st, ret, r := CharNode(false);
      }
    }

    lemma OneCharacter(a: nat, r: Re, lo: nat)
      requires a < |pattern| && lo < |nodes|
      requires (r == LineEnd && pattern[a] == '$' && nodes[lo].typ.OpEol?) || (r == AnyChar && pattern[a] == '.' && nodes[lo].typ.OpDot?)
      ensures BaseSpelt(pattern[a..a + 1], r, lo) && Holds(nodes, r, lo) && Size(r) == 1
    {
    }

    lemma SpellSet(a: nat, e: nat, r: Re, lo: nat)
      requires a + 2 < e <= |pattern| && pattern[a] == '[' && pattern[e - 1] == ']' && r.Set? && r.items.MoreItems?
      requires r.negated == (pattern[a + 1] == '^')
      requires ItemsSpelt(pattern[if r.negated then a + 2 else a + 1..e - 1], r.items, lo + 1)
      ensures BaseSpelt(pattern[a..e], r, lo)
    {
      hide ItemsSpelt;
      var t := pattern[if r.negated then a + 2 else a + 1..e - 1];
      assert pattern[a..e] == (if r.negated then "[^" else "[") + t + "]";
      assert Bracketed(pattern[a..e], t, r.negated, r.items, lo);
    }

    method ClassElement() returns (st: Status, ret: int, ghost r: Re)
      requires Sane() && Cur() == '['
      modifies this
      ensures Sane() && Appends()
      ensures st.Fine? ==>
        && old(p) < p && ret == |old(nodes)| == Root(r, ret) && |nodes| == ret + Size(r) && nodes[ret].next == -1
        && Holds(nodes, r, ret) && BaseSpelt(pattern[old(p)..p], r, ret)
      ensures !st.Fine? ==> NoBase(pattern, old(p), |old(nodes)|)
    {
      hide CapturesOk, BaseSpelt, ItemsSpelt, Holds, NoBase, NoClass;
      p := p + 1;
      st, ret, r := CharClass();
      if st.Fine? {
        st := Expect(']');
        SpellSet(old(p), p, r, ret);
      } else {
        SetRefused(pattern, old(p), |old(nodes)|);
      }
    }

    method GroupElement() returns (st: Status, ret: int, ghost r: Re)
      requires Sane() && Cur() == '('
      modifies this
      ensures Sane() && Appends()
      ensures st.Fine? ==>
        && old(p) < p && ret == |old(nodes)| == Root(r, ret) && |nodes| == ret + Size(r) && nodes[ret].next == -1
        && Holds(nodes, r, ret) && BaseSpelt(pattern[old(p)..p], r, ret)
      ensures !st.Fine? ==> NoBase(pattern, old(p), |old(nodes)|)
      decreases |pattern| - p, 1
    {
      hide CapturesOk, BaseSpelt, AltSpelt, Holds, HoldsAlt, AltRoot, AltSize, NoBase, NoAlt, AltEnds;
      ret, r := -1, AnyChar;
      var expr, capture;
      st, expr, capture := OpenGroup();
      if !st.Fine? {
        return;
      }
      ghost var q := p;
      var newn;
      ghost var a;
      st, newn, a := List();
      if !st.Fine? {
        NoContents(pattern, old(p), expr);
        return;
      }
      ghost var before := nodes;
      nodes := nodes[expr := nodes[expr].(left := newn)];
      GroupNode(before, nodes, a, expr, capture);
      CapturesSame(before, nodes, nsubexpr);
      ret := expr;
      ghost var e := p;
      st := Expect(')');
      if st.Fine? {
        r := Group(capture, a);
        SpellGroup(old(p), q, e, capture, a, expr);
      } else {
        NotClosed(pattern, old(p), expr, e, a);
      }
    }

    /** `trex_element`: one element and, through its own recursion, all that follow it in the sequence. */
    method Element() returns (st: Status, ret: int, ghost c: Chain)
      requires Sane()
      modifies this
      ensures Sane() && Appends()
      ensures st.Fine? ==>
        && old(p) < p && c.Link? && ret == ChainRoot(c, |old(nodes)|) && |nodes| == |old(nodes)| + ChainSize(c)
        && HoldsChain(nodes, c, |old(nodes)|) && ElementsSpelt(pattern[old(p)..p], c, |old(nodes)|) && Ends(pattern[p..], c)
      ensures !st.Fine? ==> NoElements(pattern, old(p), |old(nodes)|)
      decreases |pattern| - p, 4
    {
      hide CapturesOk, Holds, CountedSpelt, HoldsChain, ElementsSpelt, NoCounted, NoElements, Ends;
      c := End;
      ghost var lo, r := |nodes|, AnyChar;
      st, ret, r := Counted();
      if !st.Fine? {
        ElementsFromCounted(pattern, old(p), lo);
        return;
      }
      ghost var q := p;
      if Cur() != '|' && Cur() != ')' && Cur() != '*' && Cur() != '+' && Cur() != '\0' {
        ghost var before := nodes;
        var nnode;
        st, nnode, c := Element();
        if !st.Fine? {
          ElementsFromTail(pattern, old(p), q, r, lo);
          return;
        }
        ghost var after := nodes;
        nodes := nodes[ret := nodes[ret].(next := nnode)];
        CapturesSame(after, nodes, nsubexpr);
        LinkElement(before, after, nodes, r, c, lo);
      } else {
        EmptyChain(nodes, lo + Size(r));
      }
      SpellLink(old(p), q, p, r, c, lo);
      HoldLink(nodes, r, c, lo);
      EndsHere(r, c);
      c := Link(r, c);
    }

    /** Where the compiler stops, the sequence ends. */
    lemma EndsHere(r: Re, tail: Chain)
      requires Sane()
      requires if tail.End? then (Cur() in "|)*+" || Cur() == '\0') && (r.Repeat? || Cur() !in "*+?{")
               else Ends(pattern[p..], tail)
      ensures Ends(pattern[p..], Link(r, tail))
    {
      assert p < |pattern| ==> pattern[p..][0] == pattern[p] == Cur() && pattern[p] in pattern;
    }

    /** An element with its count. */
    method Counted() returns (st: Status, ret: int, ghost r: Re)
      requires Sane()
      modifies this
      ensures Sane() && Appends()
      ensures st.Fine? ==>
        && old(p) < p && ret == Root(r, |old(nodes)|) && |nodes| == |old(nodes)| + Size(r) && nodes[ret].next == -1
        && Holds(nodes, r, |old(nodes)|) && CountedSpelt(pattern[old(p)..p], r, |old(nodes)|)
        && (r.Repeat? || Cur() !in "*+?{")
      ensures !st.Fine? ==> NoCounted(pattern, old(p), |old(nodes)|)
      decreases |pattern| - p, 3
    {
      hide CapturesOk, CountSpelt, Holds, BaseSpelt, CountedSpelt, NoBase, NoCount, NoCounted;
      ghost var lo := |nodes|;
      st, ret, r := Base();
      if !st.Fine? {
        CountedFromBase(pattern, old(p), lo);
        return;
      }
      ghost var q := p;
      var isGreedy, p0, p1;
      st, isGreedy, p0, p1 := Count();
      if !st.Fine? {
        CountedFromCount(pattern, old(p), q, r, lo);
        return;
      }
      if isGreedy {
        ghost var before := nodes;
        var nnode := NewNode(OpGreedy);
        nodes := nodes[nnode := nodes[nnode].(left := ret, right := p0 * 0x10000 + p1)];
        CapturesOr(before, nodes, nsubexpr);
        CountNode(before, nodes, r, lo, p0, p1);
        SpellRepeat(old(p), q, p, p0, p1, r, lo);
        r := Repeat(p0, p1, r);
        ret := nnode;
      } else {
        SpellUncounted(pattern[old(p)..p], r, lo);
      }
    }

    lemma InParentheses(a: nat, q: nat, e: nat)
      requires a <= q <= e < |pattern| && pattern[e] == ')'
      ensures pattern[a..e + 1] == pattern[a..q] + pattern[q..e] + ")"
    {
    }

    lemma SpellGroup(a: nat, q: nat, e: nat, capture: bool, alt: Alt, lo: nat)
      requires a < q <= e < |pattern| && pattern[a] == '(' && pattern[e] == ')' && AltSpelt(pattern[q..e], alt, lo + 1)
      requires if capture then q == a + 1 && pattern[q] != '?' else q == a + 3 && pattern[a + 1] == '?' && pattern[a + 2] == ':'
      ensures BaseSpelt(pattern[a..e + 1], Group(capture, alt), lo)
    {
      hide AltSpelt;
      InParentheses(a, q, e);
      assert pattern[a..q] == if capture then "(" else "(?:";
      assert Grouped(pattern[a..e + 1], pattern[q..e], capture, alt, lo);
    }

    lemma OnlyChain(a: nat, e: nat, held: seq<Node>, c: Chain, lo: nat)
      requires a <= e <= |pattern| && c.Link? && SequenceSpelt(pattern[a..e], c, lo) && HoldsChain(held, c, lo)
      ensures AltSpelt(pattern[a..e], Only(c), lo) && HoldsAlt(held, Only(c), lo)
    {
      hide SequenceSpelt, HoldsChain;
    }

    lemma SpellOr(a: nat, q: nat, e: nat, c: Chain, b: Alt, lo: nat)
      requires a <= q < e <= |pattern| && pattern[q] == '|' && c.Link?
      requires SequenceSpelt(pattern[a..q], c, lo) && AltSpelt(pattern[q + 1..e], b, lo + ChainSize(c) + 1)
      ensures AltSpelt(pattern[a..e], Either(c, b), lo)
    {
      hide SequenceSpelt;
      assert pattern[a..e] == pattern[a..q] + "|" + pattern[q + 1..e];
    }

    lemma SpellRepeat(a: nat, b: nat, c: nat, p0: nat, p1: nat, r: Re, lo: nat)
      requires a <= b <= c <= |pattern| && BaseSpelt(pattern[a..b], r, lo) && CountSpelt(pattern[b..c], p0, p1)
      ensures CountedSpelt(pattern[a..c], Repeat(p0, p1, r), lo)
    {
      hide CountSpelt, BaseSpelt;
      assert pattern[a..c] == pattern[a..b] + pattern[b..c];
    }

    lemma SpellUncounted(s: string, r: Re, lo: nat)
      requires BaseSpelt(s, r, lo)
      ensures CountedSpelt(s, r, lo)
    {
    }

    lemma SpellLink(a: nat, b: nat, c: nat, r: Re, tail: Chain, lo: nat)
      requires a <= b <= c <= |pattern| && CountedSpelt(pattern[a..b], r, lo)
      requires r.Repeat? || Cur0(b) !in "*+?{"
      requires if tail.End? then b == c else ElementsSpelt(pattern[b..c], tail, lo + Size(r)) && Cur0(b) !in "|)*+"
      ensures ElementsSpelt(pattern[a..c], Link(r, tail), lo)
    {
      hide CountedSpelt;
      var t, u := pattern[a..b], pattern[b..c];
      assert pattern[a..c] == t + u;
      assert u != "" ==> u[0] == Cur0(b);
    }

    /** `trex_list`: a sequence, or the alternatives separated by '|'. */
    method List() returns (st: Status, ret: int, ghost a: Alt)
      requires Sane()
      modifies this
      ensures Sane() && Appends()
      ensures st.Fine? ==>
        && old(p) < p && ret == AltRoot(a, |old(nodes)|) && |nodes| == |old(nodes)| + AltSize(a)
        && HoldsAlt(nodes, a, |old(nodes)|) && AltSpelt(pattern[old(p)..p], a, |old(nodes)|) && AltEnds(pattern[p..], a)
      ensures !st.Fine? ==> NoAlt(pattern, old(p), |old(nodes)|)
      decreases |pattern| - p, 6
    {
      hide CapturesOk, HoldsChain, HoldsAlt, SequenceSpelt, AltSpelt, NoSequence, NoAlt;
      a := Only(End);
      ghost var lo, c := |nodes|, End;
      st, ret, c := Sequence();
      if !st.Fine? {
        AltFromSequence(pattern, old(p), lo);
        return;
      }
      assert p < |pattern| ==> pattern[p..][0] == pattern[p];
      a := Only(c);
      OnlyChain(old(p), p, nodes, c, lo);
      if Cur() == '|' {
        ghost var q, before := p, nodes;
        p := p + 1;
        var temp := NewNode(OpOr);
        nodes := nodes[temp := nodes[temp].(left := ret)];
        CapturesOr(before, nodes, nsubexpr);
        ghost var mid := nodes;
        var tright;
        ghost var b;
        st, tright, b := List();
        if !st.Fine? {
          AltFromRest(pattern, old(p), q, c, lo);
          return;
        }
        ghost var after := nodes;
        nodes := nodes[temp := nodes[temp].(right := tright)];
        CapturesSameOr(after, nodes, nsubexpr, temp);
        assert after[..|before|] == before && after[temp] == mid[temp] by {
          assert after[..|mid|] == mid && mid[..|before|] == before;
        }
        OrNode(before, after, nodes, c, b, lo);
        SpellOr(old(p), q, p, c, b, lo);
        a := Either(c, b);
        ret := temp;
      }
    }

    /** A sequence, with the '^' that may start it. */
    method Sequence() returns (st: Status, ret: int, ghost c: Chain)
      requires Sane()
      modifies this
      ensures Sane() && Appends()
      ensures st.Fine? ==>
        && old(p) < p && c.Link? && ret == ChainRoot(c, |old(nodes)|) && |nodes| == |old(nodes)| + ChainSize(c)
        && HoldsChain(nodes, c, |old(nodes)|) && SequenceSpelt(pattern[old(p)..p], c, |old(nodes)|) && Ends(pattern[p..], c)
      ensures !st.Fine? ==> NoSequence(pattern, old(p), |old(nodes)|)
      decreases |pattern| - p, 5
    {
      hide CapturesOk, HoldsChain, ElementsSpelt, NoElements, NoSequence;
      ghost var lo := |nodes|;
      if Cur() == '^' {
        p := p + 1;
        ghost var q := p;
        ret := NewNode(OpBol);
        ghost var before := nodes;
        assert Holds(nodes, LineStart, lo);
        var e;
        st, e, c := Element();
        if !st.Fine? {
          SequenceRefused(pattern, old(p), lo);
          return;
        }
        ghost var after := nodes;
        nodes := nodes[ret := nodes[ret].(next := e)];
        CapturesSame(after, nodes, nsubexpr);
        LinkElement(before, after, nodes, LineStart, c, lo);
        assert pattern[old(p)..p][1..] == pattern[q..p];
        HoldLink(nodes, LineStart, c, lo);
        c := Link(LineStart, c);
      } else {
        st, ret, c := Element();
        if !st.Fine? {
          SequenceRefused(pattern, old(p), lo);
        }
      }
    }

    /**
     `trex_compile`: the whole pattern becomes the root group, whose node is the first of the array. A pattern compiles
     exactly when there is a tree that it spells.
     */
    method Compile() returns (st: Status, ghost a: Alt)
      requires Sane() && p == 0 && nodes == [] && nsubexpr == 0
      modifies this
      ensures Sane()
      ensures st.Fine? <==> exists b :: AltSpelt(pattern, b, 1)
      ensures st.Fine? ==>
        && AltSpelt(pattern, a, 1) && Holds(nodes, Group(true, a), 0) && |nodes| == Size(Group(true, a))
        && nodes[0].next == -1 && nodes[0].right == 0
    {
      hide CapturesOk, Holds, HoldsAlt, AltSpelt, AltRoot, AltEnds, NoAlt;
      var first := NewNode(OpExpr);
      var res;
      st, res, a := List();
      if !st.Fine? {
        NoWhole();
        return;
      }
      ghost var before := nodes;
      nodes := nodes[first := nodes[first].(left := res)];
      GroupNode(before, nodes, a, 0, true);
      CapturesSame(before, nodes, nsubexpr);
      if Cur() != '\0' {
        NotWhole(p, a);
        return Failed("unexpected character"), a;
      }
      NulEnds();
      assert pattern[0..p] == pattern;
    }

    lemma NoWhole()
      requires NoAlt(pattern, 0, 1)
      ensures !exists b :: AltSpelt(pattern, b, 1)
    {
      hide AltSpelt;
      assert pattern[0..|pattern|] == pattern;
    }

    lemma NotWhole(q: nat, a: Alt)
      requires q < |pattern| && AltSpelt(pattern[0..q], a, 1) && AltEnds(pattern[q..], a)
      ensures !exists b :: AltSpelt(pattern, b, 1)
    {
      hide AltSpelt, AltEnds;
      assert pattern[0..|pattern|] == pattern;
      forall b ensures !AltSpelt(pattern, b, 1) {
        if AltSpelt(pattern, b, 1) {
          AltSame(pattern, 0, q, a, |pattern|, b, 1);
        }
      }
    }

    lemma NulEnds()
      requires Sane() && Cur() == '\0'
      ensures p == |pattern|
    {
    }
  }

  lemma CapturesOr(a: seq<Node>, b: seq<Node>, n: nat)
    requires CapturesOk(a, n) && |b| == |a| + 1 && b[..|a|] == a && !b[|a|].typ.OpExpr?
    ensures CapturesOk(b, n)
  {
  }

  lemma CapturesSameOr(a: seq<Node>, b: seq<Node>, n: nat, c: nat)
    requires CapturesOk(a, n) && |a| == |b| && c < |a| && !b[c].typ.OpExpr?
    requires forall i :: 0 <= i < |a| && i != c ==> a[i] == b[i]
    ensures CapturesOk(b, n)
  {
  }

  /** The node of a count, allocated right behind the element it repeats. */
  lemma CountNode(before: seq<Node>, after: seq<Node>, r: Re, lo: nat, p0: nat, p1: nat)
    requires Holds(before, r, lo) && |before| == lo + Size(r) && before[Root(r, lo)].next == -1
    requires p0 < 0x10000 && p1 < 0x10000
    requires after == before + [Node(OpGreedy, Root(r, lo), p0 * 0x10000 + p1, -1)]
    ensures Holds(after, Repeat(p0, p1, r), lo)
  {
    RootInside(r, lo);
    assert forall i :: 0 <= i < |before| ==> after[i] == before[i];
    Frame(before, after, r, lo);
  }

  /** Setting the contents of a group after they have been compiled behind its node. */
  lemma GroupNode(before: seq<Node>, after: seq<Node>, a: Alt, lo: nat, capture: bool)
    requires lo < |before| && HoldsAlt(before, a, lo + 1) && |before| == lo + 1 + AltSize(a)
    requires before[lo].typ == (if capture then OpExpr else OpNoCapExpr)
    requires after == before[lo := before[lo].(left := AltRoot(a, lo + 1))]
    ensures Holds(after, Group(capture, a), lo)
  {
    AltFrame(before, after, a, lo + 1);
  }

  /** Setting the second operand of an alternation after it has been compiled behind its node. */
  lemma OrNode(before: seq<Node>, mid: seq<Node>, after: seq<Node>, c: Chain, b: Alt, lo: nat)
    requires c.Link? && HoldsChain(before, c, lo) && |before| == lo + ChainSize(c) < |mid| && mid[..|before|] == before
    requires HoldsAlt(mid, b, |before| + 1) && |mid| == |before| + 1 + AltSize(b)
    requires mid[|before|] == Node(OpOr, ChainRoot(c, lo), -1, -1)
    requires after == mid[|before| := mid[|before|].(right := AltRoot(b, |before| + 1))]
    ensures HoldsAlt(after, Either(c, b), lo)
  {
    hide HoldsChain;
    assert forall i :: 0 <= i < |before| ==> after[i] == before[i] by {
      assert forall i :: 0 <= i < |before| ==> mid[i] == before[i];
    }
    ChainFrame(before, after, c, lo);
    AltFrame(mid, after, b, |before| + 1);
  }

  lemma EmptyChain(nodes: seq<Node>, lo: nat)
    ensures HoldsChain(nodes, End, lo)
  {
  }

  lemma HoldLink(nodes: seq<Node>, r: Re, c: Chain, lo: nat)
    requires Holds(nodes, r, lo) && Root(r, lo) < |nodes| && nodes[Root(r, lo)].next == ChainRoot(c, lo + Size(r))
    requires HoldsChain(nodes, c, lo + Size(r))
    ensures HoldsChain(nodes, Link(r, c), lo)
  {
  }

  /** Setting the `next` of an element after the rest of its sequence has been compiled behind it. */
  lemma LinkElement(before: seq<Node>, after: seq<Node>, linked: seq<Node>, r: Re, c: Chain, lo: nat)
    requires Holds(before, r, lo) && |before| == lo + Size(r) <= |after| && after[..|before|] == before
    requires c.Link? && HoldsChain(after, c, |before|) && |after| == |before| + ChainSize(c)
    requires linked == after[Root(r, lo) := after[Root(r, lo)].(next := ChainRoot(c, |before|))]
    ensures Holds(linked, r, lo) && HoldsChain(linked, c, |before|)
  {
    RootInside(r, lo);
    hide Holds, HoldsChain, Root, Size, ChainSize, ChainRoot;
    forall i | lo <= i < lo + Size(r) && i != Root(r, lo) ensures before[i] == linked[i] {
      assert after[i] == before[i];
    }
    assert after[Root(r, lo)] == before[Root(r, lo)];
    Frame(before, linked, r, lo);
    ChainFrame(after, linked, c, |before|);
  }

  /** Relinking nodes does not touch the capture numbers. */
  lemma CapturesSame(a: seq<Node>, b: seq<Node>, n: nat)
    requires CapturesOk(a, n) && |a| == |b|
    requires forall i :: 0 <= i < |a| ==> a[i].typ == b[i].typ && a[i].right == b[i].right
    ensures CapturesOk(b, n)
  {
  }

  /** The last member lies behind the start of the list, and is the end of it. */
  lemma {:induction false} EndsAfter(nodes: seq<Node>, at: int, items: Items, lo: nat, last: int)
    requires HoldsItems(nodes, at, items, lo, |nodes|) && EndsAt(nodes, at, items, last)
    ensures lo <= at <= last < |nodes| && nodes[last].next == -1
    decreases items
  {
    if items.rest.MoreItems? {
      EndsAfter(nodes, nodes[at].next, items.rest, at + 1, last);
    }
  }

  /** Filling in a node behind the last member changes nothing for the list. */
  lemma {:induction false} ItemsSame(a: seq<Node>, b: seq<Node>, at: int, items: Items, lo: nat, last: int, c: nat)
    requires HoldsItems(a, at, items, lo, |a|) && c < |a| == |b|
    requires items.MoreItems? ==> EndsAt(a, at, items, last) && last < c
    requires forall i :: 0 <= i < |a| && i != c ==> a[i] == b[i]
    ensures HoldsItems(b, at, items, lo, |b|)
    ensures items.MoreItems? ==> EndsAt(b, at, items, last)
    decreases items
  {
    if items.MoreItems? {
      EndsAfter(a, at, items, lo, last);
      ItemsSame(a, b, a[at].next, items.rest, at + 1, last, c);
    }
  }
}
