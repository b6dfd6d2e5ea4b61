/**
 `std_map_field`: a std::map is built from the nodes of another one, by copying its red-black tree node by node,
 and printed by walking its tree.
 */
module MapClone {

  datatype Color = Red | Black

  datatype Entry = Entry(key: string, value: string)

  /** `std::_Rb_tree_node`: the node base and the pair behind it. */
  class Node {
    var color: Color
    var parent: Node?
    var left: Node?
    var right: Node?
    var entry: Entry

    constructor (color: Color)
      ensures this.color == color && parent == null && left == null && right == null
    {
      this.color := color;
      parent, left, right := null, null, null;
      entry := Entry("", "");
    }
  }

  // ----- trees in memory

  /** A tree: its nodes as links connect them, and what they hold. */
  datatype Tree = Nil | Branch(node: Node, color: Color, entry: Entry, left: Tree, right: Tree)

  ghost function Nodes(t: Tree): set<Node> {
    if t.Nil? then {} else {t.node} + Nodes(t.left) + Nodes(t.right)
  }

  ghost function Root(t: Tree): Node? {
    if t.Nil? then null else t.node
  }

  /** No node occurs twice. */
  ghost predicate Distinct(t: Tree) {
    t.Branch? ==>
      && t.node !in Nodes(t.left) && t.node !in Nodes(t.right) && Nodes(t.left) !! Nodes(t.right)
      && Distinct(t.left) && Distinct(t.right)
  }

  /** Memory holds the tree. */
  ghost predicate Held(t: Tree)
    reads Nodes(t)
  {
    t.Branch? ==>
      && t.node.color == t.color && t.node.entry == t.entry
      && t.node.left == Root(t.left) && t.node.right == Root(t.right)
      && Held(t.left) && Held(t.right)
  }

  /** Every node's parent pointer leads to the node above it. */
  ghost predicate Upward(t: Tree, parent: Node?)
    reads Nodes(t)
  {
    t.Branch? ==> t.node.parent == parent && Upward(t.left, t.node) && Upward(t.right, t.node)
  }

  /** Same shape, colours and entries. */
  ghost predicate Alike(t: Tree, c: Tree) {
    if t.Nil? then c.Nil?
    else c.Branch? && t.color == c.color && t.entry == c.entry && Alike(t.left, c.left) && Alike(t.right, c.right)
  }

  /** The node of the copy that stands where `n` stands in the tree. */
  ghost function CopyOf(t: Tree, c: Tree, n: Node): Node
    requires n in Nodes(t) && Alike(t, c)
  {
    if n == t.node then c.node
    else if n in Nodes(t.left) then CopyOf(t.left, c.left, n)
    else CopyOf(t.right, c.right, n)
  }

  /** A pointer into the tree becomes a pointer into the copy, any other stays what it is. */
  ghost function Moved(t: Tree, c: Tree, n: Node?): Node?
    requires Alike(t, c)
  {
    if n in Nodes(t) then CopyOf(t, c, n) else n
  }

  /** Links a node and its two subtrees, and gives it its contents. */
  method Attach(base: Node, left: Node?, right: Node?, parent: Node?, entry: Entry, ghost l: Tree, ghost r: Tree)
      returns (ghost c: Tree)
    requires Held(l) && Held(r) && Distinct(l) && Distinct(r) && left == Root(l) && right == Root(r)
    requires Upward(l, base) && Upward(r, base)
    requires base !in Nodes(l) && base !in Nodes(r) && Nodes(l) !! Nodes(r)
    modifies base`left, base`right, base`parent, base`entry
    ensures c == Branch(base, base.color, entry, l, r) && Held(c) && Distinct(c) && Upward(c, parent)
  {
    base.left := left;
    base.right := right;
    base.parent := parent;
    base.entry := entry;
    assert Held(l) && Held(r) && Upward(l, base) && Upward(r, base);
    c := Branch(base, base.color, entry, l, r);
  }

  /** `std_map_field::copyNode`, for source tree `t`; `c` is the copy. */
  method CopyNode(toCopy: Node?, parent: Node?, first: Node?, last: Node?, ghost t: Tree)
      returns (copy: Node?, first': Node?, last': Node?, ghost c: Tree)
    requires Held(t) && Distinct(t) && toCopy == Root(t) && allocated(Nodes(t))
    ensures copy == Root(c) && fresh(Nodes(c)) && allocated(Nodes(c)) && Held(c) && Distinct(c) && Upward(c, parent)
    ensures Alike(t, c) && first' == Moved(t, c, first) && last' == Moved(t, c, last)
    decreases t
  {
    hide Moved, Alike;
    if toCopy == null {
      NothingMoves(first);
      NothingMoves(last);
      return null, first, last, Nil;
    }
    var base := new Node(toCopy.color);
    copy := base;
    var left, right;
    ghost var l, r;
    assert base !in Nodes(t);
    left, first', last', l := CopyNode(toCopy.left, base, first, last, t.left);
    assert base !in Nodes(l) && Nodes(l) !! Nodes(t);
    right, first', last', r := CopyNode(toCopy.right, base, first', last', t.right);
    assert base !in Nodes(r) && Nodes(r) !! Nodes(l) && Nodes(r) !! Nodes(t);
    c := Attach(base, left, right, parent, toCopy.entry, l, r);
    if first' == toCopy {
      first' := base;
    }
    if last' == toCopy {
      last' := base;
    }
    CopiedBranch(t, c, first);
    CopiedBranch(t, c, last);
  }

  lemma NothingMoves(n: Node?)
    ensures Alike(Nil, Nil) && Moved(Nil, Nil, n) == n
  {
  }

  lemma CopiedBranch(t: Tree, c: Tree, n: Node?)
    requires t.Branch? && c.Branch? && t.color == c.color && t.entry == c.entry
    requires Alike(t.left, c.left) && Alike(t.right, c.right) && Distinct(t) && Nodes(c) !! Nodes(t)
    ensures Alike(t, c)
    ensures var m := Moved(t.right, c.right, Moved(t.left, c.left, n));
      Moved(t, c, n) == if m == t.node then c.node else m
  {
    CopyInside(t.left, c.left);
    CopyInside(t.right, c.right);
  }

  lemma {:induction false} CopyInside(t: Tree, c: Tree)
    requires Alike(t, c)
    ensures forall n :: n in Nodes(t) ==> CopyOf(t, c, n) in Nodes(c)
  {
    if t.Branch? {
      CopyInside(t.left, c.left);
      CopyInside(t.right, c.right);
    }
  }

  // ----- what a copy preserves

  ghost function InOrder(t: Tree): seq<Entry> {
    if t.Nil? then [] else InOrder(t.left) + [t.entry] + InOrder(t.right)
  }

  /** Black nodes on the way down to every missing child, or -1 if the ways differ or a red node has a red child. */
  ghost function BlackHeight(t: Tree): int {
    if t.Nil? then 0
    else
      var l, r := BlackHeight(t.left), BlackHeight(t.right);
      if l == -1 || l != r || (t.color.Red? && (IsRed(t.left) || IsRed(t.right))) then -1
      else if t.color.Black? then l + 1 else l
  }

  ghost predicate IsRed(t: Tree) { t.Branch? && t.color.Red? }

  ghost function Leftmost(t: Tree): Node
    requires t.Branch?
  {
    if t.left.Nil? then t.node else Leftmost(t.left)
  }

  ghost function Rightmost(t: Tree): Node
    requires t.Branch?
  {
    if t.right.Nil? then t.node else Rightmost(t.right)
  }

  ghost function Size(t: Tree): nat {
    if t.Nil? then 0 else Size(t.left) + 1 + Size(t.right)
  }

  /** The black nodes on one way down; `way` says at each node whether to turn right. */
  ghost function Blacks(t: Tree, way: nat -> bool, depth: nat): nat {
    if t.Nil? then 0
    else (if t.color.Black? then 1 else 0) + Blacks(if way(depth) then t.right else t.left, way, depth + 1)
  }

  /** If there is a black height, it is that of every way down, and no red node has a red child. */
  lemma {:induction false} BlackHeightMeans(t: Tree, way: nat -> bool, depth: nat)
    requires BlackHeight(t) != -1
    ensures Blacks(t, way, depth) == BlackHeight(t)
    ensures t.Branch? && t.color == Red ==> (t.left.Branch? ==> t.left.color == Black) && (t.right.Branch? ==> t.right.color == Black)
  {
    if t.Branch? {
      BlackHeightMeans(if way(depth) then t.right else t.left, way, depth + 1);
    }
  }

  /** The ends are the nodes of the first and the last entry. */
  lemma {:induction false} EndsAreEnds(t: Tree)
    requires t.Branch? && Held(t)
    ensures |InOrder(t)| == Size(t) > 0
    ensures Leftmost(t) in Nodes(t) && Leftmost(t).entry == InOrder(t)[0] && Leftmost(t).left == null
    ensures Rightmost(t) in Nodes(t) && Rightmost(t).entry == InOrder(t)[|InOrder(t)| - 1] && Rightmost(t).right == null
  {
    if t.left.Branch? {
      EndsAreEnds(t.left);
    }
    if t.right.Branch? {
      EndsAreEnds(t.right);
    }
  }

  /** Search order and balance carry over, whatever the order of the keys is. */
  lemma {:induction false} AlikeIsAsGood(t: Tree, c: Tree)
    requires Alike(t, c)
    ensures InOrder(c) == InOrder(t) && BlackHeight(c) == BlackHeight(t) && IsRed(c) == IsRed(t) && Size(c) == Size(t)
  {
    if t.Branch? {
      AlikeIsAsGood(t.left, c.left);
      AlikeIsAsGood(t.right, c.right);
    }
  }

  /** The first and last nodes become the first and last nodes of the copy. */
  lemma {:induction false} EndsMove(t: Tree, c: Tree)
    requires Alike(t, c) && t.Branch? && Distinct(t)
    ensures Leftmost(t) in Nodes(t) && Moved(t, c, Leftmost(t)) == Leftmost(c)
    ensures Rightmost(t) in Nodes(t) && Moved(t, c, Rightmost(t)) == Rightmost(c)
  {
    if t.left.Branch? {
      EndsMove(t.left, c.left);
    }
    if t.right.Branch? {
      EndsMove(t.right, c.right);
    }
  }

  // ----- maps

  /** A std::map: the header node, which is not part of the tree, and the number of elements. */
  class Map {
    const header: Node
    var count: nat

    constructor ()
      ensures fresh(header) && header.parent == null && header.left == header.right == header && count == 0
    {
      header := new Node(Red);
      count := 0;
      new;
      header.left, header.right := header, header;
    }

    /** The links of the header and the size, for the tree `t` and the nodes that stand for its ends. */
    ghost predicate Heads(t: Tree, first: Node, last: Node)
      reads this, header
    {
      && header !in Nodes(t) && header.color.Red? && header.parent == Root(t) && count == Size(t)
      && header.left == first && header.right == last
    }

    /** A map as the library leaves it. The root's parent is the header, which also stands for the ends of an empty tree. */
    ghost predicate Valid(t: Tree)
      reads this, header, Nodes(t)
    {
      && Held(t) && Distinct(t) && Upward(t, header)
      && if t.Nil? then Heads(t, header, header) else Heads(t, Leftmost(t), Rightmost(t))
    }

    lemma NothingCopied(t: Tree)
      ensures forall c :: Alike(t, c) ==> (t.Nil? <==> c.Nil?)
    {
    }

    lemma OutsideStays(t: Tree, n: Node)
      requires n !in Nodes(t)
      ensures forall c :: Alike(t, c) ==> Moved(t, c, n) == n
    {
    }

    /** Writes the header node and the size. */
    method SetHeader(root: Node?, first: Node?, last: Node?, n: nat)
      modifies this`count, header
      ensures header.color.Red? && header.parent == root && header.left == first && header.right == last && count == n
    {
      header.color := Red;
      header.parent := root;
      header.left := first;
      header.right := last;
      count := n;
    }

    /** The end of `std_map_field::fromJson`: this map becomes a copy of one that was built by the library. */
    method CopyFrom(source: Map, ghost t: Tree) returns (ghost c: Tree)
      requires source != this && source.header != header && source.Valid(t) && allocated(Nodes(t)) && header !in Nodes(t)
      modifies this, header
      ensures source.Valid(t)
      ensures fresh(Nodes(c)) && Held(c) && Distinct(c) && Alike(t, c) && Upward(c, null)
      ensures if t.Branch? then Heads(c, Leftmost(c), Rightmost(c)) else Heads(c, source.header, source.header)
      ensures header.color == Red && header.parent == Root(c) && count == Size(t)
      ensures t.Branch? ==> header.left == Leftmost(c) && header.right == Rightmost(c)
      ensures !Valid(c)
    {
      hide Alike, Distinct, InOrder, BlackHeight, IsRed, Moved, Leftmost, Rightmost;
      var pointer, first, last;
      OutsideStays(t, source.header);
      NothingCopied(t);
      pointer, first, last, c := CopyNode(source.header.parent, null, source.header.left, source.header.right, t);
      if t.Branch? {
        EndsMove(t, c);
      }
      AlikeIsAsGood(t, c);
      assert Held(t) && Upward(t, source.header) && Held(c) && Upward(c, null);
      SetHeader(pointer, first, last, source.count);
      assert Held(t) && Upward(t, source.header) && Held(c) && Upward(c, null);
      CopyIsNoLibraryMap(this, c, source.header);
    }
  }

  /**
   The copy is not a map the library could have built: above its root there is no header, and if it is empty its
   ends are in the map it was copied from.
   */
  lemma CopyIsNoLibraryMap(m: Map, c: Tree, other: Node)
    requires Upward(c, null) && other != m.header
    requires c.Nil? ==> m.Heads(c, other, other)
    ensures !m.Valid(c)
  {
  }

  // ----- printing

  ghost function PreOrder(t: Tree): seq<Entry> {
    if t.Nil? then [] else [t.entry] + PreOrder(t.left) + PreOrder(t.right)
  }

  /** An entry comes before those below it, and what is on the left before what is on the right. */
  lemma PreOrderPlaces(t: Tree, i: nat)
    requires t.Branch?
    ensures |PreOrder(t)| == 1 + |PreOrder(t.left)| + |PreOrder(t.right)| && PreOrder(t)[0] == t.entry
    ensures i < |PreOrder(t.left)| ==> PreOrder(t)[1 + i] == PreOrder(t.left)[i]
    ensures i < |PreOrder(t.right)| ==> PreOrder(t)[1 + |PreOrder(t.left)| + i] == PreOrder(t.right)[i]
  {
  }

  /** `std_map_field::readRedBlackTree`. */
  method ReadTree(elements: seq<Entry>, node: Node?, ghost t: Tree) returns (elements': seq<Entry>)
    requires Held(t) && node == Root(t) && allocated(Nodes(t))
    ensures elements' == elements + PreOrder(t)
    decreases t
  {
    elements' := elements;
    if node != null {
      elements' := elements' + [node.entry];
      elements' := ReadTree(elements', node.left, t.left);
      elements' := ReadTree(elements', node.right, t.right);
    }
  }

  /** A copy is printed like its source, and every entry is printed exactly once. */
  lemma {:induction false} EveryEntryOnce(t: Tree, c: Tree)
    requires Alike(t, c)
    ensures PreOrder(c) == PreOrder(t) && |PreOrder(t)| == Size(t)
    ensures multiset(PreOrder(t)) == multiset(InOrder(t))
  {
    if t.Branch? {
      EveryEntryOnce(t.left, c.left);
      EveryEntryOnce(t.right, c.right);
    }
  }
}
