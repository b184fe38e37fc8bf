/**
  The five tree shapes of `create_trees`.  Each shape is built the way the
  enumerator builds it, one `add_left`/`add_right` at a time, and its contract
  gives the finished tree.  Cards are `c[0..4]` and operators `o[0..3]` in the
  order of the current card ordering and operator triple.
*/
module Shapes {
  import opened Wrappers
  import opened BetNode

  /** The shape names of `create_trees`, read as postfix patterns (C = card, X = operator). */
  datatype Shape = CCCCXXX | CCCXCXX | CCCXXCX | CCXCXCX | CCXCCXX

  const AllShapes: set<Shape> := {CCCCXXX, CCCXCXX, CCCXXCX, CCXCXCX, CCXCCXX}

  /** The finished tree of each shape. */
  function ShapeTree(shape: Shape, c: seq<string>, o: seq<string>): (t: Node)
    requires |c| == 4 && |o| == 3
  {
    match shape
    case CCCCXXX => Op(o[0], Leaf(c[3]), Op(o[1], Leaf(c[2]), Op(o[2], Leaf(c[1]), Leaf(c[0]))))
    case CCXCCXX => Op(o[0], Op(o[2], Leaf(c[3]), Leaf(c[2])), Op(o[1], Leaf(c[1]), Leaf(c[0])))
    case CCXCXCX => Op(o[0], Op(o[1], Op(o[2], Leaf(c[3]), Leaf(c[2])), Leaf(c[1])), Leaf(c[0]))
    case CCCXXCX => Op(o[0], Op(o[1], Leaf(c[1]), Op(o[2], Leaf(c[3]), Leaf(c[2]))), Leaf(c[0]))
    case CCCXCXX => Op(o[0], Leaf(c[0]), Op(o[1], Op(o[2], Leaf(c[3]), Leaf(c[2])), Leaf(c[1])))
  }

  // ---------------------------------------------------------------------
  // The builders, step by step.  `t.right.add_left(x)` becomes
  // `AddRight(t, AddLeft(t.right.value, x))`, and so on down the path.

  /** Shape `CCCCXXX`; the left child set first is overwritten by the last step. */
  function BuildCCCCXXX(c: seq<string>, o: seq<string>): (t: Node)
    requires |c| == 4 && |o| == 3
    ensures t == ShapeTree(CCCCXXX, c, o)
  {
    var t := Leaf(o[0]);
    var t := AddRight(t, Leaf(o[1]));
    var t := AddLeft(t, Leaf(c[0]));
    if t.right.Some? then
      var t := AddRight(t, AddRight(t.right.value, Leaf(o[2])));
      var t := AddRight(t, AddRight(t.right.value, AddRight(t.right.value.right.value, Leaf(c[0]))));
      var t := AddRight(t, AddRight(t.right.value, AddLeft(t.right.value.right.value, Leaf(c[1]))));
      var t := AddRight(t, AddLeft(t.right.value, Leaf(c[2])));
      AddLeft(t, Leaf(c[3]))
    else t
  }

  /** Shape `CCXCCXX`. */
  function BuildCCXCCXX(c: seq<string>, o: seq<string>): (t: Node)
    requires |c| == 4 && |o| == 3
    ensures t == ShapeTree(CCXCCXX, c, o)
  {
    var t := Leaf(o[0]);
    var t := AddRight(t, Leaf(o[1]));
    var t := AddLeft(t, Leaf(o[2]));
    if t.right.Some? && t.left.Some? then
      var t := AddRight(t, AddRight(t.right.value, Leaf(c[0])));
      var t := AddRight(t, AddLeft(t.right.value, Leaf(c[1])));
      var t := AddLeft(t, AddRight(t.left.value, Leaf(c[2])));
      AddLeft(t, AddLeft(t.left.value, Leaf(c[3])))
    else t
  }

  /** Shape `CCXCXCX`. */
  function BuildCCXCXCX(c: seq<string>, o: seq<string>): (t: Node)
    requires |c| == 4 && |o| == 3
    ensures t == ShapeTree(CCXCXCX, c, o)
  {
    var t := Leaf(o[0]);
    var t := AddRight(t, Leaf(c[0]));
    var t := AddLeft(t, Leaf(o[1]));
    if t.left.Some? then
      var t := AddLeft(t, AddRight(t.left.value, Leaf(c[1])));
      var t := AddLeft(t, AddLeft(t.left.value, Leaf(o[2])));
      var t := AddLeft(t, AddLeft(t.left.value, AddRight(t.left.value.left.value, Leaf(c[2]))));
      AddLeft(t, AddLeft(t.left.value, AddLeft(t.left.value.left.value, Leaf(c[3]))))
    else t
  }

  /** Shape `CCCXXCX`. */
  function BuildCCCXXCX(c: seq<string>, o: seq<string>): (t: Node)
    requires |c| == 4 && |o| == 3
    ensures t == ShapeTree(CCCXXCX, c, o)
  {
    var t := Leaf(o[0]);
    var t := AddRight(t, Leaf(c[0]));
    var t := AddLeft(t, Leaf(o[1]));
    if t.left.Some? then
      var t := AddLeft(t, AddRight(t.left.value, Leaf(o[2])));
      var t := AddLeft(t, AddLeft(t.left.value, Leaf(c[1])));
      var t := AddLeft(t, AddRight(t.left.value, AddRight(t.left.value.right.value, Leaf(c[2]))));
      AddLeft(t, AddRight(t.left.value, AddLeft(t.left.value.right.value, Leaf(c[3]))))
    else t
  }

  /** Shape `CCCXCXX`. */
  function BuildCCCXCXX(c: seq<string>, o: seq<string>): (t: Node)
    requires |c| == 4 && |o| == 3
    ensures t == ShapeTree(CCCXCXX, c, o)
  {
    var t := Leaf(o[0]);
    var t := AddRight(t, Leaf(o[1]));
    var t := AddLeft(t, Leaf(c[0]));
    if t.right.Some? then
      var t := AddRight(t, AddRight(t.right.value, Leaf(c[1])));
      var t := AddRight(t, AddLeft(t.right.value, Leaf(o[2])));
      var t := AddRight(t, AddLeft(t.right.value, AddRight(t.right.value.left.value, Leaf(c[2]))));
      AddRight(t, AddLeft(t.right.value, AddLeft(t.right.value.left.value, Leaf(c[3]))))
    else t
  }

  /** The body of the innermost loop of `create_trees`: the tree for one shape. */
  function Build(shape: Shape, c: seq<string>, o: seq<string>): (t: Node)
    requires |c| == 4 && |o| == 3
    ensures t == ShapeTree(shape, c, o)
  {
    match shape
    case CCCCXXX => BuildCCCCXXX(c, o)
    case CCXCCXX => BuildCCXCCXX(c, o)
    case CCXCXCX => BuildCCXCXCX(c, o)
    case CCCXXCX => BuildCCCXXCX(c, o)
    case CCCXCXX => BuildCCCXCXX(c, o)
  }

  // ---------------------------------------------------------------------
  // Structure of the finished trees

  /** A tree with its values erased. */
  datatype Skeleton = Tip | Fork(l: Skeleton, r: Skeleton)

  function LeafCount(k: Skeleton): (n: nat)
    ensures n >= 1
  {
    match k
    case Tip => 1
    case Fork(l, r) => LeafCount(l) + LeafCount(r)
  }

  /** The skeleton of a tree; a node lacking a child counts as a tip. */
  function SkeletonOf(n: Node): (k: Skeleton)
    decreases n
  {
    if n.left.Some? && n.right.Some? then Fork(SkeletonOf(n.left.value), SkeletonOf(n.right.value))
    else Tip
  }

  /** The skeleton each shape name stands for. */
  function ShapeSkeleton(shape: Shape): (k: Skeleton)
  {
    match shape
    case CCCCXXX => Fork(Tip, Fork(Tip, Fork(Tip, Tip)))
    case CCXCCXX => Fork(Fork(Tip, Tip), Fork(Tip, Tip))
    case CCXCXCX => Fork(Fork(Fork(Tip, Tip), Tip), Tip)
    case CCCXXCX => Fork(Fork(Tip, Fork(Tip, Tip)), Tip)
    case CCCXCXX => Fork(Tip, Fork(Fork(Tip, Tip), Tip))
  }

  /**
    A complete expression tree: every node has a value, and every node with
    children has two and holds one of the four operators.
  */
  predicate Full(n: Node)
    decreases n
  {
    && n.value.Some?
    && (IsLeaf(n)
        || (&& n.value.value in Operators
            && n.left.Some? && n.right.Some?
            && Full(n.left.value) && Full(n.right.value)))
  }

  /** The leaf tokens from left to right. */
  function Leaves(n: Node): (r: seq<string>)
    decreases n
  {
    if IsLeaf(n) then (if n.value.Some? then [n.value.value] else [])
    else
      (if n.left.Some? then Leaves(n.left.value) else [])
      + (if n.right.Some? then Leaves(n.right.value) else [])
  }

  /** The values of the nodes with children, in pre-order. */
  function Operations(n: Node): (r: seq<string>)
    decreases n
  {
    if IsLeaf(n) then []
    else
      (if n.value.Some? then [n.value.value] else [])
      + (if n.left.Some? then Operations(n.left.value) else [])
      + (if n.right.Some? then Operations(n.right.value) else [])
  }

  /** The skeletons with one, two and three leaves. */
  lemma SmallSkeletons(k: Skeleton)
    ensures LeafCount(k) == 1 ==> k == Tip
    ensures LeafCount(k) == 2 ==> k == Fork(Tip, Tip)
    ensures LeafCount(k) == 3 ==> k == Fork(Tip, Fork(Tip, Tip)) || k == Fork(Fork(Tip, Tip), Tip)
  {
    match k
    case Tip =>
    case Fork(l, r) =>
      SmallSkeletons(l);
      SmallSkeletons(r);
  }

  /**
    The five shapes are pairwise different and are exactly the full binary
    trees with four leaves.
  */
  lemma FiveShapesAreAllFourLeafTrees(k: Skeleton)
    ensures LeafCount(k) == 4 <==> exists s :: s in AllShapes && ShapeSkeleton(s) == k
    ensures forall s, s' :: ShapeSkeleton(s) == ShapeSkeleton(s') ==> s == s'
  {
    if LeafCount(k) == 4 {
      var l, r := k.l, k.r;
      SmallSkeletons(l);
      SmallSkeletons(r);
      if LeafCount(l) == 1 {
        if r == Fork(Tip, Fork(Tip, Tip)) {
          assert ShapeSkeleton(CCCCXXX) == k;
        } else {
          assert ShapeSkeleton(CCCXCXX) == k;
        }
      } else if LeafCount(l) == 2 {
        assert ShapeSkeleton(CCXCCXX) == k;
      } else if l == Fork(Tip, Fork(Tip, Tip)) {
        assert ShapeSkeleton(CCCXXCX) == k;
      } else {
        assert ShapeSkeleton(CCXCXCX) == k;
      }
    }
  }

  /** How skeleton, leaves, operations and completeness unfold on leaves and operator nodes. */
  lemma UnfoldStructure()
    ensures forall x :: SkeletonOf(Leaf(x)) == Tip && Leaves(Leaf(x)) == [x]
                        && Operations(Leaf(x)) == [] && Full(Leaf(x))
    ensures forall op, l, r :: SkeletonOf(Op(op, l, r)) == Fork(SkeletonOf(l), SkeletonOf(r))
    ensures forall op, l, r :: Leaves(Op(op, l, r)) == Leaves(l) + Leaves(r)
    ensures forall op, l, r :: Operations(Op(op, l, r)) == [op] + Operations(l) + Operations(r)
    ensures forall op, l, r :: Full(Op(op, l, r)) <==> op in Operators && Full(l) && Full(r)
  {
  }

  /** The order in which a shape places the cards at its leaves, left to right. */
  function LeafOrder(shape: Shape, c: seq<string>): (r: seq<string>)
    requires |c| == 4
    ensures |r| == 4
  {
    match shape
    case CCCCXXX => [c[3], c[2], c[1], c[0]]
    case CCXCCXX => [c[3], c[2], c[1], c[0]]
    case CCXCXCX => [c[3], c[2], c[1], c[0]]
    case CCCXXCX => [c[1], c[3], c[2], c[0]]
    case CCCXCXX => [c[0], c[3], c[2], c[1]]
  }

  /** The order in which a shape's nodes with children hold the operators, in pre-order. */
  function OperatorOrder(shape: Shape, o: seq<string>): (r: seq<string>)
    requires |o| == 3
    ensures |r| == 3
  {
    if shape == CCXCCXX then [o[0], o[2], o[1]] else [o[0], o[1], o[2]]
  }

  lemma Snoc<T>(s: seq<T>, x: T)
    ensures multiset(s + [x]) == multiset(s) + multiset{x}
  {
  }

  lemma MultisetOfFour<T>(a: T, b: T, c: T, d: T)
    ensures multiset([a, b, c, d]) == multiset{a} + multiset{b} + multiset{c} + multiset{d}
  {
    assert [a, b, c, d] == [a, b, c] + [d];
    assert [a, b, c] == [a, b] + [c];
    assert [a, b] == [a] + [b];
    Snoc([a, b, c], d);
    Snoc([a, b], c);
    Snoc([a], b);
  }

  lemma Reversed<T>(a: T, b: T, c: T, d: T)
    ensures multiset([d, c, b, a]) == multiset([a, b, c, d])
  {
    MultisetOfFour(a, b, c, d);
    MultisetOfFour(d, c, b, a);
  }

  lemma SecondFirst<T>(a: T, b: T, c: T, d: T)
    ensures multiset([b, d, c, a]) == multiset([a, b, c, d])
  {
    MultisetOfFour(a, b, c, d);
    MultisetOfFour(b, d, c, a);
  }

  lemma FirstFirst<T>(a: T, b: T, c: T, d: T)
    ensures multiset([a, d, c, b]) == multiset([a, b, c, d])
  {
    MultisetOfFour(a, b, c, d);
    MultisetOfFour(a, d, c, b);
  }

  lemma MultisetOfThree<T>(a: T, b: T, c: T)
    ensures multiset([a, b, c]) == multiset{a} + multiset{b} + multiset{c}
  {
    assert [a, b, c] == [a, b] + [c];
    assert [a, b] == [a] + [b];
    Snoc([a, b], c);
    Snoc([a], b);
  }

  lemma LastTwoSwapped<T>(a: T, b: T, c: T)
    ensures multiset([a, c, b]) == multiset([a, b, c])
  {
    MultisetOfThree(a, b, c);
    MultisetOfThree(a, c, b);
  }

  /** Every shape places each card exactly once. */
  lemma LeafOrderPermutes(shape: Shape, c: seq<string>)
    requires |c| == 4
    ensures multiset(LeafOrder(shape, c)) == multiset(c)
  {
    assert c == [c[0], c[1], c[2], c[3]];
    Reversed(c[0], c[1], c[2], c[3]);
    SecondFirst(c[0], c[1], c[2], c[3]);
    FirstFirst(c[0], c[1], c[2], c[3]);
  }

  /** Every shape places each operator exactly once. */
  lemma OperatorOrderPermutes(shape: Shape, o: seq<string>)
    requires |o| == 3
    ensures multiset(OperatorOrder(shape, o)) == multiset(o)
  {
    assert o == [o[0], o[1], o[2]];
    LastTwoSwapped(o[0], o[1], o[2]);
  }

  lemma ShapeSkeletonOf(shape: Shape, c: seq<string>, o: seq<string>)
    requires |c| == 4 && |o| == 3
    ensures SkeletonOf(ShapeTree(shape, c, o)) == ShapeSkeleton(shape)
  {
    UnfoldStructure();
  }

  lemma ShapeLeaves(shape: Shape, c: seq<string>, o: seq<string>)
    requires |c| == 4 && |o| == 3
    ensures Leaves(ShapeTree(shape, c, o)) == LeafOrder(shape, c)
  {
    var a, b, x, d := Leaf(c[3]), Leaf(c[2]), Leaf(c[1]), Leaf(c[0]);
    assert Leaves(a) == [c[3]] && Leaves(b) == [c[2]] && Leaves(x) == [c[1]] && Leaves(d) == [c[0]];
    match shape
    case CCCCXXX =>
      assert Leaves(Op(o[2], x, d)) == [c[1], c[0]];
      assert Leaves(Op(o[1], b, Op(o[2], x, d))) == [c[2], c[1], c[0]];
    case CCXCCXX =>
      assert Leaves(Op(o[2], a, b)) == [c[3], c[2]];
      assert Leaves(Op(o[1], x, d)) == [c[1], c[0]];
    case CCXCXCX =>
      assert Leaves(Op(o[2], a, b)) == [c[3], c[2]];
      assert Leaves(Op(o[1], Op(o[2], a, b), x)) == [c[3], c[2], c[1]];
    case CCCXXCX =>
      assert Leaves(Op(o[2], a, b)) == [c[3], c[2]];
      assert Leaves(Op(o[1], x, Op(o[2], a, b))) == [c[1], c[3], c[2]];
    case CCCXCXX =>
      assert Leaves(Op(o[2], a, b)) == [c[3], c[2]];
      assert Leaves(Op(o[1], Op(o[2], a, b), x)) == [c[3], c[2], c[1]];
  }

  lemma ShapeOperations(shape: Shape, c: seq<string>, o: seq<string>)
    requires |c| == 4 && |o| == 3
    ensures Operations(ShapeTree(shape, c, o)) == OperatorOrder(shape, o)
  {
    var a, b, x, d := Leaf(c[3]), Leaf(c[2]), Leaf(c[1]), Leaf(c[0]);
    assert Operations(a) == [] && Operations(b) == [] && Operations(x) == [] && Operations(d) == [];
    match shape
    case CCCCXXX =>
      assert Operations(Op(o[2], x, d)) == [o[2]];
      assert Operations(Op(o[1], b, Op(o[2], x, d))) == [o[1], o[2]];
    case CCXCCXX =>
      assert Operations(Op(o[2], a, b)) == [o[2]];
      assert Operations(Op(o[1], x, d)) == [o[1]];
    case CCXCXCX =>
      assert Operations(Op(o[2], a, b)) == [o[2]];
      assert Operations(Op(o[1], Op(o[2], a, b), x)) == [o[1], o[2]];
    case CCCXXCX =>
      assert Operations(Op(o[2], a, b)) == [o[2]];
      assert Operations(Op(o[1], x, Op(o[2], a, b))) == [o[1], o[2]];
    case CCCXCXX =>
      assert Operations(Op(o[2], a, b)) == [o[2]];
      assert Operations(Op(o[1], Op(o[2], a, b), x)) == [o[1], o[2]];
  }

  lemma ShapeFull(shape: Shape, c: seq<string>, o: seq<string>)
    requires |c| == 4 && |o| == 3
    requires forall i :: 0 <= i < 3 ==> o[i] in Operators
    ensures Full(ShapeTree(shape, c, o))
  {
    UnfoldStructure();
  }

  /**
    Each finished tree is complete when its operators are, has the shape's
    skeleton, and holds exactly its four cards and three operators.
  */
  lemma ShapeTreeStructure(shape: Shape, c: seq<string>, o: seq<string>)
    requires |c| == 4 && |o| == 3
    ensures (forall i :: 0 <= i < 3 ==> o[i] in Operators) ==> Full(ShapeTree(shape, c, o))
    ensures SkeletonOf(ShapeTree(shape, c, o)) == ShapeSkeleton(shape)
    ensures multiset(Leaves(ShapeTree(shape, c, o))) == multiset(c)
    ensures multiset(Operations(ShapeTree(shape, c, o))) == multiset(o)
  {
    if forall i :: 0 <= i < 3 ==> o[i] in Operators {
      ShapeFull(shape, c, o);
    }
    ShapeSkeletonOf(shape, c, o);
    ShapeLeaves(shape, c, o);
    LeafOrderPermutes(shape, c);
    ShapeOperations(shape, c, o);
    OperatorOrderPermutes(shape, o);
  }

  /** Different (shape, cards, operators) give different trees. */
  lemma ShapeTreeInjective(s: Shape, c: seq<string>, o: seq<string>, s': Shape, c': seq<string>, o': seq<string>)
    requires |c| == 4 && |o| == 3 && |c'| == 4 && |o'| == 3
    requires ShapeTree(s, c, o) == ShapeTree(s', c', o')
    ensures s == s' && c == c' && o == o'
  {
    ShapeSkeletonOf(s, c, o);
    ShapeSkeletonOf(s', c', o');
    FiveShapesAreAllFourLeafTrees(Tip);
    assert s == s';
    assert c == [c[0], c[1], c[2], c[3]] && c' == [c'[0], c'[1], c'[2], c'[3]];
    assert o == [o[0], o[1], o[2]] && o' == [o'[0], o'[1], o'[2]];
  }
}
