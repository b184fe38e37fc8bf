/**
  `create_trees` and `find_solutions`: every shape crossed with every
  ordering of the four cards and every triple of operators, collected in a
  set (so structurally equal trees collapse), and the renderings of the trees
  worth exactly 24.
*/
module Enumeration {
  import opened Wrappers
  import opened PyOps
  import opened BetNode
  import opened Shapes
  import opened Rendering
  import opened Arithmetic
  import opened HandOrderings
  import Counting

  // ---------------------------------------------------------------------
  // Operator triples (`product(operators, repeat=3)`)

  /** All ordered triples of operators. */
  const OperatorTriples: set<seq<string>> :=
    set a, b, c | a in Operators && b in Operators && c in Operators :: [a, b, c]

  /** Every (shape, ordering, operator triple) the three nested loops visit. */
  const Combos: set<(Shape, Ordering, seq<string>)> :=
    set s, p, o | s in AllShapes && p in Orderings && o in OperatorTriples :: (s, p, o)

  // ---------------------------------------------------------------------
  // create_trees

  /** The tree the loop body builds for one combination. */
  function Assemble(cards: seq<string>, c: (Shape, Ordering, seq<string>)): (t: Node)
    requires |cards| == 4 && c in Combos
    ensures t == ShapeTree(c.0, Arrange(cards, c.1), c.2)
  {
    Build(c.0, Arrange(cards, c.1), c.2)
  }

  /**
    What every enumerated tree looks like: complete, with four leaves (so one
    of the five shapes), its leaves the hand in some order, and three
    operator nodes.
  */
  predicate IsHandTree(t: Node, cards: seq<string>)
    requires |cards| == 4
  {
    && Full(t)
    && LeafCount(SkeletonOf(t)) == 4
    && IsRearrangement(Leaves(t), cards)
    && |Operations(t)| == 3
  }

  /** A shape's leaf order applied to an ordering of the hand is another ordering of the hand. */
  lemma LeafOrderOfArrangement(shape: Shape, cards: seq<string>, p: Ordering)
    requires |cards| == 4 && p in Orderings
    ensures IsRearrangement(LeafOrder(shape, Arrange(cards, p)), cards)
  {
    var (i, j, k, l) := p;
    var q := match shape
      case CCCXXCX => (j, l, k, i)
      case CCCXCXX => (i, l, k, j)
      case _ => (l, k, j, i);
    assert q in Orderings;
    assert LeafOrder(shape, Arrange(cards, p)) == Arrange(cards, q);
  }

  /** Every combination yields a tree of the hand. */
  lemma AssembledIsHandTree(cards: seq<string>, c: (Shape, Ordering, seq<string>))
    requires |cards| == 4 && c in Combos
    ensures IsHandTree(Assemble(cards, c), cards)
  {
    var (s, p, o) := c;
    var a := Arrange(cards, p);
    assert forall i :: 0 <= i < 3 ==> o[i] in Operators;
    ShapeTreeStructure(s, a, o);
    ShapeLeaves(s, a, o);
    ShapeOperations(s, a, o);
    LeafOrderOfArrangement(s, cards, p);
    FiveShapesAreAllFourLeafTrees(ShapeSkeleton(s));
  }

  /** `create_trees(cards)`: the set of trees over all combinations. */
  function CreateTrees(cards: seq<string>): (r: set<Node>)
    requires |cards| == 4
    ensures forall t :: t in r ==> IsHandTree(t, cards)
    ensures forall c :: c in Combos ==> Assemble(cards, c) in r
  {
    AllAssembledAreHandTrees(cards);
    set c | c in Combos :: Assemble(cards, c)
  }

  lemma AllAssembledAreHandTrees(cards: seq<string>)
    requires |cards| == 4
    ensures forall c :: c in Combos ==> IsHandTree(Assemble(cards, c), cards)
  {
    forall c | c in Combos
      ensures IsHandTree(Assemble(cards, c), cards)
    {
      AssembledIsHandTree(cards, c);
    }
  }

  // ---------------------------------------------------------------------
  // find_solutions

  /** The enumerated trees whose value is the integer 24. */
  function SolvingTrees(cards: seq<string>): (r: set<Node>)
    requires |cards| == 4
    ensures r <= CreateTrees(cards)
  {
    set t | t in CreateTrees(cards) && Evaluate(t) == Returned(Int(24))
  }

  /** A complete tree with an integer value has only known cards at its leaves, so it is well-formed. */
  lemma {:induction false} FullWithValueIsWellFormed(t: Node)
    requires Full(t) && Arith(t).Some?
    ensures WellFormed(t)
    decreases t
  {
    if IsLeaf(t) {
      CardTokensAreAtoms(t.value.value);
    } else {
      FullWithValueIsWellFormed(t.left.value);
      FullWithValueIsWellFormed(t.right.value);
    }
  }

  /** Every solving tree is well-formed, so its rendering parses back to it. */
  lemma SolvingTreesParse(cards: seq<string>)
    requires |cards| == 4
    ensures forall t :: t in SolvingTrees(cards) ==> WellFormed(t) && Parse(Render(t)) == Some(t)
  {
    forall t | t in SolvingTrees(cards)
      ensures WellFormed(t) && Parse(Render(t)) == Some(t)
    {
      EvaluateAgreesWithArith(t);
      FullWithValueIsWellFormed(t);
      ParseOfRender(t);
    }
  }

  /** A string renders a solving tree exactly when it parses to one. */
  lemma SolutionStrings(cards: seq<string>)
    requires |cards| == 4
    ensures forall s :: s in Counting.Image(SolvingTrees(cards), Render)
                        <==> Parse(s).Some? && Parse(s).value in SolvingTrees(cards)
  {
    SolvingTreesParse(cards);
    forall s | Parse(s).Some? && Parse(s).value in SolvingTrees(cards)
      ensures s in Counting.Image(SolvingTrees(cards), Render)
    {
      RenderOfParse(s);
    }
  }

  /** Distinct solving trees render differently, so rendering loses no solution. */
  lemma SolutionCount(cards: seq<string>)
    requires |cards| == 4
    ensures |Counting.Image(SolvingTrees(cards), Render)| == |SolvingTrees(cards)|
  {
    SolvingTreesParse(cards);
    var d := SolvingTrees(cards);
    forall a, b | a in d && b in d && Render(a) == Render(b)
      ensures a == b
    {
      RenderInjective(a, b);
    }
    Counting.ImageOfInjective(d, Render);
  }

  /**
    `find_solutions(cards)`: a string is reported exactly when it reads back
    as an enumerated tree worth 24, and there are as many strings as such
    trees.
  */
  function FindSolutions(cards: seq<string>): (r: set<string>)
    requires |cards| == 4
    ensures forall s :: s in r <==> Parse(s).Some? && Parse(s).value in SolvingTrees(cards)
    ensures |r| == |SolvingTrees(cards)|
  {
    SolutionStrings(cards);
    SolutionCount(cards);
    Counting.Image(SolvingTrees(cards), Render)
  }
}
