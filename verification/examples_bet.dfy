/**
  The unit tests of the node class and of `find_solutions`, restated as
  facts about the model.  Each test tree is a constant, and a method builds
  it by the same sequence of `add_left` / `add_right` calls as the test,
  reaching into a child and setting it back where the test mutates a child
  in place.
*/
module Examples {
  import opened Wrappers
  import opened PyOps
  import opened BetNode
  import opened Shapes
  import opened HandOrderings
  import opened Enumeration
  import Counting

  /** How a node with both children renders, one level at a time. */
  lemma RenderOp(op: string, l: Node, r: Node)
    ensures Render(Op(op, l, r)) == "(" + Render(l) + op + Render(r) + ")"
  {
  }

  lemma RenderLeaf(x: string)
    ensures Render(Leaf(x)) == x
  {
  }

  /** A node over two cards renders as `(xopy)`. */
  lemma RenderCards(op: string, x: string, y: string)
    ensures Render(Op(op, Leaf(x), Leaf(y))) == "(" + x + op + y + ")"
  {
    RenderOp(op, Leaf(x), Leaf(y));
    RenderLeaf(x);
    RenderLeaf(y);
  }

  /** The tree of `test_repr`: A * (2 - (3 + 4)). */
  const ReprTree: Node := Op("*", Leaf("A"), Op("-", Leaf("2"), Op("+", Leaf("3"), Leaf("4"))))

  method BuildReprTree() returns (root: Node)
    ensures root == ReprTree
  {
    root := Leaf("*");
    root := AddLeft(root, Leaf("A"));
    root := AddRight(root, Leaf("-"));
    root := AddRight(root, AddLeft(root.right.value, Leaf("2")));
    root := AddRight(root, AddRight(root.right.value, Leaf("+")));
    var minus := root.right.value;
    root := AddRight(root, AddRight(minus, AddLeft(minus.right.value, Leaf("3"))));
    minus := root.right.value;
    root := AddRight(root, AddRight(minus, AddRight(minus.right.value, Leaf("4"))));
  }

  lemma ReprExample()
    ensures Render(ReprTree) == "(A*(2-(3+4)))"
  {
    RenderCards("+", "3", "4");
    RenderOp("-", Leaf("2"), Op("+", Leaf("3"), Leaf("4")));
    RenderLeaf("2");
    RenderLeaf("A");
    RenderOp("*", Leaf("A"), Op("-", Leaf("2"), Op("+", Leaf("3"), Leaf("4"))));
  }

  /** A node with only one child shows the other as `None`. */
  lemma HalfBuiltExamples()
    ensures Render(AddLeft(Leaf("-"), Leaf("Q"))) == "(Q-None)"
    ensures Render(AddRight(Leaf("*"), Leaf("5"))) == "(None*5)"
  {
  }

  /** The tree of `test_evaluate_tree1`: (Q * 7) + A. */
  const Tree1: Node := Op("+", Op("*", Leaf("Q"), Leaf("7")), Leaf("A"))

  method BuildTree1() returns (root: Node)
    ensures root == Tree1
  {
    root := Leaf("+");
    root := AddLeft(root, Leaf("*"));
    root := AddRight(root, Leaf("A"));
    root := AddLeft(root, AddLeft(root.left.value, Leaf("Q")));
    root := AddLeft(root, AddRight(root.left.value, Leaf("7")));
  }

  lemma Tree1Example()
    ensures Render(Tree1) == "((Q*7)+A)"
    ensures Evaluate(Tree1) == Returned(Int(85))
  {
    RenderCards("*", "Q", "7");
    RenderLeaf("A");
    RenderOp("+", Op("*", Leaf("Q"), Leaf("7")), Leaf("A"));
  }

  /** The tree of `test_evaluate_tree2`: ((A - Q) - (4 + 5)) * ((8 * 7) + (K / J)). */
  const Tree2Left: Node := Op("-", Op("-", Leaf("A"), Leaf("Q")), Op("+", Leaf("4"), Leaf("5")))
  const Tree2Right: Node := Op("+", Op("*", Leaf("8"), Leaf("7")), Op("/", Leaf("K"), Leaf("J")))
  const Tree2: Node := Op("*", Tree2Left, Tree2Right)

  method BuildTree2() returns (root: Node)
    ensures root == Tree2
  {
    root := Leaf("*");
    root := AddLeft(root, Leaf("-"));
    root := AddRight(root, Leaf("+"));
    root := AddLeft(root, AddLeft(root.left.value, Leaf("-")));
    var l := root.left.value;
    root := AddLeft(root, AddLeft(l, AddLeft(l.left.value, Leaf("A"))));
    l := root.left.value;
    root := AddLeft(root, AddLeft(l, AddRight(l.left.value, Leaf("Q"))));
    root := AddLeft(root, AddRight(root.left.value, Leaf("+")));
    l := root.left.value;
    root := AddLeft(root, AddRight(l, AddLeft(l.right.value, Leaf("4"))));
    l := root.left.value;
    root := AddLeft(root, AddRight(l, AddRight(l.right.value, Leaf("5"))));
    root := AddRight(root, AddRight(root.right.value, Leaf("/")));
    var r := root.right.value;
    root := AddRight(root, AddRight(r, AddRight(r.right.value, Leaf("J"))));
    r := root.right.value;
    root := AddRight(root, AddRight(r, AddLeft(r.right.value, Leaf("K"))));
    root := AddRight(root, AddLeft(root.right.value, Leaf("*")));
    r := root.right.value;
    root := AddRight(root, AddLeft(r, AddLeft(r.left.value, Leaf("8"))));
    r := root.right.value;
    root := AddRight(root, AddLeft(r, AddRight(r.left.value, Leaf("7"))));
  }

  lemma Tree2Example()
    ensures Render(Tree2) == "(((A-Q)-(4+5))*((8*7)+(K/J)))"
    ensures Evaluate(Tree2) == Returned(Int(-1140))
  {
    Tree2LeftHalf();
    Tree2RightHalf();
    RenderOp("*", Tree2Left, Tree2Right);
    Tree2Text();
  }

  lemma Tree2Text()
    ensures "(" + "((A-Q)-(4+5))" + "*" + "((8*7)+(K/J))" + ")" == "(((A-Q)-(4+5))*((8*7)+(K/J)))"
  {
  }

  /** The left half of the tree of `test_evaluate_tree2` is worth -20. */
  lemma Tree2LeftHalf()
    ensures Render(Tree2Left) == "((A-Q)-(4+5))"
    ensures Evaluate(Tree2Left) == Returned(Int(-20))
  {
    RenderCards("-", "A", "Q");
    RenderCards("+", "4", "5");
    RenderOp("-", Op("-", Leaf("A"), Leaf("Q")), Op("+", Leaf("4"), Leaf("5")));
    Tree2LeftValue();
  }

  lemma Tree2LeftValue()
    ensures Evaluate(Tree2Left) == Returned(Int(-20))
  {
    assert Evaluate(Op("-", Leaf("A"), Leaf("Q"))) == Returned(Int(-11));
    assert Evaluate(Op("+", Leaf("4"), Leaf("5"))) == Returned(Int(9));
  }

  /** The right half of the tree of `test_evaluate_tree2` is worth 57, since K // J is 1. */
  lemma Tree2RightHalf()
    ensures Render(Tree2Right) == "((8*7)+(K/J))"
    ensures Evaluate(Tree2Right) == Returned(Int(57))
  {
    RenderCards("*", "8", "7");
    RenderCards("/", "K", "J");
    RenderOp("+", Op("*", Leaf("8"), Leaf("7")), Op("/", Leaf("K"), Leaf("J")));
    assert Evaluate(Op("/", Leaf("K"), Leaf("J"))) == Returned(Int(1));
  }

  /** The tree of `test_evaluate_tree3`: (5 + 5) / (3 - 3). */
  const Tree3: Node := Op("/", Op("+", Leaf("5"), Leaf("5")), Op("-", Leaf("3"), Leaf("3")))

  method BuildTree3() returns (root: Node)
    ensures root == Tree3
  {
    root := Leaf("/");
    root := AddLeft(root, Leaf("+"));
    root := AddRight(root, Leaf("-"));
    root := AddLeft(root, AddLeft(root.left.value, Leaf("5")));
    root := AddLeft(root, AddRight(root.left.value, Leaf("5")));
    root := AddRight(root, AddLeft(root.right.value, Leaf("3")));
    root := AddRight(root, AddRight(root.right.value, Leaf("3")));
  }

  lemma Tree3Example()
    ensures Render(Tree3) == "((5+5)/(3-3))"
    ensures Evaluate(Tree3) == Returned(Str(DivZeroMarker))
  {
    RenderCards("+", "5", "5");
    RenderCards("-", "3", "3");
    RenderOp("/", Op("+", Leaf("5"), Leaf("5")), Op("-", Leaf("3"), Leaf("3")));
  }

  /**
    Division rounds toward negative infinity: 2 / (A - 4) is 2 // -3 = -1,
    where truncating division would give 0.
  */
  lemma FloorDivisionExample()
    ensures Evaluate(Op("/", Leaf("2"), Op("-", Leaf("A"), Leaf("4")))) == Returned(Int(-1))
  {
  }

  /**
    The marker string flows on like any Python string: adding a card to it
    raises `TypeError`, and multiplying it by 2 repeats it.
  */
  lemma MarkerPropagationExample()
    ensures Evaluate(Op("+", Tree3, Leaf("A"))) == Raised(TypeError)
    ensures Evaluate(Op("*", Tree3, Leaf("2"))) == Returned(Str(DivZeroMarker + DivZeroMarker))
  {
    MarkerPlusCard();
    MarkerTimesCard();
  }

  lemma MarkerPlusCard()
    ensures Evaluate(Op("+", Tree3, Leaf("A"))) == Raised(TypeError)
  {
    Tree3Example();
    assert Evaluate(Leaf("A")) == Returned(Int(1));
  }

  lemma MarkerTimesCard()
    ensures Evaluate(Op("*", Tree3, Leaf("2"))) == Returned(Str(DivZeroMarker + DivZeroMarker))
  {
    Tree3Example();
    assert Evaluate(Leaf("2")) == Returned(Int(2));
    MarkerTwice();
  }

  lemma MarkerTwice()
    ensures Repeat(DivZeroMarker, 2) == DivZeroMarker + DivZeroMarker
  {
    assert Repeat(DivZeroMarker, 1) == DivZeroMarker;
  }

  /** The hand A, 2, 3, Q of the solution tests, all as card tokens. */
  const Hand: seq<string> := ["A", "2", "3", "Q"]

  /** (Q / 2) * (3 + A). */
  const Solution: Node := Op("*", Op("/", Leaf("Q"), Leaf("2")), Op("+", Leaf("3"), Leaf("A")))

  /** The hand A, 2, 3, Q is solved by (Q / 2) * (3 + A). */
  lemma SolutionExample()
    ensures Render(Solution) == "((Q/2)*(3+A))"
    ensures Render(Solution) in FindSolutions(Hand)
  {
    SolutionTree();
    SolutionText();
    assert Render(Solution) in Counting.Image(SolvingTrees(Hand), Render);
  }

  lemma SolutionText()
    ensures Render(Solution) == "((Q/2)*(3+A))"
  {
    RenderCards("/", "Q", "2");
    RenderCards("+", "3", "A");
    RenderOp("*", Op("/", Leaf("Q"), Leaf("2")), Op("+", Leaf("3"), Leaf("A")));
  }

  /** (Q / 2) * (3 + A) is one of the enumerated trees of the hand, and is worth 24. */
  lemma SolutionTree()
    ensures Solution in SolvingTrees(Hand)
  {
    var c := SolutionCombo();
    assert Assemble(Hand, c) in CreateTrees(Hand);
    SolutionValue();
  }

  /** The combination that builds (Q / 2) * (3 + A) from the hand. */
  lemma SolutionCombo() returns (c: (Shape, Ordering, seq<string>))
    ensures c in Combos
    ensures Assemble(Hand, c) == Solution
  {
    c := (CCXCCXX, (0, 2, 1, 3), ["*", "+", "/"]);
    assert (0, 2, 1, 3) in Orderings;
    assert ["*", "+", "/"] in OperatorTriples;
  }

  lemma SolutionValue()
    ensures Evaluate(Solution) == Returned(Int(24))
  {
  }

  /**
    Q + (3 / (A / 2)), one of the enumerated trees of the same hand: A // 2
    is 0, so 3 / 0 gives the marker, and Q + marker adds an `int` to a `str`.
  */
  const HandCrash: Node := Op("+", Leaf("Q"), Op("/", Leaf("3"), Op("/", Leaf("A"), Leaf("2"))))

  /** Evaluating the tree Q + (3 / (A / 2)) of the hand A, 2, 3, Q raises `TypeError`. */
  lemma HandCrashExample()
    ensures HandCrash in CreateTrees(Hand)
    ensures Evaluate(HandCrash) == Raised(TypeError)
  {
    var c := HandCrashCombo();
    assert Assemble(Hand, c) in CreateTrees(Hand);
    HandCrashValue();
  }

  lemma HandCrashCombo() returns (c: (Shape, Ordering, seq<string>))
    ensures c in Combos
    ensures Assemble(Hand, c) == HandCrash
  {
    c := (CCCCXXX, (1, 0, 2, 3), ["+", "/", "/"]);
    assert (1, 0, 2, 3) in Orderings;
    assert ["+", "/", "/"] in OperatorTriples;
  }

  lemma HandCrashValue()
    ensures Evaluate(HandCrash) == Raised(TypeError)
  {
    assert Evaluate(Op("/", Leaf("A"), Leaf("2"))) == Returned(Int(0));
    assert Evaluate(Op("/", Leaf("3"), Op("/", Leaf("A"), Leaf("2")))) == Returned(Str(DivZeroMarker));
  }
}
