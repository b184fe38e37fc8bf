/**
  The loop of `find_solutions` as written.  It visits the trees of
  `create_trees` in the set's iteration order, evaluates each one, and lets
  any exception escape.  Because a division by zero below the root hands the
  marker string to an ancestor, some tree of every hand of card tokens raises
  `TypeError`, so the call never returns normally.  `Enumeration.FindSolutions` is
  the intended search, which skips the trees that do not evaluate to an
  integer.
*/
module Search {
  import opened Wrappers
  import opened PyOps
  import opened BetNode
  import opened Shapes
  import opened HandOrderings
  import opened Arithmetic
  import opened Enumeration
  import Counting

  /** The end of the search: the renderings found, or the exception that escaped. */
  datatype SearchOutcome = Solutions(found: set<string>) | Aborted(e: Exception)

  /**
    `find_solutions` as written: search the trees of `create_trees(cards)`.
    Python iterates the set in an order fixed by the hashes; the search takes
    the trees in any order, so its contract holds for every order.
  */
  method FindSolutionsAsWritten(cards: seq<string>) returns (r: SearchOutcome)
    requires |cards| == 4
    ensures r.Aborted? <==> exists t :: t in CreateTrees(cards) && Evaluate(t).Raised?
    ensures r.Aborted? ==> exists t :: t in CreateTrees(cards) && Evaluate(t) == Raised(r.e)
    ensures r.Solutions? ==> r.found == FindSolutions(cards)
  {
    var trees := CreateTrees(cards);
    r := SearchTrees(trees);
    if r.Solutions? {
      SolvingTreesMembers(cards);
      RenderingsOfSolving(trees, SolvingTrees(cards), r.found);
    }
  }

  /**
    The loop of `find_solutions` over a set of trees: it evaluates each tree,
    keeps the rendering of those worth the integer 24, and stops at the
    first exception.
  */
  method SearchTrees(trees: set<Node>) returns (r: SearchOutcome)
    ensures r.Aborted? <==> exists t :: t in trees && Evaluate(t).Raised?
    ensures r.Aborted? ==> exists t :: t in trees && Evaluate(t) == Raised(r.e)
    ensures r.Solutions? ==> forall s :: s in r.found <==> exists t :: t in trees && Evaluate(t) == Returned(Int(24)) && Render(t) == s
  {
    var remaining := trees;
    var seen: set<Node> := {};
    var found: set<string> := {};
    while remaining != {}
      invariant remaining + seen == trees && remaining !! seen
      invariant forall t :: t in seen ==> !Evaluate(t).Raised?
      invariant forall s :: s in found <==> exists t :: t in seen && Evaluate(t) == Returned(Int(24)) && Render(t) == s
      decreases |remaining|
    {
      var t :| t in remaining;
      var v := Evaluate(t);
      if v.Raised? {
        return Aborted(v.e);
      }
      if v == Returned(Int(24)) {
        found := found + {Render(t)};
      }
      remaining := remaining - {t};
      seen := seen + {t};
    }
    r := Solutions(found);
  }

  /** The solving trees are the enumerated trees that evaluate to the integer 24. */
  lemma SolvingTreesMembers(cards: seq<string>)
    requires |cards| == 4
    ensures forall t :: t in SolvingTrees(cards) <==> t in CreateTrees(cards) && Evaluate(t) == Returned(Int(24))
    ensures FindSolutions(cards) == Counting.Image(SolvingTrees(cards), Render)
  {
  }

  /** A set holding the renderings of exactly the trees worth 24 is the image of those trees. */
  lemma RenderingsOfSolving(trees: set<Node>, solving: set<Node>, found: set<string>)
    requires forall t :: t in solving <==> t in trees && Evaluate(t) == Returned(Int(24))
    requires forall s :: s in found <==> exists t :: t in trees && Evaluate(t) == Returned(Int(24)) && Render(t) == s
    ensures found == Counting.Image(solving, Render)
  {
    forall s | s in Counting.Image(solving, Render)
      ensures s in found
    {
      var t :| t in solving && Render(t) == s;
    }
  }

  // ---------------------------------------------------------------------
  // Every hand raises

  /** The tree c3 + (c2 / (c1 op c0)) of the first shape, such as Q + (3 / (A / 2)). */
  function CrashTree(c: seq<string>, op: string): (t: Node)
    requires |c| == 4
    ensures t == ShapeTree(CCCCXXX, c, ["+", "/", op])
  {
    Op("+", Leaf(c[3]), Op("/", Leaf(c[2]), Op(op, Leaf(c[1]), Leaf(c[0]))))
  }

  /**
    When `c1 op c0` evaluates to 0, the division above it returns the marker
    and the `+` at the root adds a card's integer to that string.
  */
  lemma CrashTreeRaises(c: seq<string>, op: string)
    requires |c| == 4
    requires forall i :: 0 <= i < 4 ==> c[i] in CardValues
    requires op in Operators
    requires Evaluate(Op(op, Leaf(c[1]), Leaf(c[0]))) == Returned(Int(0))
    ensures Evaluate(CrashTree(c, op)) == Raised(TypeError)
  {
    var zero := Op(op, Leaf(c[1]), Leaf(c[0]));
    var div := Op("/", Leaf(c[2]), zero);
    assert Evaluate(Leaf(c[2])) == Returned(Int(CardValues[c[2]]));
    assert Evaluate(div) == Returned(Str(DivZeroMarker));
    assert Evaluate(Leaf(c[3])) == Returned(Int(CardValues[c[3]]));
  }

  /**
    Two of the hand's first cards combine to 0: when they are worth the same,
    their difference; otherwise the smaller floor-divided by the larger.
  */
  lemma ZeroPair(cards: seq<string>) returns (p: Ordering, op: string)
    requires |cards| == 4
    requires forall i :: 0 <= i < 4 ==> cards[i] in CardValues
    ensures p in Orderings && op in Operators
    ensures forall i :: 0 <= i < 4 ==> Arrange(cards, p)[i] in CardValues
    ensures Evaluate(Op(op, Leaf(Arrange(cards, p)[1]), Leaf(Arrange(cards, p)[0]))) == Returned(Int(0))
  {
    var x, y := cards[0], cards[1];
    FirstTwoOrderings();
    if CardValues[x] == CardValues[y] {
      p, op := (0, 1, 2, 3), "-";
      SameValueDifference(y, x);
    } else if CardValues[x] < CardValues[y] {
      p, op := (1, 0, 2, 3), "/";
      SmallerQuotient(x, y);
    } else {
      p, op := (0, 1, 2, 3), "/";
      SmallerQuotient(y, x);
    }
  }

  /** The identity and the swap of the first two positions are orderings. */
  lemma FirstTwoOrderings()
    ensures (0, 1, 2, 3) in Orderings && (1, 0, 2, 3) in Orderings
  {
  }

  /** Two cards worth the same differ by 0. */
  lemma SameValueDifference(x: string, y: string)
    requires x in CardValues && y in CardValues && CardValues[x] == CardValues[y]
    ensures Evaluate(Op("-", Leaf(x), Leaf(y))) == Returned(Int(0))
  {
    assert Evaluate(Leaf(x)) == Returned(Int(CardValues[x]));
    assert Evaluate(Leaf(y)) == Returned(Int(CardValues[y]));
  }

  /** A card floor-divided by a card worth more is 0, since every card is worth at least 1. */
  lemma SmallerQuotient(x: string, y: string)
    requires x in CardValues && y in CardValues && CardValues[x] < CardValues[y]
    ensures Evaluate(Op("/", Leaf(x), Leaf(y))) == Returned(Int(0))
  {
    CardValuesRange();
    assert Evaluate(Leaf(x)) == Returned(Int(CardValues[x]));
    assert Evaluate(Leaf(y)) == Returned(Int(CardValues[y]));
    assert FloorDiv(CardValues[x], CardValues[y]) == 0;
  }

  /** The combination that builds the crashing tree is one the loops visit. */
  lemma CrashCombo(p: Ordering, op: string)
    requires p in Orderings && op in Operators
    ensures (CCCCXXX, p, ["+", "/", op]) in Combos
  {
    assert ["+", "/", op] in OperatorTriples;
  }

  /**
    Every hand of four card tokens has an enumerated tree whose evaluation
    raises `TypeError`, so `find_solutions` as written raises on every such
    hand.
  */
  lemma EveryHandRaises(cards: seq<string>)
    requires |cards| == 4
    requires forall i :: 0 <= i < 4 ==> cards[i] in CardValues
    ensures exists t :: t in CreateTrees(cards) && Evaluate(t) == Raised(TypeError)
  {
    var p, op := ZeroPair(cards);
    var c := Arrange(cards, p);
    CrashTreeRaises(c, op);
    CrashCombo(p, op);
    var t := Assemble(cards, (CCCCXXX, p, ["+", "/", op]));
    assert t == CrashTree(c, op);
    assert t in CreateTrees(cards);
  }

  // ---------------------------------------------------------------------
  // The intended search

  /** A tree evaluates to the integer 24 exactly when its integer reading is 24. */
  lemma WorthTwentyFour(t: Node)
    ensures Evaluate(t) == Returned(Int(24)) <==> Arith(t) == Some(24)
  {
    EvaluateAgreesWithArith(t);
  }

  /**
    The intended search reports a string exactly when it renders an
    enumerated tree whose integer value is 24; trees that divide by zero or
    mix the marker into arithmetic are skipped.
  */
  lemma FindSolutionsByIntegerValue(cards: seq<string>)
    requires |cards| == 4
    ensures forall s :: s in FindSolutions(cards)
                        <==> exists t :: t in CreateTrees(cards) && Arith(t) == Some(24) && Render(t) == s
  {
    SolvingTreesMembers(cards);
    ImageByIntegerValue(CreateTrees(cards), SolvingTrees(cards));
  }

  /** The renderings of the trees worth 24, read through the integer semantics. */
  lemma ImageByIntegerValue(trees: set<Node>, solving: set<Node>)
    requires forall t :: t in solving <==> t in trees && Evaluate(t) == Returned(Int(24))
    ensures forall s :: s in Counting.Image(solving, Render)
                        <==> exists t :: t in trees && Arith(t) == Some(24) && Render(t) == s
  {
    forall s
      ensures s in Counting.Image(solving, Render) <==> exists t :: t in trees && Arith(t) == Some(24) && Render(t) == s
    {
      if s in Counting.Image(solving, Render) {
        var t :| t in solving && Render(t) == s;
        WorthTwentyFour(t);
      }
      if exists t :: t in trees && Arith(t) == Some(24) && Render(t) == s {
        var t :| t in trees && Arith(t) == Some(24) && Render(t) == s;
        WorthTwentyFour(t);
        assert t in solving;
      }
    }
  }
}
