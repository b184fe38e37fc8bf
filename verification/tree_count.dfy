/**
  How many trees `create_trees` returns: never more than one per
  combination (5 shapes x 24 orderings x 64 operator triples = 7680),
  exactly that many for a hand of four different cards, and 320 for a hand
  of four equal cards, where every ordering reads the same.
*/
module TreeCount {
  import opened Wrappers
  import opened BetNode
  import opened Shapes
  import opened HandOrderings
  import opened Enumeration
  import Counting

  lemma OperatorsCount()
    ensures |Operators| == 4
  {
  }

  lemma ShapesCount()
    ensures |AllShapes| == 5
  {
  }

  /** Reads an operator triple as the sequence the builder indexes. */
  function TripleSeq(t: (string, string, string)): (r: seq<string>)
    ensures |r| == 3 && r[0] == t.0 && r[1] == t.1 && r[2] == t.2
  {
    [t.0, t.1, t.2]
  }

  /** `product(operators, repeat=3)` has 4^3 = 64 members. */
  lemma OperatorTriplesCount()
    ensures |OperatorTriples| == 64
  {
    var d := Counting.Triples(Operators, Operators, Operators);
    TripleSeqInjective();
    Counting.ImageOfInjective(d, TripleSeq);
    Counting.TriplesCount(Operators, Operators, Operators);
    OperatorsCount();
    OperatorTriplesIsImage();
  }

  lemma TripleSeqInjective()
    ensures forall t, u ::
              && t in Counting.Triples(Operators, Operators, Operators)
              && u in Counting.Triples(Operators, Operators, Operators)
              && TripleSeq(t) == TripleSeq(u)
              ==> t == u
  {
  }

  lemma OperatorTriplesIsImage()
    ensures OperatorTriples == Counting.Image(Counting.Triples(Operators, Operators, Operators), TripleSeq)
  {
    var d := Counting.Triples(Operators, Operators, Operators);
    forall s | s in OperatorTriples
      ensures s in Counting.Image(d, TripleSeq)
    {
      var t := (s[0], s[1], s[2]);
      assert t in d;
      assert TripleSeq(t) == s;
    }
  }

  /** The three nested loops visit 5 * 24 * 64 = 7680 combinations. */
  lemma CombosCount()
    ensures |Combos| == 7680
  {
    assert Combos == Counting.Triples(AllShapes, Orderings, OperatorTriples);
    Counting.TriplesCount(AllShapes, Orderings, OperatorTriples);
    ShapesCount();
    OrderingsCount();
    OperatorTriplesCount();
  }

  /** The loop body for one hand, as a total function on combinations. */
  function Builder(cards: seq<string>): (f: ((Shape, Ordering, seq<string>)) -> Node)
    ensures |cards| == 4 ==> forall c :: c in Combos ==> f(c) == Assemble(cards, c)
  {
    (c: (Shape, Ordering, seq<string>)) => if |cards| == 4 && c in Combos then Assemble(cards, c) else Node(None, None, None)
  }

  /** `create_trees` collects exactly the trees of all combinations. */
  lemma CreateTreesIsImage(cards: seq<string>)
    requires |cards| == 4
    ensures CreateTrees(cards) == Counting.Image(Combos, Builder(cards))
  {
  }

  /** At most one tree per combination: 7680 trees at most. */
  lemma TreeCountBound(cards: seq<string>)
    requires |cards| == 4
    ensures |CreateTrees(cards)| <= 7680
  {
    CreateTreesIsImage(cards);
    Counting.ImageBound(Combos, Builder(cards));
    CombosCount();
  }

  /** Positions of a hand of different cards are told apart by the cards they hold. */
  lemma ArrangeInjective(cards: seq<string>, p: Ordering, q: Ordering)
    requires |cards| == 4 && p in Orderings && q in Orderings
    requires forall i, j :: 0 <= i < j < 4 ==> cards[i] != cards[j]
    requires Arrange(cards, p) == Arrange(cards, q)
    ensures p == q
  {
    assert cards[p.0] == cards[q.0] && cards[p.1] == cards[q.1];
    assert cards[p.2] == cards[q.2] && cards[p.3] == cards[q.3];
  }

  /** Four different cards give 7680 different trees: no two combinations collide. */
  lemma DistinctHandCount(cards: seq<string>)
    requires |cards| == 4
    requires forall i, j :: 0 <= i < j < 4 ==> cards[i] != cards[j]
    ensures |CreateTrees(cards)| == 7680
  {
    BuilderInjective(cards);
    Counting.ImageOfInjective(Combos, Builder(cards));
    CreateTreesIsImage(cards);
    CombosCount();
  }

  lemma BuilderInjective(cards: seq<string>)
    requires |cards| == 4
    requires forall i, j :: 0 <= i < j < 4 ==> cards[i] != cards[j]
    ensures forall c, c' :: c in Combos && c' in Combos && Builder(cards)(c) == Builder(cards)(c') ==> c == c'
  {
    forall c, c' | c in Combos && c' in Combos && Builder(cards)(c) == Builder(cards)(c')
      ensures c == c'
    {
      AssembleInjective(cards, c, c');
    }
  }

  /** Different combinations over a hand of different cards build different trees. */
  lemma AssembleInjective(cards: seq<string>, c: (Shape, Ordering, seq<string>), c': (Shape, Ordering, seq<string>))
    requires |cards| == 4 && c in Combos && c' in Combos
    requires forall i, j :: 0 <= i < j < 4 ==> cards[i] != cards[j]
    requires Assemble(cards, c) == Assemble(cards, c')
    ensures c == c'
  {
    assert |c.2| == 3 && |c'.2| == 3;
    ShapeTreeInjective(c.0, Arrange(cards, c.1), c.2, c'.0, Arrange(cards, c'.1), c'.2);
    ArrangeInjective(cards, c.1, c'.1);
  }

  /** The tree of a shape and an operator triple over a hand of four equal cards. */
  function SameCardBuilder(x: string): (f: ((Shape, seq<string>)) -> Node)
  {
    (p: (Shape, seq<string>)) => if |p.1| == 3 then ShapeTree(p.0, [x, x, x, x], p.1) else Node(None, None, None)
  }

  /**
    Four equal cards give 320 different trees: the ordering no longer
    matters, but shape and operators still do.
  */
  lemma IdenticalHandCount(x: string)
    ensures |CreateTrees([x, x, x, x])| == 320
  {
    var d := Counting.Pairs(AllShapes, OperatorTriples);
    SameCardBuilderInjective(x);
    Counting.ImageOfInjective(d, SameCardBuilder(x));
    Counting.PairsCount(AllShapes, OperatorTriples);
    ShapesCount();
    OperatorTriplesCount();
    SameCardTrees(x);
  }

  lemma SameCardBuilderInjective(x: string)
    ensures forall p, p' ::
              && p in Counting.Pairs(AllShapes, OperatorTriples)
              && p' in Counting.Pairs(AllShapes, OperatorTriples)
              && SameCardBuilder(x)(p) == SameCardBuilder(x)(p')
              ==> p == p'
  {
    forall p, p' | p in Counting.Pairs(AllShapes, OperatorTriples)
                   && p' in Counting.Pairs(AllShapes, OperatorTriples)
                   && SameCardBuilder(x)(p) == SameCardBuilder(x)(p')
      ensures p == p'
    {
      ShapeTreeInjective(p.0, [x, x, x, x], p.1, p'.0, [x, x, x, x], p'.1);
    }
  }

  /** Over four equal cards the trees are those of the shapes and operator triples alone. */
  lemma SameCardTrees(x: string)
    ensures CreateTrees([x, x, x, x]) == Counting.Image(Counting.Pairs(AllShapes, OperatorTriples), SameCardBuilder(x))
  {
    SameCardTreesCovered(x);
    SameCardTreesBuilt(x);
  }

  lemma SameCardTreesCovered(x: string)
    ensures CreateTrees([x, x, x, x]) <= Counting.Image(Counting.Pairs(AllShapes, OperatorTriples), SameCardBuilder(x))
  {
    forall t | t in CreateTrees([x, x, x, x])
      ensures t in Counting.Image(Counting.Pairs(AllShapes, OperatorTriples), SameCardBuilder(x))
    {
      var c :| c in Combos && t == Assemble([x, x, x, x], c);
      SameCardArrangement(x, c);
      assert (c.0, c.2) in Counting.Pairs(AllShapes, OperatorTriples);
    }
  }

  lemma SameCardTreesBuilt(x: string)
    ensures Counting.Image(Counting.Pairs(AllShapes, OperatorTriples), SameCardBuilder(x)) <= CreateTrees([x, x, x, x])
  {
    forall t | t in Counting.Image(Counting.Pairs(AllShapes, OperatorTriples), SameCardBuilder(x))
      ensures t in CreateTrees([x, x, x, x])
    {
      var p :| p in Counting.Pairs(AllShapes, OperatorTriples) && t == SameCardBuilder(x)(p);
      SameCardTreeBuilt(x, p);
    }
  }

  lemma SameCardTreeBuilt(x: string, p: (Shape, seq<string>))
    requires p in Counting.Pairs(AllShapes, OperatorTriples)
    ensures SameCardBuilder(x)(p) in CreateTrees([x, x, x, x])
  {
    var c := (p.0, (0, 1, 2, 3), p.1);
    assert (0, 1, 2, 3) in Orderings;
    assert c in Combos;
    SameCardArrangement(x, c);
  }

  /** Over four equal cards a combination's tree ignores its ordering. */
  lemma SameCardArrangement(x: string, c: (Shape, Ordering, seq<string>))
    requires c in Combos
    ensures Assemble([x, x, x, x], c) == SameCardBuilder(x)((c.0, c.2))
  {
    assert Arrange([x, x, x, x], c.1) == [x, x, x, x];
  }
}
