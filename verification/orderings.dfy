/**
  The orderings of a four-card hand that `permutations(cards)` produces,
  as tuples of positions.
*/
module HandOrderings {
  import Counting

  /** Positions of the hand, in the order they are read. */
  type Ordering = (int, int, int, int)

  /** All orderings of four positions. */
  const Orderings: set<Ordering> :=
    set i, j, k, l | 0 <= i < 4 && 0 <= j < 4 && 0 <= k < 4 && 0 <= l < 4
                     && i != j && i != k && i != l && j != k && j != l && k != l :: (i, j, k, l)

  /** The same orderings, listed in the order `permutations` produces them. */
  const ListedOrderings: set<Ordering> :=
    {(0, 1, 2, 3), (0, 1, 3, 2), (0, 2, 1, 3), (0, 2, 3, 1), (0, 3, 1, 2), (0, 3, 2, 1),
     (1, 0, 2, 3), (1, 0, 3, 2), (1, 2, 0, 3), (1, 2, 3, 0), (1, 3, 0, 2), (1, 3, 2, 0),
     (2, 0, 1, 3), (2, 0, 3, 1), (2, 1, 0, 3), (2, 1, 3, 0), (2, 3, 0, 1), (2, 3, 1, 0),
     (3, 0, 1, 2), (3, 0, 2, 1), (3, 1, 0, 2), (3, 1, 2, 0), (3, 2, 0, 1), (3, 2, 1, 0)}

  /** The hand read in the given ordering. */
  function Arrange(cards: seq<string>, p: Ordering): (r: seq<string>)
    requires |cards| == 4 && p in Orderings
    ensures |r| == 4
  {
    [cards[p.0], cards[p.1], cards[p.2], cards[p.3]]
  }

  /** `s` is the hand in some order. */
  predicate IsRearrangement(s: seq<string>, cards: seq<string>)
    requires |cards| == 4
  {
    exists q :: q in Orderings && s == Arrange(cards, q)
  }

  /** The ordering read as a base-4 numeral. */
  function Code(p: Ordering): (n: int)
  {
    64 * p.0 + 16 * p.1 + 4 * p.2 + p.3
  }

  /** The codes of the 24 orderings, in increasing order. */
  const OrderingCodes: seq<int> := [27, 30, 39, 45, 54, 57, 75, 78, 99, 108, 114, 120, 135, 141, 147, 156, 177, 180, 198, 201, 210, 216, 225, 228]

  /** There are exactly the 24 listed orderings of four positions. */
  lemma OrderingsCount()
    ensures Orderings == ListedOrderings
    ensures |Orderings| == 24
  {
    OrderingsListed();
    forall p, q | p in ListedOrderings && q in ListedOrderings && Code(p) == Code(q)
      ensures p == q
    {
      CodeInjective(p, q);
    }
    Counting.ImageOfInjective(ListedOrderings, Code);
    ImageOfCode();
    ListedCodes();
    CodesCount();
  }

  lemma OrderingsListed()
    ensures Orderings == ListedOrderings
  {
  }

  /** Distinct base-4 numerals have distinct values. */
  lemma CodeInjective(p: Ordering, q: Ordering)
    requires 0 <= p.0 < 4 && 0 <= p.1 < 4 && 0 <= p.2 < 4 && 0 <= p.3 < 4
    requires 0 <= q.0 < 4 && 0 <= q.1 < 4 && 0 <= q.2 < 4 && 0 <= q.3 < 4
    requires Code(p) == Code(q)
    ensures p == q
  {
  }

  lemma ImageOfCode()
    ensures Counting.Image(ListedOrderings, Code) == set p | p in ListedOrderings :: Code(p)
  {
  }

  lemma ListedCodes()
    ensures (set p | p in ListedOrderings :: Code(p)) == Counting.Elements(OrderingCodes)
  {
  }

  lemma CodesCount()
    ensures |Counting.Elements(OrderingCodes)| == 24
  {
    Counting.IncreasingCount(OrderingCodes);
  }
}
