/**
  The expression-tree node `BETNode` of the 24 game: a value (an operator
  symbol, a card token, or `None`) and two optional children.  The in-place
  setters become functional updates, `evaluate` returns an `Outcome`, and
  `__repr__` becomes `Render`.
*/
module BetNode {
  import opened Wrappers
  import opened PyOps

  datatype Node = Node(value: Option<string>, left: Option<Node>, right: Option<Node>)

  /** `BETNode(token)`: a node with no children. */
  function Leaf(token: string): (n: Node)
  {
    Node(Some(token), None, None)
  }

  /** A node with an operator and both children attached. */
  function Op(op: string, l: Node, r: Node): (n: Node)
  {
    Node(Some(op), Some(l), Some(r))
  }

  predicate IsLeaf(n: Node)
  {
    n.left.None? && n.right.None?
  }

  /** The class-wide operator set `BETNode.OPERATORS`. */
  const Operators: set<string> := {"+", "-", "*", "/"}

  /** The class-wide card table `BETNode.CARD_VAL_DICT`. */
  const CardValues: map<string, int> :=
    map["A" := 1, "1" := 1, "2" := 2, "3" := 3, "4" := 4,
        "5" := 5, "6" := 6, "7" := 7, "8" := 8, "9" := 9,
        "10" := 10, "J" := 11, "Q" := 12, "K" := 13]

  /** Every card token is worth between 1 and 13, and the face cards are 11, 12, 13. */
  lemma CardValuesRange()
    ensures forall k :: k in CardValues ==> 1 <= CardValues[k] <= 13
    ensures CardValues["A"] == CardValues["1"] == 1
    ensures CardValues["J"] == 11 && CardValues["Q"] == 12 && CardValues["K"] == 13
  {
  }

  /** The table's tokens: A and 1 through 10, and the three face cards. */
  lemma CardTokens()
    ensures CardValues.Keys == {"A", "1", "2", "3", "4", "5", "6", "7", "8", "9", "10", "J", "Q", "K"}
  {
  }

  // ---------------------------------------------------------------------
  // add_left / add_right

  /** `n.add_left(child)`: replaces the left child only. */
  function AddLeft(n: Node, child: Node): (r: Node)
    ensures r.value == n.value && r.right == n.right
    ensures r.left == Some(child)
  {
    n.(left := Some(child))
  }

  /** `n.add_right(child)`: replaces the right child only. */
  function AddRight(n: Node, child: Node): (r: Node)
    ensures r.value == n.value && r.left == n.left
    ensures r.right == Some(child)
  {
    n.(right := Some(child))
  }

  /** A second `add_left` overwrites the first, and the two setters commute. */
  lemma SettersOverwriteAndCommute(n: Node, a: Node, b: Node)
    ensures AddLeft(AddLeft(n, a), b) == AddLeft(n, b)
    ensures AddRight(AddRight(n, a), b) == AddRight(n, b)
    ensures AddLeft(AddRight(n, a), b) == AddRight(AddLeft(n, b), a)
  {
  }

  // ---------------------------------------------------------------------
  // __eq__ and __hash__

  /** Equality of two optional subtrees, where `None` equals only `None`. */
  predicate EqualChild(a: Option<Node>, b: Option<Node>)
    ensures EqualChild(a, b) <==> a == b
    decreases a, 1
  {
    match a
    case None => b.None?
    case Some(x) => b.Some? && Equal(x, b.value)
  }

  /**
    `a.__eq__(b)`: equal values and recursively equal subtrees.  The
    recursion compares exactly the structure, so it is datatype equality.
  */
  predicate Equal(a: Node, b: Node)
    ensures Equal(a, b) <==> a == b
    decreases a, 0
  {
    && a.value == b.value
    && EqualChild(a.left, b.left)
    && EqualChild(a.right, b.right)
  }

  /** `other is None` makes `__eq__` false. */
  predicate EqualOrNone(a: Node, other: Option<Node>)
    ensures EqualOrNone(a, other) <==> other == Some(a)
  {
    other.Some? && Equal(a, other.value)
  }

  /** Python hashes are reduced to 64 bits here. */
  const HashModulus: int := 0x1_0000_0000_0000_0000

  /** A fixed stand-in for `hash(None)`. */
  const NoneHash: int := 0x5f37_59df

  function HashValue(v: Option<string>, strHash: string -> int): (h: int)
    ensures 0 <= h < HashModulus
  {
    match v
    case None => NoneHash
    case Some(s) => strHash(s) % HashModulus
  }

  /** A stand-in for `hash` of a 3-tuple: a mix of the three element hashes. */
  function TupleHash(a: int, b: int, c: int): (h: int)
    ensures 0 <= h < HashModulus
  {
    ((a * 1_000_003 + b) * 1_000_003 + c) % HashModulus
  }

  /**
    `__hash__`: `hash((value, left, right))`.  Python salts string hashes per
    process, so the string hash is a parameter.
  */
  function Hash(n: Node, strHash: string -> int): (h: int)
    ensures 0 <= h < HashModulus
    decreases n
  {
    var l := if n.left.Some? then Hash(n.left.value, strHash) else NoneHash;
    var r := if n.right.Some? then Hash(n.right.value, strHash) else NoneHash;
    TupleHash(HashValue(n.value, strHash), l, r)
  }

  /** Equal trees hash equally, which is what lets the enumerator use a set. */
  lemma HashConsistent(a: Node, b: Node, strHash: string -> int)
    requires Equal(a, b)
    ensures Hash(a, strHash) == Hash(b, strHash)
  {
  }

  // ---------------------------------------------------------------------
  // evaluate

  /** The operator dispatch of `evaluate`: anything but `+`, `-`, `*` divides. */
  function Combine(op: string, a: PyVal, b: PyVal): (r: Outcome)
    ensures AsInt(r).Some? ==> a.Int? && b.Int?
  {
    if op == "+" then Plus(a, b)
    else if op == "-" then Minus(a, b)
    else if op == "*" then Times(a, b)
    else Divide(a, b)
  }

  /**
    `evaluate`: a node without a value is 0; a childless node looks its token
    up in the card table (`KeyError` when absent); otherwise the left subtree
    is evaluated, then the right one (a missing child raises
    `AttributeError`), and the two results are combined.
  */
  function Evaluate(n: Node): (r: Outcome)
    ensures r.Returned? && r.v.Str? ==> n.value.Some? && n.left.Some? && n.right.Some?
    decreases n
  {
    if n.value.None? then Returned(Int(0))
    else if IsLeaf(n) then
      if n.value.value in CardValues then Returned(Int(CardValues[n.value.value]))
      else Raised(KeyError)
    else if n.left.None? then Raised(AttributeError)
    else
      var l := Evaluate(n.left.value);
      if l.Raised? then l
      else if n.right.None? then Raised(AttributeError)
      else
        var r := Evaluate(n.right.value);
        if r.Raised? then r
        else Combine(n.value.value, l.v, r.v)
  }

  // ---------------------------------------------------------------------
  // __repr__

  /** `str(value)`, where the value is a string or `None`. */
  function Show(v: Option<string>): (s: string)
  {
    match v
    case None => "None"
    case Some(s) => s
  }

  /**
    `__repr__`: a childless node shows its bare value; any other node is
    `(left value right)` with an absent child shown as `None`.
  */
  function Render(n: Node): (r: string)
    ensures !IsLeaf(n) ==> |r| >= 2 && r[0] == '(' && r[|r| - 1] == ')'
    decreases n
  {
    if IsLeaf(n) then Show(n.value)
    else
      var l := if n.left.Some? then Render(n.left.value) else "None";
      var r := if n.right.Some? then Render(n.right.value) else "None";
      "(" + l + Show(n.value) + r + ")"
  }
}
