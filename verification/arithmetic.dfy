/**
  A pure integer reading of an expression tree, used as the reference for
  `Evaluate`.  A node without a value is worth 0 whatever lies below it, as
  in `evaluate`; among the nodes that are evaluated, a division by zero, an
  unknown card or a missing child makes the whole tree have no value.  The
  lemmas here show that `Evaluate` returns
  an `int` exactly when this reading has one, and the same one, so the
  strings and exceptions Python produces on the way never turn back into a
  number.
*/
module Arithmetic {
  import opened Wrappers
  import opened PyOps
  import opened BetNode

  /** An operator applied to two integers; anything but `+`, `-`, `*` is floor division. */
  function ArithOp(op: string, a: int, b: int): (r: Option<int>)
    ensures r.None? <==> op !in {"+", "-", "*"} && b == 0
  {
    if op == "+" then Some(a + b)
    else if op == "-" then Some(a - b)
    else if op == "*" then Some(a * b)
    else if b == 0 then None
    else Some(FloorDiv(a, b))
  }

  /** The integer value of a tree, if it has one. */
  function Arith(n: Node): (r: Option<int>)
    ensures n.value.None? ==> r == Some(0)
    decreases n
  {
    if n.value.None? then Some(0)
    else if IsLeaf(n) then
      if n.value.value in CardValues then Some(CardValues[n.value.value]) else None
    else if n.left.None? || n.right.None? then None
    else
      match (Arith(n.left.value), Arith(n.right.value))
      case (Some(a), Some(b)) => ArithOp(n.value.value, a, b)
      case _ => None
  }

  /** Combining two Python values yields an `int` exactly when both are `int`s and the integer operator is defined. */
  lemma CombineAgrees(op: string, a: PyVal, b: PyVal)
    ensures AsInt(Combine(op, a, b)) == (if a.Int? && b.Int? then ArithOp(op, a.i, b.i) else None)
  {
  }

  /** `Evaluate` returns the integer `x` exactly when the integer reading of the tree is `x`. */
  lemma {:induction false} EvaluateAgreesWithArith(n: Node)
    ensures AsInt(Evaluate(n)) == Arith(n)
    decreases n
  {
    if n.value.Some? && !IsLeaf(n) && n.left.Some? {
      EvaluateAgreesWithArith(n.left.value);
      var l := Evaluate(n.left.value);
      if l.Returned? && n.right.Some? {
        EvaluateAgreesWithArith(n.right.value);
        var r := Evaluate(n.right.value);
        if r.Returned? {
          CombineAgrees(n.value.value, l.v, r.v);
        }
      }
    }
  }

  /**
    A childless node is worth its card's table value and raises `KeyError`
    for any other token; a node without a value is worth 0.
  */
  lemma LeafValue(n: Node)
    requires IsLeaf(n) || n.value.None?
    ensures n.value.None? ==> Evaluate(n) == Returned(Int(0))
    ensures n.value.Some? && n.value.value in CardValues ==> Evaluate(n) == Returned(Int(CardValues[n.value.value]))
    ensures n.value.Some? && n.value.value !in CardValues ==> Evaluate(n) == Raised(KeyError)
  {
  }

  /**
    At a node whose operator is not `+`, `-` or `*`, once the left subtree
    has returned, the result is the divide-by-zero marker exactly when the
    right subtree evaluates to 0, and floor division when both sides are
    integers and the divisor is not 0.
  */
  lemma DivisionNode(n: Node)
    requires n.value.Some? && n.value.value !in {"+", "-", "*"}
    requires n.left.Some? && n.right.Some?
    requires Evaluate(n.left.value).Returned?
    ensures Evaluate(n) == Returned(Str(DivZeroMarker)) <==> Evaluate(n.right.value) == Returned(Int(0))
    ensures var a := AsInt(Evaluate(n.left.value)); var b := AsInt(Evaluate(n.right.value));
            a.Some? && b.Some? && b.value != 0 ==> AsInt(Evaluate(n)) == Some(FloorDiv(a.value, b.value))
  {
  }

  /** At a `+`, `-` or `*` node the integer value is the sum, difference or product of the children's. */
  lemma ArithmeticNode(n: Node)
    requires n.value.Some? && n.value.value in {"+", "-", "*"}
    requires n.left.Some? && n.right.Some?
    requires AsInt(Evaluate(n.left.value)).Some? && AsInt(Evaluate(n.right.value)).Some?
    ensures var a := AsInt(Evaluate(n.left.value)).value; var b := AsInt(Evaluate(n.right.value)).value;
            AsInt(Evaluate(n)) == Some(if n.value.value == "+" then a + b else if n.value.value == "-" then a - b else a * b)
  {
    var a := AsInt(Evaluate(n.left.value)).value;
    var b := AsInt(Evaluate(n.right.value)).value;
    assert Evaluate(n.left.value) == Returned(Int(a));
    assert Evaluate(n.right.value) == Returned(Int(b));
    assert !IsLeaf(n);
    assert Evaluate(n) == Combine(n.value.value, Int(a), Int(b));
    if n.value.value == "+" {
      assert Combine("+", Int(a), Int(b)) == Returned(Int(a + b));
    } else if n.value.value == "-" {
      assert Combine("-", Int(a), Int(b)) == Returned(Int(a - b));
    } else {
      assert Combine("*", Int(a), Int(b)) == Returned(Int(a * b));
    }
  }
}
