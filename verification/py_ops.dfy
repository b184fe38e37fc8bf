/**
  The part of Python's run-time semantics that `BETNode.evaluate` relies on:
  the values an evaluation can return (an `int` or a `str`), the exceptions it
  can raise, and the operators `+`, `-`, `*` and `//` on those values.
*/
module PyOps {
  import opened Wrappers

  /** A Python value produced by `evaluate`: an unbounded `int` or a `str`. */
  datatype PyVal = Int(i: int) | Str(s: string)

  /** The exceptions `evaluate` can raise. */
  datatype Exception = KeyError | AttributeError | TypeError

  /** The end of a call: a returned value or a raised exception. */
  datatype Outcome = Returned(v: PyVal) | Raised(e: Exception)

  /** The string `evaluate` returns instead of dividing by zero. */
  const DivZeroMarker: string := "error, can not divide by zero"

  /** The integer an outcome denotes, if it is a returned `int`. */
  function AsInt(o: Outcome): (r: Option<int>)
    ensures r.Some? <==> o.Returned? && o.v.Int?
    ensures r.Some? ==> o == Returned(Int(r.value))
  {
    if o.Returned? && o.v.Int? then Some(o.v.i) else None
  }

  /** Python's `a // b` on integers: the quotient rounded toward negative infinity. */
  function FloorDiv(a: int, b: int): (q: int)
    requires b != 0
    ensures b > 0 ==> b * q <= a < b * q + b
    ensures b < 0 ==> b * q + b < a <= b * q
  {
    if b > 0 then a / b
    else
      var q := (-a) / (-b);
      assert -a == (-b) * q + (-a) % (-b);
      q
  }

  /** Python's `s * n` (and `n * s`): `n` copies of `s`, none when `n <= 0`. */
  function Repeat(s: string, n: int): (r: string)
    ensures n <= 0 ==> r == []
    ensures n > 0 ==> |r| == |s| * n
    decreases if n <= 0 then 0 else n
  {
    if n <= 0 then [] else s + Repeat(s, n - 1)
  }

  /** One copy of `s` is `s` itself. */
  lemma RepeatOne(s: string)
    ensures Repeat(s, 1) == s
  {
    assert Repeat(s, 0) == [];
    assert s + [] == s;
  }

  /** `s * (a + b)` is `s * a` followed by `s * b`. */
  lemma {:induction false} RepeatAdd(s: string, a: nat, b: nat)
    ensures Repeat(s, a + b) == Repeat(s, a) + Repeat(s, b)
    decreases a
  {
    if a == 0 {
      assert Repeat(s, 0) == [];
      assert [] + Repeat(s, b) == Repeat(s, b);
    } else {
      RepeatAdd(s, a - 1, b);
      assert Repeat(s, a + b) == s + Repeat(s, a - 1 + b);
      assert Repeat(s, a) == s + Repeat(s, a - 1);
    }
  }

  /** Python's `a + b`: integer addition or string concatenation. */
  function Plus(a: PyVal, b: PyVal): (r: Outcome)
    ensures AsInt(r).Some? <==> a.Int? && b.Int?
    ensures a.Int? && b.Int? ==> AsInt(r) == Some(a.i + b.i)
    ensures a.Str? && b.Str? ==> r == Returned(Str(a.s + b.s))
    ensures a.Int? != b.Int? ==> r == Raised(TypeError)
  {
    match (a, b)
    case (Int(x), Int(y)) => Returned(Int(x + y))
    case (Str(x), Str(y)) => Returned(Str(x + y))
    case _ => Raised(TypeError)
  }

  /** Python's `a - b`: defined on integers only. */
  function Minus(a: PyVal, b: PyVal): (r: Outcome)
    ensures r.Returned? <==> a.Int? && b.Int?
    ensures r.Returned? ==> AsInt(r) == Some(a.i - b.i)
    ensures !r.Returned? ==> r == Raised(TypeError)
  {
    match (a, b)
    case (Int(x), Int(y)) => Returned(Int(x - y))
    case _ => Raised(TypeError)
  }

  /** Python's `a * b`: integer product, or string repetition when exactly one side is a string. */
  function Times(a: PyVal, b: PyVal): (r: Outcome)
    ensures AsInt(r).Some? <==> a.Int? && b.Int?
    ensures a.Int? && b.Int? ==> AsInt(r) == Some(a.i * b.i)
    ensures a.Str? && b.Str? ==> r == Raised(TypeError)
    ensures a.Int? && b.Str? ==> r == Returned(Str(Repeat(b.s, a.i)))
    ensures a.Str? && b.Int? ==> r == Returned(Str(Repeat(a.s, b.i)))
  {
    match (a, b)
    case (Int(x), Int(y)) => Returned(Int(x * y))
    case (Int(n), Str(s)) => Returned(Str(Repeat(s, n)))
    case (Str(s), Int(n)) => Returned(Str(Repeat(s, n)))
    case _ => Raised(TypeError)
  }

  /**
    The division branch of `evaluate`: first `right == 0` is compared (a `str`
    never equals `0`), giving the marker; otherwise Python's `left // right`,
    which only integers support.
  */
  function Divide(a: PyVal, b: PyVal): (r: Outcome)
    ensures r == Returned(Str(DivZeroMarker)) <==> b == Int(0)
    ensures AsInt(r).Some? <==> a.Int? && b.Int? && b.i != 0
    ensures a.Int? && b.Int? && b.i != 0 ==> AsInt(r) == Some(FloorDiv(a.i, b.i))
    ensures b != Int(0) && !(a.Int? && b.Int?) ==> r == Raised(TypeError)
  {
    if b == Int(0) then Returned(Str(DivZeroMarker))
    else match (a, b)
      case (Int(x), Int(y)) => Returned(Int(FloorDiv(x, y)))
      case _ => Raised(TypeError)
  }

  /** `FloorDiv` is the only integer meeting the floor bounds, so it is Python's `//`. */
  lemma FloorDivUnique(a: int, b: int, q: int)
    requires b != 0
    requires b > 0 ==> b * q <= a < b * q + b
    requires b < 0 ==> b * q + b < a <= b * q
    ensures q == FloorDiv(a, b)
  {
    var f := FloorDiv(a, b);
    if q < f {
      MulMonotone(b, q + 1, f);
    } else if f < q {
      MulMonotone(b, f + 1, q);
    }
  }

  /** Multiplying by `b` keeps (b > 0) or reverses (b < 0) the order of `x <= y`. */
  lemma MulMonotone(b: int, x: int, y: int)
    requires x <= y
    ensures b > 0 ==> b * x <= b * y
    ensures b < 0 ==> b * x >= b * y
  {
    var d := y - x;
    assert b * y == b * x + b * d;
    if b > 0 {
      assert b * d >= 0;
    } else if b < 0 {
      assert b * d <= 0;
    }
  }
}
