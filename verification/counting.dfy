/** Cardinalities of finite images and products, used to count the enumerated trees. */
module Counting {

  /** The image of a finite set under a function. */
  function Image<A, B>(d: set<A>, f: A -> B): (r: set<B>)
    ensures forall x :: x in d ==> f(x) in r
  {
    set x | x in d :: f(x)
  }

  /** The image of a finite set has at most as many elements as the set. */
  lemma {:induction false} ImageBound<A, B>(d: set<A>, f: A -> B)
    ensures |Image(d, f)| <= |d|
    decreases |d|
  {
    if d != {} {
      var x :| x in d;
      var d' := d - {x};
      ImageBound(d', f);
      assert Image(d, f) == Image(d', f) + {f(x)};
    }
  }

  /** An injective map preserves the number of elements. */
  lemma {:induction false} ImageOfInjective<A, B>(d: set<A>, f: A -> B)
    requires forall x, y :: x in d && y in d && f(x) == f(y) ==> x == y
    ensures |Image(d, f)| == |d|
    decreases |d|
  {
    if d != {} {
      var x :| x in d;
      var d' := d - {x};
      ImageOfInjective(d', f);
      assert Image(d, f) == Image(d', f) + {f(x)};
      assert f(x) !in Image(d', f);
    }
  }

  /** The cartesian product of two finite sets. */
  function Pairs<A(!new), B(!new)>(xs: set<A>, ys: set<B>): (r: set<(A, B)>)
    ensures forall x, y :: (x, y) in r <==> x in xs && y in ys
  {
    set x, y | x in xs && y in ys :: (x, y)
  }

  /** The cartesian product of three finite sets. */
  function Triples<A(!new), B(!new), C(!new)>(xs: set<A>, ys: set<B>, zs: set<C>): (r: set<(A, B, C)>)
    ensures forall x, y, z :: (x, y, z) in r <==> x in xs && y in ys && z in zs
  {
    set x, y, z | x in xs && y in ys && z in zs :: (x, y, z)
  }

  /** The pairs with first component `x`. */
  function Row<A(==), B(!new)>(x: A, ys: set<B>): (r: set<(A, B)>)
    ensures forall y :: y in ys ==> (x, y) in r
  {
    set y | y in ys :: (x, y)
  }

  lemma RowCount<A, B(!new)>(x: A, ys: set<B>)
    ensures |Row(x, ys)| == |ys|
  {
    var f := (y: B) => (x, y);
    ImageOfInjective(ys, f);
    assert Row(x, ys) == Image(ys, f);
  }

  /** Taking one element out of the first set takes its row out of the pairs. */
  lemma PairsSplit<A(!new), B(!new)>(xs: set<A>, x: A, ys: set<B>)
    requires x in xs
    ensures Pairs(xs, ys) == Pairs(xs - {x}, ys) + Row(x, ys)
    ensures Pairs(xs - {x}, ys) !! Row(x, ys)
  {
    forall p | p in Pairs(xs, ys)
      ensures p in Pairs(xs - {x}, ys) + Row(x, ys)
    {
      if p.0 == x {
        assert p == (x, p.1);
      }
    }
  }

  lemma {:induction false} PairsCount<A(!new), B(!new)>(xs: set<A>, ys: set<B>)
    ensures |Pairs(xs, ys)| == |xs| * |ys|
    decreases |xs|
  {
    if xs != {} {
      var x :| x in xs;
      var xs' := xs - {x};
      PairsCount(xs', ys);
      RowCount(x, ys);
      PairsSplit(xs, x, ys);
      assert |Pairs(xs, ys)| == |Pairs(xs', ys)| + |Row(x, ys)|;
      assert |xs| == |xs'| + 1;
      assert (|xs'| + 1) * |ys| == |xs'| * |ys| + |ys|;
    }
  }

  lemma TriplesCount<A(!new), B(!new), C(!new)>(xs: set<A>, ys: set<B>, zs: set<C>)
    ensures |Triples(xs, ys, zs)| == |xs| * |ys| * |zs|
  {
    var f := (p: (A, (B, C))) => (p.0, p.1.0, p.1.1);
    var d := Pairs(xs, Pairs(ys, zs));
    PairsCount(ys, zs);
    PairsCount(xs, Pairs(ys, zs));
    ImageOfInjective(d, f);
    assert Triples(xs, ys, zs) == Image(d, f) by {
      forall t | t in Triples(xs, ys, zs)
        ensures t in Image(d, f)
      {
        assert (t.1, t.2) in Pairs(ys, zs);
        assert (t.0, (t.1, t.2)) in d;
        assert f((t.0, (t.1, t.2))) == t;
      }
    }
    assert |d| == |xs| * (|ys| * |zs|);
    assert |xs| * (|ys| * |zs|) == |xs| * |ys| * |zs|;
  }

  /** The elements of a sequence, as a set. */
  function Elements<A>(s: seq<A>): (r: set<A>)
    ensures forall i :: 0 <= i < |s| ==> s[i] in r
  {
    set x | x in s
  }

  /** A strictly increasing sequence has as many elements as entries. */
  lemma {:induction false} IncreasingCount(s: seq<int>)
    requires forall i :: 0 < i < |s| ==> s[i - 1] < s[i]
    ensures |s| > 0 ==> forall x :: x in s[1..] ==> s[0] < x
    ensures |Elements(s)| == |s|
  {
    if |s| > 0 {
      var t := s[1..];
      IncreasingCount(t);
      forall x | x in t
        ensures s[0] < x
      {
        if x != t[0] {
          assert x in t[1..];
        }
      }
      assert Elements(s) == {s[0]} + Elements(t);
    } else {
      assert Elements(s) == {};
    }
  }
}
