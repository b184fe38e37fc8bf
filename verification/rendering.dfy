/**
  `Render` (the model of `__repr__`) is the form in which solutions are
  reported.  This module gives it a partner, a parser for fully
  parenthesised infix text, and proves the two inverse on well-formed trees:
  parsing a rendering gives the tree back, and whatever parses renders back to
  the text it came from.  Hence no two well-formed trees share a rendering.
*/
module Rendering {
  import opened Wrappers
  import opened BetNode

  /** Characters that delimit tokens in a rendering. */
  const Delimiters: set<char> := {'(', ')', '+', '-', '*', '/'}

  /** A token that can stand at a leaf: non-empty and free of delimiters. */
  predicate IsAtom(s: string)
  {
    |s| > 0 && forall i :: 0 <= i < |s| ==> s[i] !in Delimiters
  }

  /**
    A tree whose rendering can be read back: leaves carry atoms, every other
    node carries one of the four operators and has both children.
  */
  predicate WellFormed(n: Node)
    decreases n
  {
    if IsLeaf(n) then n.value.Some? && IsAtom(n.value.value)
    else
      && n.value.Some? && n.value.value in Operators
      && n.left.Some? && n.right.Some?
      && WellFormed(n.left.value) && WellFormed(n.right.value)
  }

  /** Every card token is an atom. */
  lemma CardTokensAreAtoms(k: string)
    requires k in CardValues
    ensures IsAtom(k)
  {
  }

  /** The longest prefix of `s` free of delimiters. */
  function AtomPrefix(s: string): (a: string)
    ensures a <= s
    ensures forall i :: 0 <= i < |a| ==> a[i] !in Delimiters
    ensures |a| < |s| ==> s[|a|] in Delimiters
  {
    if |s| == 0 || s[0] in Delimiters then [] else [s[0]] + AtomPrefix(s[1..])
  }

  /**
    Reads one expression from the front of `s`: either an atom, or
    `(`, an expression, an operator character, an expression, `)`.
    Returns the tree and the unread rest.
  */
  function ParseExpr(s: string): (r: Option<(Node, string)>)
    ensures r.Some? ==> |r.value.1| < |s|
    decreases |s|
  {
    if |s| == 0 then None
    else if s[0] == '(' then
      match ParseExpr(s[1..])
      case None => None
      case Some((l, rest1)) =>
        if |rest1| == 0 || [rest1[0]] !in Operators then None
        else
          match ParseExpr(rest1[1..])
          case None => None
          case Some((r, rest2)) =>
            if |rest2| == 0 || rest2[0] != ')' then None
            else Some((Op([rest1[0]], l, r), rest2[1..]))
    else
      var a := AtomPrefix(s);
      if |a| == 0 then None else Some((Leaf(a), s[|a|..]))
  }

  /** Reads a whole string as one expression. */
  function Parse(s: string): (r: Option<Node>)
    ensures r.Some? ==> ParseExpr(s) == Some((r.value, []))
  {
    match ParseExpr(s)
    case Some((t, rest)) => if rest == [] then Some(t) else None
    case None => None
  }

  /** Each operator is a single delimiter character. */
  lemma OperatorIsOneChar(op: string)
    requires op in Operators
    ensures |op| == 1 && op == [op[0]] && op[0] in Delimiters
  {
  }

  /** The atom at the front of `a + rest` is `a` when `rest` starts with a delimiter. */
  lemma {:induction false} AtomPrefixOfAtom(a: string, rest: string)
    requires forall i :: 0 <= i < |a| ==> a[i] !in Delimiters
    requires rest == [] || rest[0] in Delimiters
    ensures AtomPrefix(a + rest) == a
    decreases |a|
  {
    if |a| > 0 {
      assert (a + rest)[1..] == a[1..] + rest;
      AtomPrefixOfAtom(a[1..], rest);
      assert [a[0]] + a[1..] == a;
    } else {
      assert a + rest == rest;
    }
  }

  /** One step of `ParseExpr` on a parenthesised expression whose parts parse. */
  lemma ParseParenthesised(s: string, l: Node, rest1: string, r: Node, rest2: string)
    requires |s| > 0 && s[0] == '('
    requires ParseExpr(s[1..]) == Some((l, rest1))
    requires |rest1| > 0 && [rest1[0]] in Operators
    requires ParseExpr(rest1[1..]) == Some((r, rest2))
    requires |rest2| > 0 && rest2[0] == ')'
    ensures ParseExpr(s) == Some((Op([rest1[0]], l, r), rest2[1..]))
  {
  }

  /** A successful parse of a parenthesised expression is made of successful parses of its parts. */
  lemma ParenthesisedParts(s: string)
    requires |s| > 0 && s[0] == '('
    requires ParseExpr(s).Some?
    ensures ParseExpr(s[1..]).Some?
    ensures var (l, rest1) := ParseExpr(s[1..]).value;
            && |rest1| > 0 && [rest1[0]] in Operators
            && ParseExpr(rest1[1..]).Some?
            && var (r, rest2) := ParseExpr(rest1[1..]).value;
               && |rest2| > 0 && rest2[0] == ')'
               && ParseExpr(s) == Some((Op([rest1[0]], l, r), rest2[1..]))
  {
  }

  /** The rendering of an operator node, regrouped around the pieces the parser reads. */
  lemma RegroupRendering(t: Node, rest: string)
    requires !IsLeaf(t) && t.value.Some? && t.left.Some? && t.right.Some?
    ensures Render(t) + rest
         == "(" + (Render(t.left.value) + (t.value.value + (Render(t.right.value) + (")" + rest))))
  {
    var l := Render(t.left.value);
    var r := Render(t.right.value);
    assert Render(t) == "(" + l + t.value.value + r + ")";
  }

  /** Parsing a rendering followed by a delimiter-led rest gives the tree and the rest back. */
  lemma {:induction false} ParseRender(t: Node, rest: string)
    requires WellFormed(t)
    requires rest == [] || rest[0] in Delimiters
    ensures ParseExpr(Render(t) + rest) == Some((t, rest))
    decreases t
  {
    if IsLeaf(t) {
      var a := t.value.value;
      AtomPrefixOfAtom(a, rest);
      assert (a + rest)[|a|..] == rest;
      assert t == Leaf(a);
    } else {
      var l := t.left.value;
      var r := t.right.value;
      var op := t.value.value;
      OperatorIsOneChar(op);
      var rest2 := ")" + rest;
      var rest1 := op + (Render(r) + rest2);
      var s := Render(t) + rest;
      RegroupRendering(t, rest);
      assert s[1..] == Render(l) + rest1;
      ParseRender(l, rest1);
      assert rest1[1..] == Render(r) + rest2;
      ParseRender(r, rest2);
      assert rest2[1..] == rest;
      ParseParenthesised(s, l, rest1, r, rest2);
      assert t == Op([rest1[0]], l, r);
    }
  }

  /** Whatever `ParseExpr` reads is well-formed and renders back to the text it consumed. */
  lemma {:induction false} RenderParse(s: string)
    requires ParseExpr(s).Some?
    ensures WellFormed(ParseExpr(s).value.0)
    ensures Render(ParseExpr(s).value.0) + ParseExpr(s).value.1 == s
    decreases |s|
  {
    if s[0] == '(' {
      ParenthesisedParts(s);
      var (l, rest1) := ParseExpr(s[1..]).value;
      var (r, rest2) := ParseExpr(rest1[1..]).value;
      RenderParse(s[1..]);
      RenderParse(rest1[1..]);
      RenderParenthesised(s, l, rest1, r, rest2);
    } else {
      var a := AtomPrefix(s);
      assert ParseExpr(s) == Some((Leaf(a), s[|a|..]));
      assert s == a + s[|a|..];
    }
  }

  /** Reassembles the text of a parenthesised expression from the renderings of its parts. */
  lemma RenderParenthesised(s: string, l: Node, rest1: string, r: Node, rest2: string)
    requires |s| > 0 && s[0] == '('
    requires |rest1| > 0 && [rest1[0]] in Operators
    requires |rest2| > 0 && rest2[0] == ')'
    requires WellFormed(l) && Render(l) + rest1 == s[1..]
    requires WellFormed(r) && Render(r) + rest2 == rest1[1..]
    ensures WellFormed(Op([rest1[0]], l, r))
    ensures Render(Op([rest1[0]], l, r)) + rest2[1..] == s
  {
    var t := Op([rest1[0]], l, r);
    var rest := rest2[1..];
    RegroupRendering(t, rest);
    assert ")" + rest == rest2;
    assert [rest1[0]] + (Render(r) + rest2) == rest1;
    assert "(" + s[1..] == s;
  }

  /** A whole-string parse renders back to that string. */
  lemma RenderOfParse(s: string)
    requires Parse(s).Some?
    ensures WellFormed(Parse(s).value)
    ensures Render(Parse(s).value) == s
  {
    RenderParse(s);
  }

  /** A well-formed tree is recovered from its rendering. */
  lemma ParseOfRender(t: Node)
    requires WellFormed(t)
    ensures Parse(Render(t)) == Some(t)
  {
    ParseRender(t, []);
    assert Render(t) + [] == Render(t);
  }

  /** Distinct well-formed trees have distinct renderings. */
  lemma RenderInjective(a: Node, b: Node)
    requires WellFormed(a) && WellFormed(b)
    requires Render(a) == Render(b)
    ensures a == b
  {
    ParseOfRender(a);
    ParseOfRender(b);
  }
}
