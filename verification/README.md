# Binary expression trees for the 24 game

The 24 game deals four cards. A player combines the cards' values with `+`, `-`, `*` and
`/` (floor division) to reach 24. The Python module `BET.py` represents an arithmetic
expression as a binary expression tree of `BETNode`s. Each node holds an operator symbol,
a card token or `None`, plus two optional children. The module's parts are:

- a card table: `A` and `1` are worth 1, and `J`, `Q`, `K` are worth 11, 12, 13;
- structural `__eq__` and `__hash__`, and the child setters `add_left` and `add_right`;
- `evaluate`, which returns an integer, or the marker string
  `'error, can not divide by zero'` at a node whose divisor is 0. An ancestor then
  receives that string, and Python's operators either raise `TypeError` on it or repeat
  it (see Findings). An unknown card raises `KeyError`, and an operator node missing a
  child raises `AttributeError`;
- `__repr__`, a fully parenthesised infix rendering;
- `create_trees(cards)`, which builds one tree for every ordering of the four cards, every
  triple of operators and each of five fixed tree shapes, and collects them in a set;
- `find_solutions(cards)`, which collects the renderings of the trees worth 24. Its loop
  stops at the first exception a tree's evaluation raises, and lets it escape.

This project models all of it in Dafny. It is organised in these modules:

- `PyOps`: the Python run-time behaviour `evaluate` depends on. Values are `int` or `str`.
  Exceptions are `KeyError`, `AttributeError` and `TypeError`. It also defines `+`, `-`,
  `*` (with string repetition) and `//`, which rounds toward negative infinity.
- `BetNode`: the node datatype, the card table, the setters as functional updates,
  `__eq__`, `__hash__`, `evaluate` and `__repr__`.
- `Arithmetic`: a pure integer reading of a tree, used as the reference for `evaluate`.
- `Rendering`: a parser for the rendered text. It is the inverse of `__repr__` on
  well-formed trees.
- `Shapes`: the five shapes. Each is built by the same `add_left`/`add_right` steps as the
  enumerator, and its structure is proved.
- `HandOrderings`, `Enumeration`, `TreeCount`: the orderings, `create_trees` and
  `find_solutions`, and the counts 7680 and 320.
- `Search`: the loop of `find_solutions` exactly as written, exceptions included.
- `Examples`: the trees of the unit tests.
- `Counting`, `Wrappers`: generic cardinality lemmas and `Option`.

`evaluate` is modelled faithfully. It returns `Returned(Int(..))`, `Returned(Str(..))` or
`Raised(e)`: a string plus a string concatenates, an integer times a string repeats it,
and the `/` branch tests the divisor against 0 before anything else.
`Arithmetic.EvaluateAgreesWithArith` relates this to the reference integer semantics. As
in `evaluate`, a node without a value is worth 0 whatever lies below it. Among the nodes
that are evaluated, a division by zero, an unknown token or a missing child makes the
tree valueless.

## Model

| member | source | states |
|---|---|---|
| BetNode.CardValuesRange | BET.py:10-12 | Every card token is worth between 1 and 13. `A` and `1` are worth 1, and `J`, `Q`, `K` are worth 11, 12, 13. |
| BetNode.CardTokens | BET.py:10-12 | The table's tokens are exactly `A`, `1` to `10`, `J`, `Q` and `K`. |
| BetNode.AddLeft | BET.py:37-41 | `add_left` installs the given left child and leaves the value and the right child as they were. |
| BetNode.AddRight | BET.py:44-48 | `add_right` installs the given right child and leaves the value and the left child as they were. |
| BetNode.SettersOverwriteAndCommute | BET.py:37-48 | A second call to a setter overwrites the first, and setting the left and right children commutes. |
| BetNode.Equal | BET.py:26-29 | The recursive `__eq__` (equal values and recursively equal subtrees) holds exactly when the two trees are identical. |
| BetNode.EqualChild | BET.py:29 | Comparing two optional children, where `None` equals only `None`, holds exactly when they are identical. |
| BetNode.EqualOrNone | BET.py:28-29 | `__eq__` against `None` is false, so comparing with an optional node holds exactly when it is this node. |
| BetNode.Hash | BET.py:32-34 | The hash of `(value, left, right)` is an integer below 2^64. Which integer is not modelled (see Left out), and `HashConsistent` states its one law. |
| BetNode.HashConsistent | BET.py:32-34 | Trees equal under `__eq__` have equal hashes, for every string hash function. |
| BetNode.Combine | BET.py:72-86 | Applying an operator yields an integer only when both operands are integers. |
| BetNode.Evaluate | BET.py:51-86 | A string result can only come from a node that has a value and both children. |
| BetNode.Render | BET.py:89-96 | A node with a child renders as text that starts with `(` and ends with `)`. The parse round trips below pin the rest of the text. |
| PyOps.FloorDiv | BET.py:86 | The quotient of `//` is the one between the floor bounds, for divisors of either sign. |
| PyOps.FloorDivUnique | BET.py:86 | Any integer meeting the floor bounds is `FloorDiv`, so the model is Python's `//`. |
| PyOps.Repeat | BET.py:78-79 | `s * n` is empty for `n <= 0` and otherwise has `n` times the length of `s`. |
| PyOps.RepeatOne | BET.py:78-79 | `s * 1` is `s`. |
| PyOps.RepeatAdd | BET.py:78-79 | `s * (a + b)` is `s * a` followed by `s * b`. With `RepeatOne` this makes `s * n` exactly `n` copies of `s`. |
| PyOps.Plus | BET.py:72-73 | `+` gives an integer exactly on two integers and then their sum. Two strings concatenate. An int with a str raises `TypeError`. |
| PyOps.Minus | BET.py:75-76 | `-` returns exactly on two integers, giving their difference, and raises `TypeError` otherwise. |
| PyOps.Times | BET.py:78-79 | `*` gives an integer exactly on two integers and then their product. A string and an int, in either order, give the string repeated that many times. Two strings raise `TypeError`. |
| PyOps.Divide | BET.py:81-86 | The division branch returns the marker exactly when the divisor is the integer 0. It returns an integer exactly on two integers with a non-zero divisor, and that integer is their floor quotient. Every other case raises `TypeError`. |
| Arithmetic.CombineAgrees | BET.py:72-86 | An operator node's Python result is the integer `x` exactly when both operands are integers and integer arithmetic gives `x`. |
| Arithmetic.EvaluateAgreesWithArith | BET.py:51-86 | `evaluate` returns the integer `x` exactly when the reference integer reading of the tree is `x`. Strings and exceptions never turn back into numbers. |
| Arithmetic.LeafValue | BET.py:57-63 | A node without a value is worth 0. A childless node is worth its card's table value, and raises `KeyError` for a token not in the table. |
| Arithmetic.ArithmeticNode | BET.py:72-79 | At a `+`, `-` or `*` node with integer children, the value is their sum, difference or product. |
| Arithmetic.DivisionNode | BET.py:81-86 | At any other node, once the left subtree has returned, the result is the marker exactly when the right subtree evaluates to 0. A left subtree that raises wins, because it is evaluated first. With integer children and a non-zero divisor the result is the floor quotient. |
| Rendering.CardTokensAreAtoms | BET.py:10-12 | Every card token renders without parentheses or operator characters. |
| Rendering.ParseRender | BET.py:89-96 | Parsing the rendering of a well-formed tree, followed by any delimiter-led rest, gives back the tree and the rest. |
| Rendering.RenderParse | BET.py:89-96 | Whatever the parser reads is well-formed and renders back to exactly the text it consumed. |
| Rendering.ParseOfRender | BET.py:89-96 | A well-formed tree is recovered from its rendering. |
| Rendering.RenderOfParse | BET.py:89-96 | A string that parses is the rendering of the tree it parses to. |
| Rendering.RenderInjective | BET.py:89-96 | Distinct well-formed trees have distinct renderings. |
| Shapes.BuildCCCCXXX | BET.py:126-135 | The build steps of `CCCCXXX` finish with o0(c3, o1(c2, o2(c1, c0))). The left child set first is overwritten. |
| Shapes.BuildCCXCCXX | BET.py:137-144 | The build steps of `CCXCCXX` finish with o0(o2(c3, c2), o1(c1, c0)). |
| Shapes.BuildCCXCXCX | BET.py:146-154 | The build steps of `CCXCXCX` finish with o0(o1(o2(c3, c2), c1), c0). |
| Shapes.BuildCCCXXCX | BET.py:156-164 | The build steps of `CCCXXCX` finish with o0(o1(c1, o2(c3, c2)), c0). |
| Shapes.BuildCCCXCXX | BET.py:166-174 | The build steps of `CCCXCXX` finish with o0(c0, o1(o2(c3, c2), c1)). |
| Shapes.Build | BET.py:122-174 | The loop body's branch on the shape name yields that shape's finished tree. |
| Shapes.FiveShapesAreAllFourLeafTrees | BET.py:106 | The five shape names are exactly the binary trees with four leaves, and no two of them share a skeleton. |
| Shapes.LeafOrderPermutes | BET.py:120-174 | Every shape places each of the four cards at exactly one leaf. |
| Shapes.OperatorOrderPermutes | BET.py:120-174 | Every shape places each of the three operators at exactly one inner node. |
| Shapes.ShapeTreeStructure | BET.py:120-174 | Every built tree is complete when its operators are operators. It has the shape's skeleton, its leaves are the cards as a multiset, and its inner nodes are the operators as a multiset. |
| Shapes.ShapeTreeInjective | BET.py:120-176 | Equal built trees come from the same shape, the same card order and the same operator triple. |
| HandOrderings.OrderingsCount | BET.py:115 | The orderings of four positions are exactly the 24 listed permutations. |
| Enumeration.Assemble | BET.py:120-176 | The tree added for a combination is the shape's tree over the hand read in that ordering. |
| Enumeration.AssembledIsHandTree | BET.py:120-176 | Every added tree is complete and has four leaves, so it has one of the five shapes. Its leaves are an ordering of the hand, and it has three operator nodes. |
| Enumeration.CreateTrees | BET.py:100-178 | `create_trees` contains the tree of every combination, and each of its trees is a tree of the hand. |
| TreeCount.CreateTreesIsImage | BET.py:112-178 | `create_trees` is exactly the set of the trees of the 7680 combinations. |
| TreeCount.OperatorTriplesCount | BET.py:109-117 | `product(operators, repeat=3)` has 64 members. |
| TreeCount.CombosCount | BET.py:115-122 | The three nested loops visit 5 × 24 × 64 = 7680 combinations. |
| TreeCount.TreeCountBound | BET.py:112-178 | `create_trees` returns at most 7680 trees. |
| TreeCount.AssembleInjective | BET.py:120-176 | Over four different cards, different combinations build different trees. |
| TreeCount.DistinctHandCount | TestBET.py:127-133 | Four different cards give exactly 7680 trees. |
| TreeCount.IdenticalHandCount | TestBET.py:136-142 | Four equal cards give exactly 320 trees. |
| TreeCount.SameCardArrangement | BET.py:115-122 | Over four equal cards, a combination's tree does not depend on its ordering. |
| Enumeration.SolvingTreesParse | BET.py:189-191 | Every tree worth 24 is well-formed, so its rendering parses back to it. |
| Enumeration.SolutionStrings | BET.py:189-191 | A string renders a tree worth 24 exactly when it parses to one. |
| Enumeration.SolutionCount | BET.py:189-191 | No two trees worth 24 share a rendering, so there are as many solution strings as solving trees. |
| Enumeration.FindSolutions | BET.py:181-193 | A string is reported exactly when it reads back as an enumerated tree worth the integer 24. There are as many strings as such trees. |
| Search.FindSolutionsByIntegerValue | BET.py:189-191 | A string is reported exactly when it renders an enumerated tree whose integer value is 24. |
| Search.SearchTrees | BET.py:187-193 | The loop over the trees, in any order, raises exactly when some tree raises, and raises that tree's exception. Otherwise it yields exactly the renderings of the trees worth 24. |
| Search.FindSolutionsAsWritten | BET.py:181-193 | `find_solutions` raises exactly when some enumerated tree raises. When it returns, it returns the intended solution set. |
| Search.CrashTreeRaises | BET.py:72-86 | In c3 + (c2 / (c1 op c0)) with card tokens and c1 op c0 worth 0, the division gives the marker and the `+` raises `TypeError`. |
| Search.EveryHandRaises | BET.py:181-193 | Every hand of four card tokens has an enumerated tree whose evaluation raises `TypeError`. |
| Examples.BuildReprTree | TestBET.py:18-24 | The setter calls of the first test build A * (2 - (3 + 4)). |
| Examples.ReprExample | TestBET.py:18-26 | That tree renders as `(A*(2-(3+4)))`. |
| Examples.HalfBuiltExamples | TestBET.py:33-44 | A node with only a left or only a right child shows the other child as `None`. |
| Examples.BuildTree1 | TestBET.py:52-56 | The setter calls build (Q * 7) + A. |
| Examples.Tree1Example | TestBET.py:52-58 | (Q * 7) + A renders as `((Q*7)+A)` and is worth 85. |
| Examples.BuildTree2 | TestBET.py:73-87 | The setter calls, including those that reach into children, build ((A - Q) - (4 + 5)) * ((8 * 7) + (K / J)). |
| Examples.Tree2Example | TestBET.py:73-89 | That tree renders as `(((A-Q)-(4+5))*((8*7)+(K/J)))` and is worth -1140. |
| Examples.BuildTree3 | TestBET.py:107-113 | The setter calls build (5 + 5) / (3 - 3). |
| Examples.Tree3Example | TestBET.py:107-115 | (5 + 5) / (3 - 3) renders as `((5+5)/(3-3))` and evaluates to the divide-by-zero marker. |
| Examples.FloorDivisionExample | BET.py:86 | 2 / (A - 4) is -1: division rounds toward negative infinity. |
| Examples.MarkerPropagationExample | BET.py:72-86 | Adding a card to the marker raises `TypeError`. Multiplying the marker by 2 repeats it. |
| Examples.SolutionExample | BET.py:181-193 | For the hand A, 2, 3, Q, the corrected search (see Findings) reports `((Q/2)*(3+A))`. As written, `find_solutions` raises on this hand. |
| Examples.HandCrashExample | BET.py:181-193 | Q + (3 / (A / 2)) is an enumerated tree of the hand A, 2, 3, Q, and evaluating it raises `TypeError`. |

## Left out

- Integer card tokens: node values are strings or `None`. The tests pass integers such as `[1, 2, 3, 4]`. Those are not table keys, so `evaluate` raises `KeyError` on them. The counts 7680 and 320 depend only on whether the tokens are distinct or equal, so they are proved for string tokens.
- Hands of other sizes: `create_trees` is stated for four cards, and the model requires a hand of length 4.
- BetNode.Hash: Python's concrete hash integers are not modelled. The per-process string hash is a parameter, and the 64-bit tuple mixing is a stand-in. Only consistency with `__eq__` is stated.
- `__eq__` against an object that is neither a node nor `None` is not modelled.
- Object identity and aliasing under in-place mutation: the setters are functional updates, and only the finished trees matter.
- The iteration orders of `permutations`, `product` and the result sets: orderings and operator triples are sets, and the search is proved for every visiting order.
- The `unittest` runner. The solution-count tests expecting 0 and 33 solutions are not proof obligations, because the source raises on those hands. The integer tokens raise `KeyError`, and even all-string hands raise `TypeError` (see Findings).

## Findings

| source | as written | input that shows it | evidently intended | confidence | as-written member | corrected member |
|---|---|---|---|---|---|---|
| BET.py:181-193 | A division by a zero sub-result below the root returns the marker string. An ancestor `+` then adds an `int` to that string and raises `TypeError`, and `find_solutions` does not catch it. | Hand `A, 2, 3, Q` with the tree Q + (3 / (A / 2)), since A // 2 is 0 (`Examples.HandCrashExample`). By `Search.EveryHandRaises`, every hand of four card tokens has such a tree. | Trees without an integer value are skipped, and the call returns the renderings of the trees worth 24 (`Search.FindSolutionsByIntegerValue`). | high; not executed | Search.FindSolutionsAsWritten | Enumeration.FindSolutions |
