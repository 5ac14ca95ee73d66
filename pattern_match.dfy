/**
 * The structural matchers the pattern clauses use on expression trees.
 * `Node.equals_expression` (pql/Node.py is not part of this model) is taken
 * to compare a node's type and value, never its line, so a pattern tree
 * built by the query parser can match a program tree. Both Python matchers
 * index the pattern's children by the program node's child positions, which
 * raises IndexError when the pattern node has fewer children; `None` models
 * that error.
 */
module PatternMatch {
  import opened Wrappers
  import opened Ast

  predicate SameRoot(a: Node, b: Node)
  {
    a.nodeType == b.nodeType && a.value == b.value
  }

  /** Structural identity: the roots agree and every child of `ast` matches the pattern's child at its position. */
  predicate Matches(ast: Node, pat: Node)
    decreases ast
  {
    && SameRoot(pat, ast)
    && |ast.children| <= |pat.children|
    && forall i :: 0 <= i < |ast.children| ==> Matches(ast.children[i], pat.children[i])
  }

  // ---------------------------------------------------------------------
  // expression_is_identical
  // ---------------------------------------------------------------------

  /** `expression_is_identical(ast, pat)`. */
  function Identical(ast: Node, pat: Node): Option<bool>
    decreases ast, 1
  {
    if !SameRoot(pat, ast) then Some(false) else ChildrenIdentical(ast, pat, 0)
  }

  /** Children `i..` of `ast` against the pattern's, stopping at the first mismatch. */
  function ChildrenIdentical(ast: Node, pat: Node, i: nat): Option<bool>
    requires i <= |ast.children|
    decreases ast, 0, |ast.children| - i
  {
    if i == |ast.children| then Some(true)
    else if i >= |pat.children| then None
    else match Identical(ast.children[i], pat.children[i])
      case None => None
      case Some(same) => if same then ChildrenIdentical(ast, pat, i + 1) else Some(false)
  }

  /** `expression_is_identical` holds exactly on structurally identical trees. */
  lemma {:induction false} IdenticalMeaning(ast: Node, pat: Node)
    ensures Identical(ast, pat) == Some(true) <==> Matches(ast, pat)
    decreases ast, 1
  {
    if SameRoot(pat, ast) {
      ChildrenIdenticalMeaning(ast, pat, 0);
    }
  }

  lemma {:induction false} ChildrenIdenticalMeaning(ast: Node, pat: Node, i: nat)
    requires i <= |ast.children| && i <= |pat.children|
    ensures ChildrenIdentical(ast, pat, i) == Some(true) <==>
      |ast.children| <= |pat.children| && forall j :: i <= j < |ast.children| ==> Matches(ast.children[j], pat.children[j])
    decreases ast, 0, |ast.children| - i
  {
    if i < |ast.children| && i < |pat.children| {
      IdenticalMeaning(ast.children[i], pat.children[i]);
      ChildrenIdenticalMeaning(ast, pat, i + 1);
    }
  }

  /** Every tree matches itself. */
  lemma {:induction false} MatchesReflexive(t: Node)
    ensures Matches(t, t)
    decreases t
  {
    forall i | 0 <= i < |t.children| ensures Matches(t.children[i], t.children[i]) {
      MatchesReflexive(t.children[i]);
    }
  }

  /** `expression_is_identical` is reflexive. */
  lemma IdenticalReflexive(t: Node)
    ensures Identical(t, t) == Some(true)
  {
    MatchesReflexive(t);
    IdenticalMeaning(t, t);
  }

  // ---------------------------------------------------------------------
  // expression_part_is_identical
  // ---------------------------------------------------------------------

  /**
   * `expression_part_is_identical(ast, pat)` as written: on equal roots it
   * part-matches child against child, and otherwise it looks for a child of
   * `ast` that part-matches the whole pattern.
   */
  function PartAsWritten(ast: Node, pat: Node): Option<bool>
    decreases ast, 1
  {
    if SameRoot(pat, ast) then PartChildren(ast, pat, 0) else AnyChildPart(ast, pat, 0)
  }

  function PartChildren(ast: Node, pat: Node, i: nat): Option<bool>
    requires i <= |ast.children|
    decreases ast, 0, |ast.children| - i
  {
    if i == |ast.children| then Some(true)
    else if i >= |pat.children| then None
    else match PartAsWritten(ast.children[i], pat.children[i])
      case None => None
      case Some(part) => if part then PartChildren(ast, pat, i + 1) else Some(false)
  }

  function AnyChildPart(ast: Node, pat: Node, i: nat): Option<bool>
    requires i <= |ast.children|
    decreases ast, 0, |ast.children| - i
  {
    if i == |ast.children| then Some(false)
    else match PartAsWritten(ast.children[i], pat)
      case None => None
      case Some(part) => if part then Some(true) else AnyChildPart(ast, pat, i + 1)
  }

  /** An exact match is also a part match, as written. */
  lemma {:induction false} IdenticalImpliesPart(ast: Node, pat: Node)
    requires Identical(ast, pat) == Some(true)
    ensures PartAsWritten(ast, pat) == Some(true)
    decreases ast, 1
  {
    IdenticalMeaning(ast, pat);
    ChildrenPart(ast, pat, 0);
  }

  lemma {:induction false} ChildrenPart(ast: Node, pat: Node, i: nat)
    requires Matches(ast, pat) && i <= |ast.children|
    ensures PartChildren(ast, pat, i) == Some(true)
    decreases ast, 0, |ast.children| - i
  {
    if i < |ast.children| {
      IdenticalMeaning(ast.children[i], pat.children[i]);
      IdenticalImpliesPart(ast.children[i], pat.children[i]);
      ChildrenPart(ast, pat, i + 1);
    }
  }

  /** On different roots, the as-written match holds exactly when some child part-matches and no earlier child raised. */
  lemma {:induction false} PartOnDifferentRoots(ast: Node, pat: Node, i: nat)
    requires !SameRoot(pat, ast) && i <= |ast.children|
    requires forall j :: i <= j < |ast.children| ==> PartAsWritten(ast.children[j], pat).Some?
    ensures AnyChildPart(ast, pat, i) == Some(true) <==>
      exists j :: i <= j < |ast.children| && PartAsWritten(ast.children[j], pat) == Some(true)
    decreases |ast.children| - i
  {
    if i < |ast.children| {
      PartOnDifferentRoots(ast, pat, i + 1);
    }
  }

  // ---------------------------------------------------------------------
  // The containment match the wild-card pattern means
  // ---------------------------------------------------------------------

  /** `s` is `t` or lies somewhere below it. */
  ghost predicate Subtree(s: Node, t: Node)
    decreases t
  {
    s == t || exists i :: 0 <= i < |t.children| && Subtree(s, t.children[i])
  }

  /** `_"pat"_`: some subtree of `ast` is structurally identical to `pat`. */
  predicate Contains(ast: Node, pat: Node)
    decreases ast
  {
    Matches(ast, pat) || exists i :: 0 <= i < |ast.children| && Contains(ast.children[i], pat)
  }

  lemma {:induction false} ContainsMeaning(ast: Node, pat: Node)
    ensures Contains(ast, pat) <==> exists s :: Subtree(s, ast) && Matches(s, pat)
    decreases ast
  {
    if Contains(ast, pat) {
      if !Matches(ast, pat) {
        var i :| 0 <= i < |ast.children| && Contains(ast.children[i], pat);
        ContainsMeaning(ast.children[i], pat);
        var s :| Subtree(s, ast.children[i]) && Matches(s, pat);
        assert Subtree(s, ast);
      } else {
        assert Subtree(ast, ast);
      }
    }
    if exists s :: Subtree(s, ast) && Matches(s, pat) {
      var s :| Subtree(s, ast) && Matches(s, pat);
      if s != ast {
        var i :| 0 <= i < |ast.children| && Subtree(s, ast.children[i]);
        assert Subtree(s, ast.children[i]) && Matches(s, pat);
        ContainsMeaning(ast.children[i], pat);
        assert Contains(ast.children[i], pat);
      }
    }
  }

  /** An exact match is a containment match. */
  lemma IdenticalImpliesContains(ast: Node, pat: Node)
    requires Identical(ast, pat) == Some(true)
    ensures Contains(ast, pat)
  {
    IdenticalMeaning(ast, pat);
  }

  function Leaf(name: string): Node { Node("NAME", name, 0, []) }

  function Plus(left: Node, right: Node): Node { Node("PLUS", "", 0, [left, right]) }

  /** `x + y + z` as the parser builds it: `x + (y + z)`. */
  function XPlusYPlusZ(): Node { Plus(Leaf("x"), Plus(Leaf("y"), Leaf("z"))) }

  /** The containment pattern `_"y + z"_` is a subtree of `x + y + z`, and the code as written misses it. */
  lemma PartAsWrittenMisses()
    ensures PartAsWritten(XPlusYPlusZ(), Plus(Leaf("y"), Leaf("z"))) == Some(false)
    ensures Contains(XPlusYPlusZ(), Plus(Leaf("y"), Leaf("z")))
  {
    var x, y, yz := Leaf("x"), Leaf("y"), Plus(Leaf("y"), Leaf("z"));
    var ast := XPlusYPlusZ();
    assert AnyChildPart(x, y, 0) == Some(false);
    assert PartAsWritten(x, y) == Some(false);
    assert PartChildren(ast, yz, 0) == Some(false);
    MatchesReflexive(yz);
    assert ast.children[1] == yz && Contains(yz, yz);
  }

  /** `_"x + y"_` is not a subtree of `x + y + z`, and the code as written reports it. */
  lemma PartAsWrittenInvents()
    ensures PartAsWritten(XPlusYPlusZ(), Plus(Leaf("x"), Leaf("y"))) == Some(true)
    ensures !Contains(XPlusYPlusZ(), Plus(Leaf("x"), Leaf("y")))
  {
    ReportsXPlusY();
    NoXPlusY();
  }

  lemma ReportsXPlusY()
    ensures PartAsWritten(XPlusYPlusZ(), Plus(Leaf("x"), Leaf("y"))) == Some(true)
  {
    var x, y, z := Leaf("x"), Leaf("y"), Leaf("z");
    var yz, xy := Plus(y, z), Plus(x, y);
    var ast := XPlusYPlusZ();
    assert PartChildren(x, x, 0) == Some(true);
    assert PartAsWritten(x, x) == Some(true);
    assert PartChildren(y, y, 0) == Some(true);
    assert PartAsWritten(y, y) == Some(true);
    assert AnyChildPart(yz, y, 0) == Some(true);
    assert PartAsWritten(yz, y) == Some(true);
    assert PartChildren(ast, xy, 2) == Some(true);
    assert PartChildren(ast, xy, 1) == Some(true);
    assert PartChildren(ast, xy, 0) == Some(true);
  }

  lemma NoXPlusY()
    ensures !Contains(XPlusYPlusZ(), Plus(Leaf("x"), Leaf("y")))
  {
    var x, y, z := Leaf("x"), Leaf("y"), Leaf("z");
    var yz, xy := Plus(y, z), Plus(x, y);
    assert "x"[0] != "y"[0];
    assert !SameRoot(x, y);
    ChildMismatch(yz, xy, 0);
    LeafContainsNoSum(y, xy);
    LeafContainsNoSum(z, xy);
    SumContains(y, z, xy);
    assert !SameRoot(y, yz);
    ChildMismatch(Plus(x, yz), xy, 1);
    LeafContainsNoSum(x, xy);
    SumContains(x, yz, xy);
  }

  /** A sum holds the pattern only at its root or inside one of its two operands. */
  lemma SumContains(left: Node, right: Node, pat: Node)
    ensures Contains(Plus(left, right), pat) <==> Matches(Plus(left, right), pat) || Contains(left, pat) || Contains(right, pat)
  {
    var sum := Plus(left, right);
    assert sum.children[0] == left && sum.children[1] == right && |sum.children| == 2;
  }

  /** A mismatch at one child position rules out structural identity. */
  lemma ChildMismatch(ast: Node, pat: Node, i: nat)
    requires i < |ast.children| && i < |pat.children| && !Matches(ast.children[i], pat.children[i])
    ensures !Matches(ast, pat)
  {
  }

  /** A leaf holds no sum. */
  lemma LeafContainsNoSum(leaf: Node, sum: Node)
    requires leaf.children == [] && leaf.nodeType == "NAME" && sum.nodeType == "PLUS"
    ensures !Contains(leaf, sum)
  {
  }
}
