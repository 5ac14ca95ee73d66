/**
 * The query evaluator. It walks the query tree's clause groups in order:
 * the select target is recorded, `with` and `pattern` clauses fix a
 * synonym's domain in the evaluator's results dictionary, and such-that
 * clauses run a relation on their two arguments and write what they find
 * to the results table. An unsatisfiable clause raises a bare
 * `Exception()`, which this model reports as `Unsatisfiable`; Python runtime
 * errors (KeyError, IndexError, AttributeError, ValueError) are `Fault`.
 *
 * Domains hold texts: a with-clause stores the literal's text, the
 * statement table's lines enter through `IntText`, names stay names. The
 * results table, the AST search utility, the constant, procedure and
 * variable tables, and the relation objects are not part of this model;
 * the evaluator receives what it reads from them as values.
 */
module QueryEval {
  import opened Wrappers
  import opened Ast
  import opened Texts
  import opened StatementTables
  import opened PatternMatch
  import ClauseOrder
  import UsesRel
  import SetFacts

  type Domain = set<string>

  /** The statement lines as texts. */
  function LineTexts(lines: seq<int>): (r: Domain)
    ensures forall l :: l in lines ==> IntText(l) in r
    ensures forall x :: x in r ==> exists l :: l in lines && x == IntText(l)
  {
    set l | l in lines :: IntText(l)
  }

  /** `map(str, lines)`, in order. */
  function LineWords(lines: seq<int>): (r: seq<string>)
    ensures |r| == |lines| && forall i :: 0 <= i < |r| ==> r[i] == IntText(lines[i])
  {
    if lines == [] then [] else [IntText(lines[0])] + LineWords(lines[1..])
  }

  // ---------------------------------------------------------------------
  // choosing_an_argument
  // ---------------------------------------------------------------------

  /**
   * A relation argument as `choosing_an_argument` hands it on: a literal's
   * raw text (a line number, `_` or a quoted name), a synonym with no
   * domain yet together with the kind it ranges over, or a synonym with
   * its domain.
   */
  datatype Arg =
    | Literal(text: string)
    | Free(name: string, kind: string)
    | Bound(name: string, domain: Domain)

  const LiteralTypes: set<string> := {"INTEGER", "EVERYTHING", "IDENT_QUOTE"}

  /** The kind a free synonym ranges over: a program line is any statement. */
  function FreeKind(argType: string): string
  {
    if argType == "PROG_LINE" then "STMT" else argType
  }

  function ChooseArgument(results: map<string, Domain>, argType: string, argValue: string): (r: Arg)
    ensures argType in LiteralTypes ==> r == Literal(argValue)
    ensures argType !in LiteralTypes ==> !r.Literal? && r.name == argValue
    ensures r.Bound? <==> argType !in LiteralTypes && argValue in results && results[argValue] != {}
    ensures r.Bound? ==> r.domain == results[argValue] && r.domain != {}
    ensures r.Free? ==> r.kind == FreeKind(argType) && r.kind != "PROG_LINE"
  {
    if argType in LiteralTypes then Literal(argValue)
    else if argValue !in results || results[argValue] == {} then Free(argValue, FreeKind(argType))
    else Bound(argValue, results[argValue])
  }

  // ---------------------------------------------------------------------
  // The relation interface
  // ---------------------------------------------------------------------

  /**
   * The nine methods `execution_of_relation` calls on a relation object,
   * named by the binding state of the two arguments: a value from a
   * domain (set), a free synonym's kind (free) or a literal (query).
   */
  datatype Relation = Relation(
    setAndSet: (string, string) -> bool,
    setAndFree: (string, string) -> Domain,
    setAndQuery: (string, string) -> bool,
    freeAndSet: (string, string) -> Domain,
    freeAndFree: (string, string) -> (Domain, Domain),
    freeAndQuery: (string, string) -> Domain,
    queryAndSet: (string, string) -> bool,
    queryAndFree: (string, string) -> Domain,
    queryAndQuery: (string, string) -> bool)

  /** The Uses relation behind the interface, over its facts, the statement rows and the procedure names. */
  function UsesRelation(f: UsesRel.Facts, rows: seq<Row>, procs: seq<string>): Relation
  {
    Relation(
      (a, b) => UsesRel.SetAndSet(f, a, b),
      (a, k) => UsesRel.SetAndFree(f, a, k),
      (a, q) => UsesRel.SetAndQuery(f, a, q),
      (k, b) => UsesRel.FreeAndSet(f, rows, procs, k, b),
      (k, k2) => UsesRel.FreeAndFree(f, rows, procs, k),
      (k, q) => UsesRel.FreeAndQuery(f, rows, procs, k, q),
      (q, b) => UsesRel.QueryAndSet(f, q, b),
      (q, k) => UsesRel.QueryAndFree(f, q, k),
      (q, q2) => UsesRel.QueryAndQuery(f, q, q2))
  }

  // ---------------------------------------------------------------------
  // What one relation clause computes
  // ---------------------------------------------------------------------

  /** The values of `s2` related to `a`. */
  function Partners(holds: (string, string) -> bool, a: string, s2: Domain): Domain
  {
    set b | b in s2 && holds(a, b)
  }

  /** The elements of `s` whose image is non-empty. */
  function KeysOf(f: string -> Domain, s: Domain): Domain
  {
    set x | x in s && f(x) != {}
  }

  /** The union of the images of the elements of `s`. */
  function UnionOf(f: string -> Domain, s: Domain): Domain
  {
    set x, v | x in s && v in f(x) :: v
  }

  /** Domain × domain: the values of `s1` related to some value of `s2`. */
  function JoinLeft(holds: (string, string) -> bool, s1: Domain, s2: Domain): Domain
  {
    KeysOf(a => Partners(holds, a, s2), s1)
  }

  /** Domain × domain: the values of `s2` related to some value of `s1`. */
  function JoinRight(holds: (string, string) -> bool, s1: Domain, s2: Domain): Domain
  {
    UnionOf(a => Partners(holds, a, s2), s1)
  }

  /** The domain × domain join keeps exactly the values that take part in a related pair. */
  lemma JoinMeaning(holds: (string, string) -> bool, s1: Domain, s2: Domain)
    ensures forall a :: a in JoinLeft(holds, s1, s2) <==> a in s1 && exists b :: b in s2 && holds(a, b)
    ensures forall b :: b in JoinRight(holds, s1, s2) <==> b in s2 && exists a :: a in s1 && holds(a, b)
  {
    forall a | a in s1 && exists b :: b in s2 && holds(a, b)
      ensures a in JoinLeft(holds, s1, s2)
    {
      var b :| b in s2 && holds(a, b);
      assert b in Partners(holds, a, s2);
    }
    forall b | b in s2 && exists a :: a in s1 && holds(a, b)
      ensures b in JoinRight(holds, s1, s2)
    {
      var a :| a in s1 && holds(a, b);
      assert b in Partners(holds, a, s2);
    }
  }

  /** The join narrows both domains. */
  lemma JoinNarrows(holds: (string, string) -> bool, s1: Domain, s2: Domain)
    ensures JoinLeft(holds, s1, s2) <= s1 && JoinRight(holds, s1, s2) <= s2
  {
    JoinMeaning(holds, s1, s2);
  }

  /** The relation index `execution_of_relation` files its results under. */
  function Index(relation: string, left: string, right: string): string
  {
    relation + "_" + left + "_" + right
  }

  /**
   * One call of the results table: a synonym declared with its type, a
   * synonym's values under a relation index, or a literal's text under the
   * CONST column.
   */
  datatype Entry =
    | Declare(synonym: string, kind: string)
    | Update(index: string, column: string, values: Domain)
    | UpdateConst(index: string, value: string)

  /**
   * What `execution_of_relation` (lines 307-440) writes to the results
   * table for one clause, or None when both arguments are literals and the
   * relation does not hold, which is unsatisfiable.
   */
  function JoinEntries(rel: Relation, relation: string, first: Arg, second: Arg): Option<seq<Entry>>
  {
    match (first, second)
    case (Bound(n1, s1), Bound(n2, s2)) =>
      var index := Index(relation, n1, n2);
      Some([Update(index, n1, JoinLeft(rel.setAndSet, s1, s2)), Update(index, n2, JoinRight(rel.setAndSet, s1, s2))])
    case (Bound(n1, s1), Free(n2, k2)) =>
      var index := Index(relation, n1, n2);
      var related := a => rel.setAndFree(a, k2);
      Some([Update(index, n1, KeysOf(related, s1)), Update(index, n2, UnionOf(related, s1))])
    case (Bound(n1, s1), Literal(q)) =>
      var index := Index(relation, n1, "CONST");
      Some([Update(index, n1, set a | a in s1 && rel.setAndQuery(a, q)), UpdateConst(index, q)])
    case (Free(n1, k1), Bound(n2, s2)) =>
      var index := Index(relation, n1, n2);
      var related := b => rel.freeAndSet(k1, b);
      Some([Update(index, n1, UnionOf(related, s2)), Update(index, n2, KeysOf(related, s2))])
    case (Free(n1, k1), Free(n2, k2)) =>
      var index := Index(relation, n1, n2);
      var pair := rel.freeAndFree(k1, k2);
      Some([Update(index, n1, pair.0), Update(index, n2, pair.1)])
    case (Free(n1, k1), Literal(q)) =>
      var index := Index(relation, n1, "CONST");
      Some([Update(index, n1, rel.freeAndQuery(k1, q)), UpdateConst(index, q)])
    case (Literal(q), Bound(n2, s2)) =>
      var index := Index(relation, "CONST", n2);
      Some([UpdateConst(index, q), Update(index, n2, set b | b in s2 && rel.queryAndSet(q, b))])
    case (Literal(q), Free(n2, k2)) =>
      var index := Index(relation, "CONST", n2);
      Some([UpdateConst(index, q), Update(index, n2, rel.queryAndFree(q, k2))])
    case (Literal(q1), Literal(q2)) =>
      if rel.queryAndQuery(q1, q2) then Some([]) else None
  }

  /** A clause fails exactly when both its arguments are literals and the relation does not hold. */
  lemma JoinFails(rel: Relation, relation: string, first: Arg, second: Arg)
    ensures JoinEntries(rel, relation, first, second).None? <==>
      first.Literal? && second.Literal? && !rel.queryAndQuery(first.text, second.text)
  {
  }

  /** What a clause files under a bound synonym is drawn from that synonym's domain. */
  lemma JoinStaysInDomains(rel: Relation, relation: string, first: Arg, second: Arg)
    requires JoinEntries(rel, relation, first, second).Some?
    ensures first.Bound? ==>
      (&& |JoinEntries(rel, relation, first, second).value| == 2
       && var e := JoinEntries(rel, relation, first, second).value[0];
          e.Update? && e.column == first.name && e.values <= first.domain)
    ensures second.Bound? ==>
      (&& |JoinEntries(rel, relation, first, second).value| == 2
       && var e := JoinEntries(rel, relation, first, second).value[1];
          e.Update? && e.column == second.name && e.values <= second.domain)
  {
    if first.Bound? && second.Bound? {
      JoinNarrows(rel.setAndSet, first.domain, second.domain);
    }
  }

  /** With a literal, a bound synonym keeps exactly its values related to the literal. */
  lemma LiteralJoinMeaning(rel: Relation, relation: string, n: string, s: Domain, q: string)
    ensures JoinEntries(rel, relation, Bound(n, s), Literal(q)).value[0].values ==
      (set a | a in s && rel.setAndQuery(a, q))
    ensures JoinEntries(rel, relation, Literal(q), Bound(n, s)).value[1].values ==
      (set b | b in s && rel.queryAndSet(q, b))
  {
  }

  // ---------------------------------------------------------------------
  // The loops of execution_of_relation
  // ---------------------------------------------------------------------

  lemma KeysOfStep(f: string -> Domain, done: Domain, x: string)
    ensures KeysOf(f, done + {x}) == KeysOf(f, done) + (if f(x) != {} then {x} else {})
  {
  }

  lemma UnionOfStep(f: string -> Domain, done: Domain, x: string)
    ensures UnionOf(f, done + {x}) == UnionOf(f, done) + f(x)
  {
    forall v | v in f(x) ensures v in UnionOf(f, done + {x}) {
      assert x in done + {x};
    }
  }

  /** The values of a domain a test keeps, one at a time in any order. */
  method FilterLoop(keep: string -> bool, s: Domain) returns (r: Domain)
    ensures r == set x | x in s && keep(x)
  {
    r := {};
    var todo := s;
    while todo != {}
      invariant todo <= s
      invariant r == set x | x in s - todo && keep(x)
      decreases |todo|
    {
      ghost var some := SetFacts.Pick(todo);
      var x :| x in todo;
      if keep(x) {
        r := r + {x};
      }
      assert s - (todo - {x}) == (s - todo) + {x};
      todo := todo - {x};
    }
    assert s - todo == s;
  }

  /** One more value folded into the keys and the union. */
  lemma GatherStep(related: string -> Domain, s: Domain, todo: Domain, x: string, keys: Domain, union: Domain)
    requires x in todo && todo <= s
    requires keys == KeysOf(related, s - todo) && union == UnionOf(related, s - todo)
    ensures (if related(x) != {} then keys + {x} else keys) == KeysOf(related, s - (todo - {x}))
    ensures (if related(x) != {} then union + related(x) else union) == UnionOf(related, s - (todo - {x}))
  {
    var done := s - todo;
    assert s - (todo - {x}) == done + {x};
    KeysOfStep(related, done, x);
    UnionOfStep(related, done, x);
  }

  /** For each value of a domain the relation's answer: the values with a non-empty one, and all the answers together. */
  method GatherLoop(related: string -> Domain, s: Domain) returns (keys: Domain, union: Domain)
    ensures keys == KeysOf(related, s) && union == UnionOf(related, s)
  {
    keys, union := {}, {};
    var todo := s;
    while todo != {}
      invariant todo <= s
      invariant keys == KeysOf(related, s - todo) && union == UnionOf(related, s - todo)
      decreases |todo|
    {
      ghost var some := SetFacts.Pick(todo);
      var x :| x in todo;
      GatherStep(related, s, todo, x, keys, union);
      var result := related(x);
      if result != {} {
        union := union + result;
        keys := keys + {x};
      }
      todo := todo - {x};
    }
    assert s - todo == s;
  }

  /** The inner loop of the domain × domain join: the partners of one value. */
  method PartnersLoop(holds: (string, string) -> bool, a: string, s2: Domain) returns (found: Domain)
    ensures found == Partners(holds, a, s2)
  {
    found := {};
    var todo := s2;
    while todo != {}
      invariant todo <= s2
      invariant found == Partners(holds, a, s2 - todo)
      decreases |todo|
    {
      ghost var some := SetFacts.Pick(todo);
      var b :| b in todo;
      if holds(a, b) {
        found := found + {b};
      }
      assert s2 - (todo - {b}) == (s2 - todo) + {b};
      todo := todo - {b};
    }
    assert s2 - todo == s2;
  }

  /** The nested loops of the domain × domain join (lines 312-327). */
  method JoinLoop(holds: (string, string) -> bool, s1: Domain, s2: Domain) returns (left: Domain, right: Domain)
    ensures left == JoinLeft(holds, s1, s2) && right == JoinRight(holds, s1, s2)
  {
    ghost var related := a => Partners(holds, a, s2);
    left, right := {}, {};
    var todo := s1;
    while todo != {}
      invariant todo <= s1
      invariant left == KeysOf(related, s1 - todo) && right == UnionOf(related, s1 - todo)
      decreases |todo|
    {
      ghost var some := SetFacts.Pick(todo);
      var a :| a in todo;
      GatherStep(related, s1, todo, a, left, right);
      var found := PartnersLoop(holds, a, s2);
      assert found == related(a);
      if found != {} {
        left := left + {a};
        right := right + found;
      }
      todo := todo - {a};
    }
    assert s1 - todo == s1;
  }

  /** How a step of the evaluation ends: normally, on an unsatisfiable clause (`raise Exception()`), or on a Python runtime error. */
  datatype Status = Continue | Unsatisfiable | Fault

  // ---------------------------------------------------------------------
  // What the evaluator reads from the rest of the system
  // ---------------------------------------------------------------------

  /**
   * The statement rows, the procedure, variable and constant tables, the
   * statement-table query by kind and value
   * (`get_statement_line_by_type_name_and_value`), the program node at a
   * line (`SearchUtils.find_node_by_line`, None when it finds nothing), and
   * the relation objects by relation name.
   */
  datatype Tables = Tables(
    rows: seq<Row>,
    procs: seq<string>,
    vars: seq<string>,
    consts: seq<int>,
    linesByValue: (string, string) -> seq<int>,
    findNode: string -> Option<Node>,
    relations: map<string, Relation>)

  // ---------------------------------------------------------------------
  // Pattern clauses
  // ---------------------------------------------------------------------

  /**
   * The first domain of a pattern clause's synonym: every line of its kind
   * for a synonym or `_` target, else the lines of its kind with that
   * target name.
   */
  function PatternLines(t: Tables, kind: string, target: Node): Domain
  {
    if target.nodeType in {"VARIABLE", "EVERYTHING"} then LineTexts(LinesOfType(t.rows, kind))
    else LineTexts(t.linesByValue(kind, target.value))
  }

  /** With a synonym or `_` target, the pattern's domain is exactly the lines of the synonym's kind. */
  lemma PatternLinesMeaning(t: Tables, kind: string, target: Node, x: string)
    requires DistinctLines(t.rows) && target.nodeType in {"VARIABLE", "EVERYTHING"}
    ensures x in PatternLines(t, kind, target) <==>
      exists l :: HasLine(t.rows, l) && KindAt(t.rows, l) == Some(kind) && x == IntText(l)
  {
    forall l ensures l in LinesOfType(t.rows, kind) <==> HasLine(t.rows, l) && KindAt(t.rows, l) == Some(kind) {
      LinesOfTypeMembers(t.rows, kind, l);
    }
  }

  /**
   * Whether the assignment at line `x` passes the expression pattern: its
   * right side contains `pattern` for `_"…"_`, or is identical to it. The
   * containment is the corrected matcher `Contains`; line 231 calls
   * `expression_part_is_identical`, which is `PartAsWritten`.
   * None when the line has no node or the node has no right side (the
   * AttributeError or IndexError of `find_node_by_line(line).children[1]`),
   * or when the identity test indexes past the pattern's children.
   */
  function LineCheck(t: Tables, x: string, pattern: Node, wildCard: bool): Option<bool>
  {
    match t.findNode(x)
    case None => None
    case Some(n) =>
      if |n.children| < 2 then None
      else if wildCard then Some(Contains(n.children[1], pattern))
      else Identical(n.children[1], pattern)
  }

  /** The lines of `d` that pass the check. */
  function Kept(t: Tables, d: Domain, pattern: Node, wildCard: bool): Domain
  {
    set x | x in d && LineCheck(t, x, pattern, wildCard) == Some(true)
  }

  /** Checking some line of `d` raises. */
  predicate CheckFails(t: Tables, d: Domain, pattern: Node, wildCard: bool)
  {
    exists x :: x in d && LineCheck(t, x, pattern, wildCard).None?
  }

  /** The check narrows, and keeps exactly the lines whose right side matches the pattern. */
  lemma KeptMeaning(t: Tables, d: Domain, pattern: Node, wildCard: bool, x: string)
    ensures Kept(t, d, pattern, wildCard) <= d
    ensures x in Kept(t, d, pattern, wildCard) <==>
      && x in d && t.findNode(x).Some? && |t.findNode(x).value.children| >= 2
      && var rhs := t.findNode(x).value.children[1];
         if wildCard then Contains(rhs, pattern) else Matches(rhs, pattern)
  {
    if t.findNode(x).Some? && |t.findNode(x).value.children| >= 2 {
      IdenticalMeaning(t.findNode(x).value.children[1], pattern);
    }
  }

  /**
   * The domain `pattern_assign` leaves its synonym (lines 193-215): the
   * first domain, narrowed by the expression pattern when there is one and
   * the first domain is not empty. None when the clause has too few
   * children or a check raises.
   */
  function AssignDomain(t: Tables, node: Node): Option<Domain>
  {
    if |node.children| < 2 then None
    else
      var d := PatternLines(t, node.children[0].nodeType, node.children[1]);
      if d == {} then Some(d)
      else if |node.children| < 3 then None
      else
        var expr := node.children[2];
        var wildCard := expr.nodeType == "EVERYTHING";
        if expr.children == [] then Some(d)
        else
          var pattern := if wildCard then expr.children[0] else expr;
          if CheckFails(t, d, pattern, wildCard) then None else Some(Kept(t, d, pattern, wildCard))
  }

  /** An assignment pattern only ever narrows the lines its target part selects. */
  lemma AssignDomainNarrows(t: Tables, node: Node)
    requires AssignDomain(t, node).Some?
    ensures AssignDomain(t, node).value <= PatternLines(t, node.children[0].nodeType, node.children[1])
  {
    var d := PatternLines(t, node.children[0].nodeType, node.children[1]);
    if d != {} && node.children[2].children != [] {
      var expr := node.children[2];
      var wildCard := expr.nodeType == "EVERYTHING";
      var pattern := if wildCard then expr.children[0] else expr;
      forall x | x in Kept(t, d, pattern, wildCard) ensures x in d {
        KeptMeaning(t, d, pattern, wildCard, x);
      }
    }
  }

  /** One more line checked without raising. */
  lemma KeptStep(t: Tables, d: Domain, todo: Domain, x: string, pattern: Node, wildCard: bool)
    requires todo <= d && x in todo && LineCheck(t, x, pattern, wildCard).Some?
    ensures d - (todo - {x}) == (d - todo) + {x}
    ensures Kept(t, d - (todo - {x}), pattern, wildCard) ==
      Kept(t, d - todo, pattern, wildCard) + (if LineCheck(t, x, pattern, wildCard).value then {x} else {})
  {
    assert d - (todo - {x}) == (d - todo) + {x};
  }

  /** The loop of `pattern_assign_check` (lines 228-238), which stops at the first line that raises. */
  method CheckLoop(t: Tables, d: Domain, pattern: Node, wildCard: bool) returns (failed: bool, kept: Domain)
    ensures failed <==> CheckFails(t, d, pattern, wildCard)
    ensures !failed ==> kept == Kept(t, d, pattern, wildCard)
  {
    kept := {};
    var todo := d;
    while todo != {}
      invariant todo <= d
      invariant forall x :: x in d - todo ==> LineCheck(t, x, pattern, wildCard).Some?
      invariant kept == Kept(t, d - todo, pattern, wildCard)
      decreases |todo|
    {
      ghost var some := SetFacts.Pick(todo);
      var x :| x in todo;
      var check := LineCheck(t, x, pattern, wildCard);
      if check.None? {
        return true, {};
      }
      KeptStep(t, d, todo, x, pattern, wildCard);
      if check.value {
        kept := kept + {x};
      }
      todo := todo - {x};
    }
    assert d - todo == d;
    failed := false;
  }

  // ---------------------------------------------------------------------
  // With clauses
  // ---------------------------------------------------------------------

  /** `int(s)` on a query literal: None (ValueError) unless the text is digits. */
  function ParseInt(s: string): (r: Option<nat>)
    ensures r.Some? <==> IsDigits(s)
    ensures forall n: nat :: s == NatText(n) ==> r == Some(n)
  {
    forall n: nat | s == NatText(n) ensures IsDigits(s) && DigitsValue(s) == n {
      NatTextRoundTrip(n);
    }
    if IsDigits(s) then Some(DigitsValue(s)) else None
  }

  /** The names a name attribute ranges over: procedure names for a call or procedure, variable names otherwise. */
  function NameSet(t: Tables, kind: string): Domain
  {
    if kind in {"CALL", "PROCEDURE"} then set p | p in t.procs else set v | v in t.vars
  }

  /**
   * The domain a with-clause `left = right` gives the left synonym
   * (`attr_analysis`, lines 488-545). None when `int()` rejects the
   * literal. Two branches are stated as evidently intended rather than as
   * written: a statement number is kept when the statement exists (line 495
   * also keeps 0), and a constant's lines are looked up by the synonym's
   * kind (line 532 passes the synonym's name).
   */
  function AttrDomain(t: Tables, left: Node, right: Node): Option<Domain>
  {
    if right.nodeType == "INTEGER" then
      if left.nodeType == "PROG_LINE" then Some({right.value})
      else match ParseInt(right.value)
        case None => None
        case Some(n) =>
          var present :=
            if left.nodeType == "CONSTANT" then n in t.consts
            else if left.nodeType == "STMT" then HasLine(t.rows, n)
            else n in LinesOfType(t.rows, left.nodeType);
          Some(if present then {right.value} else {})
    else if right.nodeType == "IDENT_QUOTE" then
      if left.nodeType == "PROCEDURE" then Some(if right.value in t.procs then {right.value} else {})
      else if left.nodeType == "VARIABLE" then Some(if right.value in t.vars then {right.value} else {})
      else Some(LineTexts(t.linesByValue(left.nodeType, right.value)))
    else if right.nodeType == "CONSTANT" then
      if left.nodeType == "STMT" then Some(ConstantLines(t, c => HasLine(t.rows, c)))
      else Some(ConstantLines(t, c => c in LinesOfType(t.rows, left.nodeType)))
    else Some(NameSet(t, left.nodeType) * NameSet(t, right.nodeType))
  }

  /** The constants that pass a test, as texts. */
  function ConstantLines(t: Tables, test: int -> bool): Domain
  {
    set c | c in t.consts && test(c) :: IntText(c)
  }

  /** A literal on the right fixes the synonym to that literal or to nothing. */
  lemma AttrLiteralAtMostOne(t: Tables, left: Node, right: Node)
    requires right.nodeType == "INTEGER" || (right.nodeType == "IDENT_QUOTE" && left.nodeType in {"PROCEDURE", "VARIABLE"})
    requires AttrDomain(t, left, right).Some?
    ensures AttrDomain(t, left, right).value <= {right.value}
  {
  }

  /** `s.stmt# = n` keeps `n` exactly when statement `n` exists. */
  lemma AttrStatementMeaning(t: Tables, left: Node, right: Node, n: nat)
    requires left.nodeType == "STMT" && right.nodeType == "INTEGER" && right.value == NatText(n)
    ensures AttrDomain(t, left, right) == Some(if HasLine(t.rows, n) then {NatText(n)} else {})
  {
  }

  /** `a.stmt# = c.value` keeps the constants that are lines of the synonym's kind. */
  lemma AttrConstantMeaning(t: Tables, left: Node, right: Node, x: string)
    requires right.nodeType == "CONSTANT" && left.nodeType != "STMT"
    ensures x in AttrDomain(t, left, right).value <==>
      exists c :: c in t.consts && c in LinesOfType(t.rows, left.nodeType) && x == IntText(c)
  {
  }

  /** Comparing two name attributes keeps the names both sides range over. */
  lemma AttrNamesMeaning(t: Tables, left: Node, right: Node, x: string)
    requires right.nodeType !in {"INTEGER", "IDENT_QUOTE", "CONSTANT"}
    ensures x in AttrDomain(t, left, right).value <==> x in NameSet(t, left.nodeType) && x in NameSet(t, right.nodeType)
  {
  }

  /** Line 495 as written: a statement number is kept when it does not exceed the table's size. */
  function AttrStatementAsWritten(t: Tables, right: Node): Option<Domain>
  {
    match ParseInt(right.value)
    case None => None
    case Some(n) => Some(if n <= |t.rows| then {right.value} else {})
  }

  /** Line 532 as written: the constant's lines are looked up by the synonym's name. */
  function AttrConstantAsWritten(t: Tables, left: Node): Domain
  {
    ConstantLines(t, c => c in LinesOfType(t.rows, left.value))
  }

  /** A program whose only statement is an assignment at line 1, with the constant 1 and the procedure `main`. */
  function OneAssignment(): Tables
  {
    Tables([Row(1, map["name" := "ASSIGN"])], ["main"], ["x"], [1],
      (k, v) => [], x => None, map[])
  }

  /** `stmt s; Select s with s.stmt# = 0` keeps the statement 0, which does not exist. */
  lemma AttrStatementAcceptsZero()
    ensures AttrStatementAsWritten(OneAssignment(), Node("INTEGER", "0", 0, [])) == Some({"0"})
    ensures AttrDomain(OneAssignment(), Node("STMT", "s", 0, []), Node("INTEGER", "0", 0, [])) == Some({})
  {
    var t := OneAssignment();
    assert IsDigits("0") && DigitsValue("0") == 0 by {
      assert "0" == NatText(0);
      NatTextRoundTrip(0);
    }
    assert !HasLine(t.rows, 0);
  }

  /** `assign a; constant c; Select a with a.stmt# = c.value` loses the assignment at line 1. */
  lemma AttrConstantMissesLine()
    ensures AttrConstantAsWritten(OneAssignment(), Node("ASSIGN", "a", 0, [])) == {}
    ensures AttrDomain(OneAssignment(), Node("ASSIGN", "a", 0, []), Node("CONSTANT", "c", 0, [])) == Some({IntText(1)})
  {
    var t := OneAssignment();
    assert LinesOfType(t.rows, "a") == [] by {
      assert KindOf(t.rows[0]) == Some("ASSIGN");
      assert "ASSIGN" != "a";
    }
    assert LinesOfType(t.rows, "ASSIGN") == [1];
    var lines := ConstantLines(t, c => c in LinesOfType(t.rows, "ASSIGN"));
    assert IntText(1) in lines by {
      assert 1 in t.consts && 1 in LinesOfType(t.rows, "ASSIGN");
    }
    assert lines == {IntText(1)};
  }

  // ---------------------------------------------------------------------
  // The reply
  // ---------------------------------------------------------------------

  /** The universe an unconstrained select target lists, in table order (lines 124-134). */
  function Universe(t: Tables, kind: string): seq<string>
  {
    if kind in {"STMT", "PROG_LINE"} then LineWords(AllLines(t.rows))
    else if kind == "PROCEDURE" then t.procs
    else if kind == "VARIABLE" then t.vars
    else if kind == "CONSTANT" then LineWords(t.consts)
    else LineWords(LinesOfType(t.rows, kind))
  }

  /**
   * What `evaluate_query` answers: a boolean, a list of values in a
   * given order, the values of a domain in the order the set yields them,
   * or "none".
   */
  datatype Reply = Flag(holds: bool) | Words(items: seq<string>) | Listing(values: Domain) | NoneReply

  /**
   * Lines 120-137 as written: `results['BOOLEAN']` raises KeyError (None)
   * when no pattern or with clause has run.
   */
  function ResolveAsWritten(t: Tables, select: (string, string), boolean: Option<bool>, results: map<string, Domain>): Option<Reply>
  {
    if boolean.None? then None
    else if select.0 == "BOOLEAN" then Some(Flag(boolean.value))
    else if !boolean.value then Some(NoneReply)
    else if select.1 !in results then Some(Words(Universe(t, select.0)))
    else Some(Listing(results[select.1]))
  }

  /** Lines 120-137 with BOOLEAN read as `results.get('BOOLEAN', True)`, as the pattern clauses read it. */
  function Resolve(t: Tables, select: (string, string), boolean: Option<bool>, results: map<string, Domain>): (r: Reply)
    ensures boolean.Some? ==> ResolveAsWritten(t, select, boolean, results) == Some(r)
  {
    var holds := boolean != Some(false);
    if select.0 == "BOOLEAN" then Flag(holds)
    else if !holds then NoneReply
    else if select.1 !in results then Words(Universe(t, select.0))
    else Listing(results[select.1])
  }

  /** `Select BOOLEAN such that Parent(1, 2)` when the clause holds: the code raises KeyError where "true" is meant. */
  lemma BooleanWithoutFilterRaises(t: Tables, results: map<string, Domain>)
    ensures ResolveAsWritten(t, ("BOOLEAN", ""), None, results) == None
    ensures Resolve(t, ("BOOLEAN", ""), None, results) == Flag(true)
  {
  }

  /** Without a false BOOLEAN the reply is never "none" nor "false": those come only from an unsatisfiable clause. */
  lemma ResolveNeverNegative(t: Tables, select: (string, string), boolean: Option<bool>, results: map<string, Domain>)
    requires boolean != Some(false)
    ensures Resolve(t, select, boolean, results) != NoneReply
    ensures Resolve(t, select, boolean, results) != Flag(false)
  {
  }

  /** `', '.join(items)`. */
  function Join(items: seq<string>): string
  {
    if items == [] then "" else if |items| == 1 then items[0] else items[0] + ", " + Join(items[1..])
  }

  predicate Distinct(xs: seq<string>)
  {
    forall i, j :: 0 <= i < j < |xs| ==> xs[i] != xs[j]
  }

  /** `text` is how Python prints the reply, a domain's values in some order. */
  ghost predicate Renders(reply: Reply, text: string)
  {
    match reply
    case Flag(b) => text == (if b then "true" else "false")
    case Words(items) => text == Join(items)
    case Listing(values) => exists xs :: Distinct(xs) && (set x | x in xs) == values && text == Join(xs)
    case NoneReply => text == "none"
  }

  /** The values of a domain, each once, in the order a loop over the set meets them. */
  method Enumerate(d: Domain) returns (xs: seq<string>)
    ensures Distinct(xs) && (set x | x in xs) == d
  {
    xs := [];
    var todo := d;
    while todo != {}
      invariant todo <= d && Distinct(xs)
      invariant (set x | x in xs) == d - todo
      decreases |todo|
    {
      ghost var some := SetFacts.Pick(todo);
      var x :| x in todo;
      assert (set y | y in xs + [x]) == (set y | y in xs) + {x};
      xs := xs + [x];
      todo := todo - {x};
    }
  }

  method Render(reply: Reply) returns (text: string)
    ensures Renders(reply, text)
  {
    match reply
    case Flag(b) => text := if b then "true" else "false";
    case Words(items) => text := Join(items);
    case Listing(values) =>
      var xs := Enumerate(values);
      text := Join(xs);
    case NoneReply => text := "none";
  }

  // ---------------------------------------------------------------------
  // The evaluator
  // ---------------------------------------------------------------------

  /** The results-table calls `choosing_an_argument` makes for one argument. */
  function Declared(arg: Node): seq<Entry>
  {
    if arg.nodeType in LiteralTypes then [] else [Declare(arg.value, arg.nodeType)]
  }

  /** How `evaluate_query` ends: with its text, or with the exception it lets escape. */
  datatype Outcome = Answered(text: string) | Unsatisfied | Failed

  // ---------------------------------------------------------------------
  // The evaluator's steps, as functions of its state
  // ---------------------------------------------------------------------

  /** The evaluator's state: the synonym domains, BOOLEAN, the select target and the results-table log. */
  datatype State = State(results: map<string, Domain>, boolean: Option<bool>, select: (string, string), log: seq<Entry>)

  /** The BOOLEAN update closing both pattern kinds (lines 187-191 and 217-221). */
  function Settle(st: State, syn: string): (Status, State)
    requires syn in st.results
  {
    if st.results[syn] != {} && st.boolean != Some(false) then (Continue, st.(boolean := Some(true)))
    else (Unsatisfiable, st.(boolean := Some(false)))
  }

  /** `pattern_while_or_if` (lines 168-191). */
  function WhileOrIfStep(t: Tables, st: State, node: Node): (Status, State)
  {
    if |node.children| == 0 then (Fault, st)
    else
      var syn := node.children[0].value;
      var declared := st.(log := st.log + [Declare(syn, node.children[0].nodeType)]);
      if |node.children| < 2 then (Fault, declared)
      else
        var d := PatternLines(t, node.children[0].nodeType, node.children[1]);
        Settle(declared.(log := declared.log + [Update("PATTERN", syn, d)], results := declared.results[syn := d]), syn)
  }

  /** `pattern_assign_check` (lines 223-242). */
  function AssignCheckStep(t: Tables, st: State, syn: string, expr: Node, wildCard: bool): (r: (Status, State))
    requires syn in st.results
    ensures syn in r.1.results
  {
    if expr.children == [] then (Continue, st)
    else
      var pattern := if wildCard then expr.children[0] else expr;
      if CheckFails(t, st.results[syn], pattern, wildCard) then (Fault, st)
      else
        var kept := Kept(t, st.results[syn], pattern, wildCard);
        (Continue, st.(log := st.log + [Update("PATTERN", syn, kept)], results := st.results[syn := kept]))
  }

  /** `pattern_assign` (lines 193-221). */
  function AssignStep(t: Tables, st: State, node: Node): (Status, State)
  {
    if |node.children| == 0 then (Fault, st)
    else
      var syn := node.children[0].value;
      var declared := st.(log := st.log + [Declare(syn, node.children[0].nodeType)]);
      if |node.children| < 2 then (Fault, declared)
      else
        var d := PatternLines(t, node.children[0].nodeType, node.children[1]);
        var filled := declared.(log := declared.log + [Update("PATTERN", syn, d)], results := declared.results[syn := d]);
        if d == {} then Settle(filled, syn)
        else if |node.children| < 3 then (Fault, filled)
        else
          var expr := node.children[2];
          var checked := AssignCheckStep(t, filled, syn, expr, expr.nodeType == "EVERYTHING");
          if checked.0 == Fault then checked else Settle(checked.1, syn)
  }

  /** `attr_analysis` (lines 487-551). */
  function AttrStep(t: Tables, st: State, node: Node): (Status, State)
  {
    if |node.children| < 2 then (Fault, st)
    else
      match AttrDomain(t, node.children[0], node.children[1])
      case None => (Fault, st)
      case Some(d) =>
        var narrowed := st.(results := st.results[node.children[0].value := d]);
        if d != {} then (Continue, narrowed.(boolean := Some(true))) else (Unsatisfiable, narrowed.(boolean := Some(false)))
  }

  /** `relation_preparation` with `execution_of_relation` (lines 267-440). */
  function RelationStep(t: Tables, st: State, node: Node): (Status, State)
  {
    if |node.children| < 2 then (Fault, st)
    else
      var a, b := node.children[0], node.children[1];
      var declared := st.(log := st.log + Declared(a) + Declared(b));
      if node.nodeType !in t.relations then (Fault, declared)
      else
        match JoinEntries(t.relations[node.nodeType], node.nodeType,
                          ChooseArgument(st.results, a.nodeType, a.value), ChooseArgument(st.results, b.nodeType, b.value))
        case None => (Unsatisfiable, declared)
        case Some(entries) => (Continue, declared.(log := declared.log + entries))
  }

  /** The three kinds of clause group: with, pattern and such that. */
  datatype ClauseKind = WithKind | PatternKind | RelationKind

  /** One clause of a group of the given kind (`pattern_analysis` picks the pattern kind, lines 162-166). */
  function ClauseStep(t: Tables, k: ClauseKind, st: State, node: Node): (Status, State)
  {
    match k
    case WithKind => AttrStep(t, st, node)
    case PatternKind => if node.nodeType in {"PATTERN_WHILE", "PATTERN_IF"} then WhileOrIfStep(t, st, node) else AssignStep(t, st, node)
    case RelationKind => RelationStep(t, st, node)
  }

  /** The clauses of a group in order; the first that does not continue ends the group. */
  function Fold(t: Tables, k: ClauseKind, st: State, clauses: seq<Node>): (Status, State)
  {
    if clauses == [] then (Continue, st)
    else
      var r := Fold(t, k, st, clauses[..|clauses| - 1]);
      if r.0 != Continue then r else ClauseStep(t, k, r.1, clauses[|clauses| - 1])
  }

  /** `distribution_of_tasks` (lines 139-155). */
  function DistributeStep(t: Tables, st: State, root: Node): (Status, State)
  {
    if root.nodeType == "RESULT" then
      if root.children == [] then (Fault, st)
      else (Continue, st.(select := (root.children[0].nodeType, root.children[0].value)))
    else if root.nodeType == "WITH" then Fold(t, WithKind, st, root.children)
    else if root.nodeType == "PATTERN" then Fold(t, PatternKind, st, root.children)
    else if root.nodeType == "SUCH_THAT" then
      match ClauseOrder.SuchThatOrder(root.children)
      case None => (Fault, st)
      case Some(order) => Fold(t, RelationKind, st, order)
    else (Continue, st)
  }

  /** The groups of a query in order (lines 117-118); the first that does not continue ends the query. */
  function QueryFold(t: Tables, st: State, groups: seq<Node>): (Status, State)
  {
    if groups == [] then (Continue, st)
    else
      var r := QueryFold(t, st, groups[..|groups| - 1]);
      if r.0 != Continue then r else DistributeStep(t, r.1, groups[|groups| - 1])
  }

  /** One more clause of a group: the fold over the first `i + 1` clauses extends the fold over the first `i`. */
  lemma FoldNext(t: Tables, k: ClauseKind, st: State, clauses: seq<Node>, i: nat)
    requires i < |clauses|
    ensures var r := Fold(t, k, st, clauses[..i]);
      Fold(t, k, st, clauses[..i + 1]) == if r.0 != Continue then r else ClauseStep(t, k, r.1, clauses[i])
  {
    assert clauses[..i + 1][..i] == clauses[..i];
  }

  /** One more group of a query: the fold over the first `i + 1` groups extends the fold over the first `i`. */
  lemma QueryNext(t: Tables, st: State, groups: seq<Node>, i: nat)
    requires i < |groups|
    ensures var r := QueryFold(t, st, groups[..i]);
      QueryFold(t, st, groups[..i + 1]) == if r.0 != Continue then r else DistributeStep(t, r.1, groups[i])
  {
    assert groups[..i + 1][..i] == groups[..i];
  }

  /** Once a group has stopped, the clauses after the stop change nothing. */
  lemma {:induction false} FoldStops(t: Tables, k: ClauseKind, st: State, clauses: seq<Node>, i: nat)
    requires i <= |clauses| && Fold(t, k, st, clauses[..i]).0 != Continue
    ensures Fold(t, k, st, clauses) == Fold(t, k, st, clauses[..i])
    decreases |clauses| - i
  {
    if i == |clauses| {
      assert clauses[..i] == clauses;
    } else {
      var init := clauses[..|clauses| - 1];
      assert init[..i] == clauses[..i];
      FoldStops(t, k, st, init, i);
    }
  }

  /** Once a group has stopped the query, the groups after it change nothing. */
  lemma {:induction false} QueryStops(t: Tables, st: State, groups: seq<Node>, i: nat)
    requires i <= |groups| && QueryFold(t, st, groups[..i]).0 != Continue
    ensures QueryFold(t, st, groups) == QueryFold(t, st, groups[..i])
    decreases |groups| - i
  {
    if i == |groups| {
      assert groups[..i] == groups;
    } else {
      var init := groups[..|groups| - 1];
      assert init[..i] == groups[..i];
      QueryStops(t, st, init, i);
    }
  }

  /**
   * How one clause ends, computed from the program tables alone (and, for a
   * relation, the domains it reads): a with clause fails on a malformed
   * attribute and is unsatisfiable on an empty domain; a pattern clause
   * likewise on its final domain; a relation clause raises on an unknown
   * relation and is unsatisfiable when the join reports None.
   */
  function ClauseStatus(t: Tables, k: ClauseKind, results: map<string, Domain>, node: Node): Status
  {
    match k
    case WithKind =>
      if |node.children| < 2 then Fault
      else
        (match AttrDomain(t, node.children[0], node.children[1])
         case None => Fault
         case Some(d) => if d == {} then Unsatisfiable else Continue)
    case PatternKind =>
      if node.nodeType in {"PATTERN_WHILE", "PATTERN_IF"} then
        if |node.children| < 2 then Fault
        else if PatternLines(t, node.children[0].nodeType, node.children[1]) == {} then Unsatisfiable
        else Continue
      else
        (match AssignDomain(t, node)
         case None => Fault
         case Some(d) => if d == {} then Unsatisfiable else Continue)
    case RelationKind =>
      if |node.children| < 2 || node.nodeType !in t.relations then Fault
      else
        var a, b := node.children[0], node.children[1];
        if JoinEntries(t.relations[node.nodeType], node.nodeType,
                       ChooseArgument(results, a.nodeType, a.value), ChooseArgument(results, b.nodeType, b.value)).None?
        then Unsatisfiable
        else Continue
  }

  /**
   * One clause: the select target never changes and the log only grows; a
   * with clause leaves the log alone and a relation clause the domains and
   * BOOLEAN; a with or pattern clause that continues leaves its synonym a
   * non-empty domain and BOOLEAN true.
   */
  lemma StepFrame(t: Tables, k: ClauseKind, st: State, node: Node)
    ensures var r := ClauseStep(t, k, st, node);
      && r.1.select == st.select && st.log <= r.1.log
      && (k == WithKind ==> r.1.log == st.log)
      && (k == RelationKind ==> r.1.results == st.results && r.1.boolean == st.boolean)
      && (r.0 == Continue && k != RelationKind ==>
            && r.1.boolean == Some(true)
            && |node.children| >= 1 && node.children[0].value in r.1.results && r.1.results[node.children[0].value] != {})
  {
    match k
    case WithKind =>
    case PatternKind =>
      if node.nodeType in {"PATTERN_WHILE", "PATTERN_IF"} {
        WhileOrIfFrame(t, st, node);
      } else {
        AssignFrame(t, st, node);
      }
    case RelationKind =>
  }

  lemma WhileOrIfFrame(t: Tables, st: State, node: Node)
    ensures var r := WhileOrIfStep(t, st, node);
      && r.1.select == st.select && st.log <= r.1.log
      && (r.0 == Continue ==>
            && r.1.boolean == Some(true)
            && |node.children| >= 1 && node.children[0].value in r.1.results && r.1.results[node.children[0].value] != {})
  {
  }

  lemma AssignFrame(t: Tables, st: State, node: Node)
    ensures var r := AssignStep(t, st, node);
      && r.1.select == st.select && st.log <= r.1.log
      && (r.0 == Continue ==>
            && r.1.boolean == Some(true)
            && |node.children| >= 1 && node.children[0].value in r.1.results && r.1.results[node.children[0].value] != {})
  {
  }

  /** Unless a pattern clause meets a BOOLEAN already false, a clause ends as ClauseStatus says. */
  lemma StepStatus(t: Tables, k: ClauseKind, st: State, node: Node)
    requires k == PatternKind ==> st.boolean != Some(false)
    ensures ClauseStep(t, k, st, node).0 == ClauseStatus(t, k, st.results, node)
  {
    match k
    case WithKind =>
    case PatternKind =>
      if node.nodeType !in {"PATTERN_WHILE", "PATTERN_IF"} {
        AssignStatus(t, st, node);
      }
    case RelationKind =>
  }

  /** `pattern_assign` raises exactly when AssignDomain is None, and otherwise continues on a non-empty domain. */
  lemma AssignStatus(t: Tables, st: State, node: Node)
    requires st.boolean != Some(false)
    ensures AssignStep(t, st, node).0 ==
      match AssignDomain(t, node)
      case None => Fault
      case Some(d) => if d == {} then Unsatisfiable else Continue
  {
    if |node.children| >= 3 {
      var d := PatternLines(t, node.children[0].nodeType, node.children[1]);
      var expr := node.children[2];
      if d != {} && expr.children != [] {
        var wildCard := expr.nodeType == "EVERYTHING";
        var pattern := if wildCard then expr.children[0] else expr;
        assert AssignDomain(t, node) == (if CheckFails(t, d, pattern, wildCard) then None else Some(Kept(t, d, pattern, wildCard)));
      }
    }
  }

  /**
   * A group never changes the select target and only adds to the log; a
   * with group adds nothing to it, and a such-that group leaves the domains
   * and BOOLEAN alone.
   */
  lemma {:induction false} FoldFrame(t: Tables, k: ClauseKind, st: State, clauses: seq<Node>)
    ensures var r := Fold(t, k, st, clauses);
      && r.1.select == st.select && st.log <= r.1.log
      && (k == WithKind ==> r.1.log == st.log)
      && (k == RelationKind ==> r.1.results == st.results && r.1.boolean == st.boolean)
  {
    if clauses != [] {
      var init := clauses[..|clauses| - 1];
      FoldFrame(t, k, st, init);
      var r := Fold(t, k, st, init);
      if r.0 == Continue {
        StepFrame(t, k, r.1, clauses[|clauses| - 1]);
      }
    }
  }

  /** Each of `clauses` names a synonym as its first child, and that synonym has a non-empty domain. */
  predicate Filled(clauses: seq<Node>, results: map<string, Domain>)
  {
    forall i :: 0 <= i < |clauses| ==>
      |clauses[i].children| >= 1 && clauses[i].children[0].value in results &&
      results[clauses[i].children[0].value] != {}
  }

  /** A with or pattern group that continues leaves BOOLEAN true and each clause's synonym a non-empty domain. */
  lemma {:induction false} FoldNonEmpty(t: Tables, k: ClauseKind, st: State, clauses: seq<Node>)
    requires k != RelationKind
    ensures var r := Fold(t, k, st, clauses);
      r.0 == Continue ==> (clauses == [] || r.1.boolean == Some(true)) && Filled(clauses, r.1.results)
  {
    if clauses != [] {
      var init := clauses[..|clauses| - 1];
      var last := clauses[|clauses| - 1];
      FoldNonEmpty(t, k, st, init);
      var r := Fold(t, k, st, init);
      if r.0 == Continue && ClauseStep(t, k, r.1, last).0 == Continue {
        StepFills(t, k, r.1, clauses);
      }
    }
  }

  /** A with or pattern clause that continues sets BOOLEAN true and fills its own synonym, keeping the earlier ones filled. */
  lemma StepFills(t: Tables, k: ClauseKind, st: State, clauses: seq<Node>)
    requires k != RelationKind && clauses != [] && Filled(clauses[..|clauses| - 1], st.results)
    requires ClauseStep(t, k, st, clauses[|clauses| - 1]).0 == Continue
    ensures var r := ClauseStep(t, k, st, clauses[|clauses| - 1]);
      r.1.boolean == Some(true) && Filled(clauses, r.1.results)
  {
    var init, node := clauses[..|clauses| - 1], clauses[|clauses| - 1];
    StepFrame(t, k, st, node);
    PersistsNonEmpty(t, k, st, node, init);
    assert forall i :: 0 <= i < |init| ==> init[i] == clauses[i];
  }

  /** The ending of each clause, read against fixed domains. */
  function Statuses(t: Tables, k: ClauseKind, results: map<string, Domain>, clauses: seq<Node>): (r: seq<Status>)
    ensures |r| == |clauses| && forall i :: 0 <= i < |clauses| ==> r[i] == ClauseStatus(t, k, results, clauses[i])
  {
    if clauses == [] then []
    else Statuses(t, k, results, clauses[..|clauses| - 1]) + [ClauseStatus(t, k, results, clauses[|clauses| - 1])]
  }

  /** The first ending that is not Continue, or Continue. */
  function FirstStop(ss: seq<Status>): Status
  {
    if ss == [] then Continue
    else
      var s := FirstStop(ss[..|ss| - 1]);
      if s != Continue then s else ss[|ss| - 1]
  }

  /** FirstStop is Continue exactly when every ending is, and otherwise the first ending that is not. */
  lemma {:induction false} FirstStopMeaning(ss: seq<Status>)
    ensures FirstStop(ss) == Continue <==> forall i :: 0 <= i < |ss| ==> ss[i] == Continue
    ensures FirstStop(ss) != Continue ==>
      exists i :: 0 <= i < |ss| && ss[i] == FirstStop(ss) && forall j :: 0 <= j < i ==> ss[j] == Continue
  {
    if ss != [] {
      var init := ss[..|ss| - 1];
      FirstStopMeaning(init);
      assert forall i :: 0 <= i < |init| ==> init[i] == ss[i];
    }
  }

  /**
   * A group ends as the first of its clauses' ClauseStatus endings, read
   * against the domains on entry, that is not Continue; a pattern group is
   * read so from a BOOLEAN that is not already false.
   */
  lemma {:induction false} FoldMatchesStatus(t: Tables, k: ClauseKind, st: State, clauses: seq<Node>)
    requires k == PatternKind ==> st.boolean != Some(false)
    ensures Fold(t, k, st, clauses).0 == FirstStop(Statuses(t, k, st.results, clauses))
  {
    if clauses != [] {
      var init := clauses[..|clauses| - 1];
      var last := clauses[|clauses| - 1];
      FoldMatchesStatus(t, k, st, init);
      var ss := Statuses(t, k, st.results, clauses);
      assert ss[..|ss| - 1] == Statuses(t, k, st.results, init);
      var r := Fold(t, k, st, init);
      if r.0 == Continue {
        FoldFrame(t, k, st, init);
        if k == PatternKind {
          FoldNonEmpty(t, k, st, init);
        }
        StepStatus(t, k, r.1, last);
        assert ClauseStatus(t, k, r.1.results, last) == ClauseStatus(t, k, st.results, last);
      }
    }
  }

  /**
   * A group ends as its first clause that does not continue, each clause's
   * ending read by ClauseStatus against the domains on entry, and it
   * continues exactly when every clause does (both directions). A pattern
   * group is read so from a BOOLEAN that is not already false.
   */
  lemma FoldStatus(t: Tables, k: ClauseKind, st: State, clauses: seq<Node>)
    requires k == PatternKind ==> st.boolean != Some(false)
    ensures var r := Fold(t, k, st, clauses);
      && (r.0 == Continue <==> forall i :: 0 <= i < |clauses| ==> ClauseStatus(t, k, st.results, clauses[i]) == Continue)
      && (r.0 != Continue ==>
            exists i :: 0 <= i < |clauses| && ClauseStatus(t, k, st.results, clauses[i]) == r.0 &&
              forall j :: 0 <= j < i ==> ClauseStatus(t, k, st.results, clauses[j]) == Continue)
  {
    FoldMatchesStatus(t, k, st, clauses);
    FirstStopMeaning(Statuses(t, k, st.results, clauses));
  }

  /** A with or pattern clause that continues leaves the earlier clauses' synonyms non-empty. */
  lemma PersistsNonEmpty(t: Tables, k: ClauseKind, st: State, node: Node, earlier: seq<Node>)
    requires k != RelationKind && ClauseStep(t, k, st, node).0 == Continue
    requires forall i :: 0 <= i < |earlier| ==>
      |earlier[i].children| >= 1 && earlier[i].children[0].value in st.results &&
      st.results[earlier[i].children[0].value] != {}
    ensures forall i :: 0 <= i < |earlier| ==>
      var r := ClauseStep(t, k, st, node);
      earlier[i].children[0].value in r.1.results && r.1.results[earlier[i].children[0].value] != {}
  {
    StepFrame(t, k, st, node);
    forall i | 0 <= i < |earlier|
      ensures earlier[i].children[0].value in ClauseStep(t, k, st, node).1.results
    {
      Narrowing(t, k, st, node, earlier[i].children[0].value);
    }
  }

  /** A clause only writes its own synonym's domain. */
  lemma Narrowing(t: Tables, k: ClauseKind, st: State, node: Node, x: string)
    requires x in st.results
    ensures var r := ClauseStep(t, k, st, node);
      x in r.1.results && (|node.children| == 0 || x != node.children[0].value ==> r.1.results[x] == st.results[x])
  {
  }
  /**
   * One group: only a result group sets the select target, failing exactly
   * when it has no child; only with and pattern groups touch the domains and
   * BOOLEAN; a such-that group whose clauses cannot be sorted fails; the log
   * only grows; a group that continues never turns BOOLEAN false; any other
   * node is skipped.
   */
  lemma DistributeFacts(t: Tables, st: State, root: Node)
    ensures var r := DistributeStep(t, st, root);
      && st.log <= r.1.log
      && (root.nodeType != "RESULT" ==> r.1.select == st.select)
      && (root.nodeType == "RESULT" ==> (r.0 == Fault <==> root.children == []))
      && (root.nodeType == "RESULT" && root.children != [] ==>
            r.1.select == (root.children[0].nodeType, root.children[0].value))
      && (root.nodeType !in {"WITH", "PATTERN"} ==> r.1.results == st.results && r.1.boolean == st.boolean)
      && (root.nodeType == "SUCH_THAT" && ClauseOrder.SuchThatOrder(root.children).None? ==> r.0 == Fault)
      && (r.0 == Continue && st.boolean != Some(false) ==> r.1.boolean != Some(false))
      && (root.nodeType !in {"RESULT", "WITH", "PATTERN", "SUCH_THAT"} ==> r == (Continue, st))
  {
    if root.nodeType == "WITH" {
      FoldFrame(t, WithKind, st, root.children);
      FoldNonEmpty(t, WithKind, st, root.children);
    } else if root.nodeType == "PATTERN" {
      FoldFrame(t, PatternKind, st, root.children);
      FoldNonEmpty(t, PatternKind, st, root.children);
    } else if root.nodeType == "SUCH_THAT" && ClauseOrder.SuchThatOrder(root.children).Some? {
      FoldFrame(t, RelationKind, st, ClauseOrder.SuchThatOrder(root.children).value);
    }
  }

  /** The select target after the groups `groups`: the first child of the last result group, if any. */
  predicate SelectedBy(groups: seq<Node>, before: (string, string), select: (string, string))
  {
    if forall i :: 0 <= i < |groups| ==> groups[i].nodeType != "RESULT" then select == before
    else
      exists i :: 0 <= i < |groups| && groups[i].nodeType == "RESULT" && groups[i].children != [] &&
        select == (groups[i].children[0].nodeType, groups[i].children[0].value) &&
        forall j :: i < j < |groups| ==> groups[j].nodeType != "RESULT"
  }

  /**
   * A query of groups: the log only grows; without with and pattern groups
   * the domains and BOOLEAN are those on entry; a run that continues keeps a
   * BOOLEAN that was not false.
   */
  lemma {:induction false} QueryFoldFrame(t: Tables, st: State, groups: seq<Node>)
    ensures var r := QueryFold(t, st, groups);
      && st.log <= r.1.log
      && ((forall i :: 0 <= i < |groups| ==> groups[i].nodeType !in {"WITH", "PATTERN"}) ==>
            r.1.results == st.results && r.1.boolean == st.boolean)
      && (r.0 == Continue && st.boolean != Some(false) ==> r.1.boolean != Some(false))
  {
    if groups != [] {
      var init := groups[..|groups| - 1];
      QueryFoldFrame(t, st, init);
      assert forall i :: 0 <= i < |init| ==> init[i] == groups[i];
      var r := QueryFold(t, st, init);
      if r.0 == Continue {
        DistributeFacts(t, r.1, groups[|groups| - 1]);
      }
    }
  }

  /** A query run that continues selects the target of its last result group, or keeps the one on entry. */
  lemma {:induction false} QuerySelects(t: Tables, st: State, groups: seq<Node>)
    ensures var r := QueryFold(t, st, groups);
      r.0 == Continue ==> SelectedBy(groups, st.select, r.1.select)
  {
    if groups != [] {
      var init := groups[..|groups| - 1];
      var last := groups[|groups| - 1];
      var r := QueryFold(t, st, init);
      if r.0 == Continue {
        QuerySelects(t, st, init);
        DistributeFacts(t, r.1, last);
        if DistributeStep(t, r.1, last).0 == Continue {
          SelectStep(init, last, st.select, r.1.select, DistributeStep(t, r.1, last).1.select);
          assert init + [last] == groups;
        }
      }
    }
  }

  /** The select target after one more group. */
  lemma SelectStep(init: seq<Node>, last: Node, before: (string, string), mid: (string, string), after: (string, string))
    requires SelectedBy(init, before, mid)
    requires last.nodeType != "RESULT" ==> after == mid
    requires last.nodeType == "RESULT" ==> last.children != [] && after == (last.children[0].nodeType, last.children[0].value)
    ensures SelectedBy(init + [last], before, after)
  {
    var groups := init + [last];
    if last.nodeType == "RESULT" {
      assert groups[|init|] == last;
    } else if forall i :: 0 <= i < |init| ==> init[i].nodeType != "RESULT" {
      assert forall i :: 0 <= i < |groups| ==> groups[i].nodeType != "RESULT" by {
        forall i | 0 <= i < |groups| ensures groups[i].nodeType != "RESULT" {
          if i < |init| { assert groups[i] == init[i]; }
        }
      }
    } else {
      var i :| 0 <= i < |init| && init[i].nodeType == "RESULT" && init[i].children != [] &&
        mid == (init[i].children[0].nodeType, init[i].children[0].value) &&
        forall j :: i < j < |init| ==> init[j].nodeType != "RESULT";
      assert groups[i] == init[i];
      assert forall j :: i < j < |groups| ==> groups[j].nodeType != "RESULT" by {
        forall j | i < j < |groups| ensures groups[j].nodeType != "RESULT" {
          if j < |init| { assert groups[j] == init[j]; }
        }
      }
    }
  }

  /** The join `execution_of_relation` computes, by the loops of lines 307-440; it changes nothing. */
  method Execute(rel: Relation, relation: string, first: Arg, second: Arg) returns (entries: Option<seq<Entry>>)
    ensures entries == JoinEntries(rel, relation, first, second)
  {
    match (first, second)
    case (Bound(n1, s1), Bound(n2, s2)) =>
      var left, right := JoinLoop(rel.setAndSet, s1, s2);
      var index := Index(relation, n1, n2);
      entries := Some([Update(index, n1, left), Update(index, n2, right)]);
    case (Bound(n1, s1), Free(n2, k2)) =>
      var keys, union := GatherLoop(a => rel.setAndFree(a, k2), s1);
      var index := Index(relation, n1, n2);
      entries := Some([Update(index, n1, keys), Update(index, n2, union)]);
    case (Bound(n1, s1), Literal(q)) =>
      var kept := FilterLoop(a => rel.setAndQuery(a, q), s1);
      assert kept == set a | a in s1 && rel.setAndQuery(a, q);
      var index := Index(relation, n1, "CONST");
      entries := Some([Update(index, n1, kept), UpdateConst(index, q)]);
    case (Free(n1, k1), Bound(n2, s2)) =>
      var keys, union := GatherLoop(b => rel.freeAndSet(k1, b), s2);
      var index := Index(relation, n1, n2);
      entries := Some([Update(index, n1, union), Update(index, n2, keys)]);
    case (Free(n1, k1), Free(n2, k2)) =>
      var pair := rel.freeAndFree(k1, k2);
      var index := Index(relation, n1, n2);
      entries := Some([Update(index, n1, pair.0), Update(index, n2, pair.1)]);
    case (Free(n1, k1), Literal(q)) =>
      var index := Index(relation, n1, "CONST");
      entries := Some([Update(index, n1, rel.freeAndQuery(k1, q)), UpdateConst(index, q)]);
    case (Literal(q), Bound(n2, s2)) =>
      var kept := FilterLoop(b => rel.queryAndSet(q, b), s2);
      assert kept == set b | b in s2 && rel.queryAndSet(q, b);
      var index := Index(relation, "CONST", n2);
      entries := Some([UpdateConst(index, q), Update(index, n2, kept)]);
    case (Literal(q), Free(n2, k2)) =>
      var index := Index(relation, "CONST", n2);
      entries := Some([UpdateConst(index, q), Update(index, n2, rel.queryAndFree(q, k2))]);
    case (Literal(q1), Literal(q2)) =>
      entries := if rel.queryAndQuery(q1, q2) then Some([]) else None;
  }

  /**
   * `QueryEvaluator`: the synonym domains and the BOOLEAN flag of
   * `self.results`, the select target, and the calls made on the results
   * table, over fixed program tables.
   */
  class Evaluator {
    const tables: Tables
    /** The synonym domains of `self.results`. */
    var results: map<string, Domain>
    /** `self.results['BOOLEAN']`, None while it is unset. */
    var boolean: Option<bool>
    /** The select target's kind and name. */
    var select: (string, string)
    /** The calls made on the results table, oldest first. */
    var log: seq<Entry>

    constructor(tables: Tables)
      ensures this.tables == tables && results == map[] && boolean == None && select == ("", "") && log == []
    {
      this.tables := tables;
      results := map[];
      boolean := None;
      select := ("", "");
      log := [];
    }

    /** The evaluator's state as a value. */
    function Snapshot(): State
      reads this
    {
      State(results, boolean, select, log)
    }

    /** The BOOLEAN update closing both pattern kinds (lines 187-191 and 217-221). */
    method SettlePattern(syn: string) returns (status: Status)
      requires syn in results
      modifies this
      ensures results == old(results) && log == old(log) && select == old(select)
      ensures status != Fault
      ensures status == Continue <==> results[syn] != {} && old(boolean) != Some(false)
      ensures boolean == Some(status == Continue)
      ensures (status, Snapshot()) == Settle(old(Snapshot()), syn)
    {
      if results[syn] != {} && boolean != Some(false) {
        boolean := Some(true);
        status := Continue;
      } else {
        boolean := Some(false);
        status := Unsatisfiable;
      }
    }

    /** `pattern_while_or_if` (lines 168-191). */
    method PatternWhileOrIf(node: Node) returns (status: Status)
      modifies this
      ensures select == old(select)
      ensures |node.children| < 2 ==> status == Fault && results == old(results) && boolean == old(boolean)
      ensures |node.children| == 0 ==> log == old(log)
      ensures |node.children| == 1 ==> log == old(log) + [Declare(node.children[0].value, node.children[0].nodeType)]
      ensures |node.children| >= 2 ==>
        var syn := node.children[0].value;
        var d := PatternLines(tables, node.children[0].nodeType, node.children[1]);
        && log == old(log) + [Declare(syn, node.children[0].nodeType), Update("PATTERN", syn, d)]
        && results == old(results)[syn := d]
        && status != Fault
        && (status == Continue <==> d != {} && old(boolean) != Some(false))
        && boolean == Some(status == Continue)
      ensures (status, Snapshot()) == WhileOrIfStep(tables, old(Snapshot()), node)
    {
      if |node.children| == 0 {
        return Fault;
      }
      var syn := node.children[0].value;
      log := log + [Declare(syn, node.children[0].nodeType)];
      if |node.children| < 2 {
        return Fault;
      }
      var d := PatternLines(tables, node.children[0].nodeType, node.children[1]);
      log := log + [Update("PATTERN", syn, d)];
      results := results[syn := d];
      status := SettlePattern(syn);
    }

    /** `pattern_assign_check` (lines 223-242): keeps the lines whose right side matches. */
    method PatternAssignCheck(syn: string, expr: Node, wildCard: bool) returns (status: Status)
      requires syn in results
      modifies this
      ensures boolean == old(boolean) && select == old(select)
      ensures status != Unsatisfiable
      ensures expr.children == [] ==> status == Continue && results == old(results) && log == old(log)
      ensures expr.children != [] ==>
        var pattern := if wildCard then expr.children[0] else expr;
        var kept := Kept(tables, old(results)[syn], pattern, wildCard);
        && (status == Fault <==> CheckFails(tables, old(results)[syn], pattern, wildCard))
        && (status == Fault ==> results == old(results) && log == old(log))
        && (status == Continue ==> results == old(results)[syn := kept] && log == old(log) + [Update("PATTERN", syn, kept)])
      ensures (status, Snapshot()) == AssignCheckStep(tables, old(Snapshot()), syn, expr, wildCard)
    {
      if expr.children == [] {
        return Continue;
      }
      var pattern := if wildCard then expr.children[0] else expr;
      var failed, kept := CheckLoop(tables, results[syn], pattern, wildCard);
      if failed {
        return Fault;
      }
      log := log + [Update("PATTERN", syn, kept)];
      results := results[syn := kept];
      status := Continue;
    }

    /** `pattern_assign` (lines 193-221). */
    method PatternAssign(node: Node) returns (status: Status)
      modifies this
      ensures select == old(select)
      ensures |node.children| == 0 ==> status == Fault && log == old(log)
      ensures status == Fault <==> AssignDomain(tables, node).None?
      ensures status == Fault ==> boolean == old(boolean)
      ensures status == Fault && |node.children| < 2 ==> results == old(results)
      ensures status == Fault && |node.children| >= 2 ==>
        results == old(results)[node.children[0].value := PatternLines(tables, node.children[0].nodeType, node.children[1])]
      ensures status != Fault ==>
        var syn := node.children[0].value;
        var d := AssignDomain(tables, node).value;
        && results == old(results)[syn := d]
        && (status == Continue <==> d != {} && old(boolean) != Some(false))
        && boolean == Some(status == Continue)
        && old(log) <= log
      ensures (status, Snapshot()) == AssignStep(tables, old(Snapshot()), node)
    {
      if |node.children| == 0 {
        return Fault;
      }
      var syn := node.children[0].value;
      log := log + [Declare(syn, node.children[0].nodeType)];
      if |node.children| < 2 {
        return Fault;
      }
      var d := PatternLines(tables, node.children[0].nodeType, node.children[1]);
      log := log + [Update("PATTERN", syn, d)];
      results := results[syn := d];
      if d != {} {
        if |node.children| < 3 {
          return Fault;
        }
        var expr := node.children[2];
        status := PatternAssignCheck(syn, expr, expr.nodeType == "EVERYTHING");
        if status == Fault {
          return Fault;
        }
      }
      status := SettlePattern(syn);
    }

    /** `attr_analysis` (lines 487-551): one with clause. */
    method AttrAnalysis(node: Node) returns (status: Status)
      modifies this
      ensures log == old(log) && select == old(select)
      ensures |node.children| < 2 ==> status == Fault && results == old(results) && boolean == old(boolean)
      ensures |node.children| >= 2 ==>
        var d := AttrDomain(tables, node.children[0], node.children[1]);
        && (status == Fault <==> d.None?)
        && (d.None? ==> results == old(results) && boolean == old(boolean))
        && (d.Some? ==>
             && results == old(results)[node.children[0].value := d.value]
             && (status == Continue <==> d.value != {})
             && boolean == Some(status == Continue))
      ensures (status, Snapshot()) == AttrStep(tables, old(Snapshot()), node)
    {
      if |node.children| < 2 {
        return Fault;
      }
      var d := AttrDomain(tables, node.children[0], node.children[1]);
      if d.None? {
        return Fault;
      }
      results := results[node.children[0].value := d.value];
      if d.value != {} {
        boolean := Some(true);
        status := Continue;
      } else {
        boolean := Some(false);
        status := Unsatisfiable;
      }
    }

    /** `relation_preparation` (lines 267-278) with the relation lookup of `execution_of_relation`. */
    method RelationClause(node: Node) returns (status: Status)
      modifies this
      ensures results == old(results) && boolean == old(boolean) && select == old(select)
      ensures (status, Snapshot()) == RelationStep(tables, old(Snapshot()), node)
    {
      if |node.children| < 2 {
        return Fault;
      }
      var a, b := node.children[0], node.children[1];
      var first := ChooseArgument(results, a.nodeType, a.value);
      log := log + Declared(a);
      var second := ChooseArgument(results, b.nodeType, b.value);
      log := log + Declared(b);
      if node.nodeType !in tables.relations {
        return Fault;
      }
      var entries := Execute(tables.relations[node.nodeType], node.nodeType, first, second);
      if entries.None? {
        return Unsatisfiable;
      }
      log := log + entries.value;
      status := Continue;
    }

    /** The with clauses of a group, in order, stopping at the first that does not pass (lines 142-144). */
    method WithGroup(clauses: seq<Node>) returns (status: Status)
      modifies this
      ensures (status, Snapshot()) == Fold(tables, WithKind, old(Snapshot()), clauses)
      ensures log == old(log) && select == old(select)
      ensures status == Continue ==> boolean == old(boolean) || boolean == Some(true)
      ensures status == Continue ==> forall i :: 0 <= i < |clauses| ==>
        |clauses[i].children| >= 2 && clauses[i].children[0].value in results && results[clauses[i].children[0].value] != {}
    {
      var i := 0;
      while i < |clauses|
        invariant 0 <= i <= |clauses|
        invariant (Continue, Snapshot()) == Fold(tables, WithKind, old(Snapshot()), clauses[..i])
      {
        status := AttrAnalysis(clauses[i]);
        FoldNext(tables, WithKind, old(Snapshot()), clauses, i);
        if status != Continue {
          FoldStops(tables, WithKind, old(Snapshot()), clauses, i + 1);
          FoldFrame(tables, WithKind, old(Snapshot()), clauses);
          FoldNonEmpty(tables, WithKind, old(Snapshot()), clauses);
          FoldStatus(tables, WithKind, old(Snapshot()), clauses);
          return;
        }
        i := i + 1;
      }
      assert clauses[..i] == clauses;
      FoldFrame(tables, WithKind, old(Snapshot()), clauses);
      FoldNonEmpty(tables, WithKind, old(Snapshot()), clauses);
      FoldStatus(tables, WithKind, old(Snapshot()), clauses);
      status := Continue;
    }

    /** `pattern_analysis` (lines 162-166): one pattern clause, by the kind of its synonym. */
    method PatternAnalysis(node: Node) returns (status: Status)
      modifies this
      ensures (status, Snapshot()) == ClauseStep(tables, PatternKind, old(Snapshot()), node)
    {
      if node.nodeType in {"PATTERN_WHILE", "PATTERN_IF"} {
        status := PatternWhileOrIf(node);
      } else {
        status := PatternAssign(node);
      }
    }

    /** The pattern clauses of a group, in order, stopping at the first that does not pass (lines 145-147, 162-166). */
    method PatternGroup(clauses: seq<Node>) returns (status: Status)
      modifies this
      ensures (status, Snapshot()) == Fold(tables, PatternKind, old(Snapshot()), clauses)
      ensures select == old(select)
      ensures status == Continue ==> boolean == old(boolean) || boolean == Some(true)
      ensures status == Continue ==> forall i :: 0 <= i < |clauses| ==>
        |clauses[i].children| >= 1 && clauses[i].children[0].value in results && results[clauses[i].children[0].value] != {}
    {
      var i := 0;
      while i < |clauses|
        invariant 0 <= i <= |clauses|
        invariant (Continue, Snapshot()) == Fold(tables, PatternKind, old(Snapshot()), clauses[..i])
      {
        status := PatternAnalysis(clauses[i]);
        FoldNext(tables, PatternKind, old(Snapshot()), clauses, i);
        if status != Continue {
          FoldStops(tables, PatternKind, old(Snapshot()), clauses, i + 1);
          FoldFrame(tables, PatternKind, old(Snapshot()), clauses);
          FoldNonEmpty(tables, PatternKind, old(Snapshot()), clauses);
          return;
        }
        i := i + 1;
      }
      assert clauses[..i] == clauses;
      FoldFrame(tables, PatternKind, old(Snapshot()), clauses);
      FoldNonEmpty(tables, PatternKind, old(Snapshot()), clauses);
      status := Continue;
    }

    /** The relation clauses of a such-that group, in the given order. */
    method SuchThatGroup(clauses: seq<Node>) returns (status: Status)
      modifies this
      ensures (status, Snapshot()) == Fold(tables, RelationKind, old(Snapshot()), clauses)
      ensures results == old(results) && boolean == old(boolean) && select == old(select)
      ensures old(log) <= log
    {
      var i := 0;
      while i < |clauses|
        invariant 0 <= i <= |clauses|
        invariant (Continue, Snapshot()) == Fold(tables, RelationKind, old(Snapshot()), clauses[..i])
      {
        status := RelationClause(clauses[i]);
        FoldNext(tables, RelationKind, old(Snapshot()), clauses, i);
        if status != Continue {
          FoldStops(tables, RelationKind, old(Snapshot()), clauses, i + 1);
          FoldFrame(tables, RelationKind, old(Snapshot()), clauses);
          return;
        }
        i := i + 1;
      }
      assert clauses[..i] == clauses;
      FoldFrame(tables, RelationKind, old(Snapshot()), clauses);
      status := Continue;
    }

    /** `distribution_of_tasks` (lines 139-155): one group of the query. */
    method Distribute(root: Node) returns (status: Status)
      modifies this
      ensures (status, Snapshot()) == DistributeStep(tables, old(Snapshot()), root)
    {
      if root.nodeType == "RESULT" {
        if root.children == [] {
          return Fault;
        }
        select := (root.children[0].nodeType, root.children[0].value);
        status := Continue;
      } else if root.nodeType == "WITH" {
        status := WithGroup(root.children);
      } else if root.nodeType == "PATTERN" {
        status := PatternGroup(root.children);
      } else if root.nodeType == "SUCH_THAT" {
        var order := ClauseOrder.SuchThatOrder(root.children);
        if order.None? {
          return Fault;
        }
        status := SuchThatGroup(order.value);
      } else {
        status := Continue;
      }
    }

    /**
     * `evaluate_query` (lines 116-137): the groups in order, then the
     * reply, read with BOOLEAN defaulting to true. An unsatisfiable clause
     * ends it with Unsatisfied, a runtime error with Failed.
     */
    method EvaluateQuery(tree: Node) returns (out: Outcome)
      modifies this
      ensures var r := QueryFold(tables, old(Snapshot()), tree.children);
        && Snapshot() == r.1
        && (out == Unsatisfied <==> r.0 == Unsatisfiable)
        && (out == Failed <==> r.0 == Fault)
        && (out.Answered? ==> Renders(Resolve(tables, r.1.select, r.1.boolean, r.1.results), out.text))
      ensures out.Answered? && old(boolean) != Some(false) ==>
        Resolve(tables, select, boolean, results) != NoneReply && Resolve(tables, select, boolean, results) != Flag(false)
      ensures (forall i :: 0 <= i < |tree.children| ==> tree.children[i].nodeType !in {"WITH", "PATTERN"}) ==>
        results == old(results) && boolean == old(boolean)
    {
      QueryFoldFrame(tables, Snapshot(), tree.children);
      var i := 0;
      while i < |tree.children|
        invariant 0 <= i <= |tree.children|
        invariant (Continue, Snapshot()) == QueryFold(tables, old(Snapshot()), tree.children[..i])
      {
        var status := Distribute(tree.children[i]);
        QueryNext(tables, old(Snapshot()), tree.children, i);
        if status != Continue {
          QueryStops(tables, old(Snapshot()), tree.children, i + 1);
          return if status == Unsatisfiable then Unsatisfied else Failed;
        }
        i := i + 1;
      }
      assert tree.children[..i] == tree.children;
      var reply := Resolve(tables, select, boolean, results);
      if boolean != Some(false) {
        ResolveNeverNegative(tables, select, boolean, results);
      }
      var text := Render(reply);
      out := Answered(text);
    }
  }
}
