/**
 * What the parser records, as functions of the tree it returns. A statement
 * is ASSIGN [target, expression], CALL [], WHILE [condition, STMT_LIST] or
 * IF [condition, STMT_LIST, STMT_LIST]; the statement lists of a WHILE or an
 * IF are its blocks. Lines are handed out in pre-order, one per statement.
 */
module ParserFacts {
  import opened Ast

  predicate IsAssign(n: Node) { n.nodeType == "ASSIGN" && |n.children| == 2 }
  predicate IsCall(n: Node) { n.nodeType == "CALL" }
  predicate IsWhile(n: Node) { n.nodeType == "WHILE" && |n.children| == 2 }
  predicate IsIf(n: Node) { n.nodeType == "IF" && |n.children| == 3 }

  /** Statement kinds whose Modifies and Uses facts are copied to their container. */
  predicate Propagates(n: Node)
  {
    n.nodeType == "ASSIGN" || n.nodeType == "WHILE" || n.nodeType == "IF"
  }

  function Last(cs: seq<Node>): Node
    requires cs != []
  {
    cs[|cs| - 1]
  }

  function Init(cs: seq<Node>): seq<Node>
    requires cs != []
  {
    cs[..|cs| - 1]
  }

  // ----- numbering -----

  /** Number of statements in a statement's subtree. */
  function Size(n: Node): nat
  {
    if IsWhile(n) then 1 + ListSize(n.children[1].children)
    else if IsIf(n) then 1 + ListSize(n.children[1].children) + ListSize(n.children[2].children)
    else 1
  }

  function ListSize(cs: seq<Node>): nat
  {
    if cs == [] then 0 else ListSize(cs[..|cs| - 1]) + Size(cs[|cs| - 1])
  }

  /** `n` is numbered `first`, and its blocks continue the count in order. */
  predicate Numbered(n: Node, first: int)
  {
    && n.line == first
    && (IsWhile(n) ==> ListNumbered(n.children[1].children, first + 1))
    && (IsIf(n) ==>
          && ListNumbered(n.children[1].children, first + 1)
          && ListNumbered(n.children[2].children, first + 1 + ListSize(n.children[1].children)))
  }

  predicate ListNumbered(cs: seq<Node>, first: int)
  {
    cs == [] || (ListNumbered(cs[..|cs| - 1], first) && Numbered(cs[|cs| - 1], first + ListSize(cs[..|cs| - 1])))
  }

  // ----- Modifies and Uses -----

  /** Lines of the statements in `cs` whose facts flow to their container. */
  function PropLines(cs: seq<Node>): set<int>
  {
    set c | c in cs && Propagates(c) :: c.line
  }

  /** Facts of `facts` at propagating lines of `cs`, restated at `line`. */
  function Lift(facts: set<(string, int)>, line: int, cs: seq<Node>): set<(string, int)>
  {
    set p | p in facts && p.1 in PropLines(cs) :: (p.0, line)
  }

  function LineFacts(names: set<string>, line: int): set<(string, int)>
  {
    set x | x in names :: (x, line)
  }

  /** Recording one more name at `line` adds exactly that fact. */
  lemma LineFactsSnoc(prefix: seq<string>, x: string, line: int)
    ensures LineFacts((set v | v in prefix + [x]), line) == LineFacts((set v | v in prefix), line) + {(x, line)}
  {
  }

  function ModFacts(n: Node): set<(string, int)>
  {
    if IsAssign(n) then {(n.children[0].value, n.line)}
    else if IsWhile(n) then
      var b := n.children[1].children;
      ListMod(b) + Lift(ListMod(b), n.line, b)
    else if IsIf(n) then
      var t := n.children[1].children;
      var e := n.children[2].children;
      ListMod(t) + Lift(ListMod(t), n.line, t) + ListMod(e) + Lift(ListMod(e), n.line, e)
    else {}
  }

  function ListMod(cs: seq<Node>): set<(string, int)>
  {
    if cs == [] then {} else ListMod(cs[..|cs| - 1]) + ModFacts(cs[|cs| - 1])
  }

  /** Names at the NAME leaves of an expression. */
  function ExprNames(e: Node): set<string>
  {
    if e.children == [] then (if e.nodeType == "NAME" then {e.value} else {})
    else ExprListNames(e.children)
  }

  function ExprListNames(cs: seq<Node>): set<string>
  {
    if cs == [] then {} else ExprListNames(cs[..|cs| - 1]) + ExprNames(cs[|cs| - 1])
  }

  /**
   * The shape `expression` builds, without precedence: a leaf, or an
   * operator node whose left child is a leaf and whose right child is again
   * such an expression, every node on `line`.
   */
  predicate RightNested(e: Node, line: int)
  {
    && e.line == line
    && (e.children == [] ||
        (&& |e.children| == 2
         && e.children[0].children == [] && e.children[0].line == line
         && RightNested(e.children[1], line)))
  }

  /**
   * No operator node of the expression has type NAME. The parser builds an
   * operator from whatever token follows an operand, and a NAME operator
   * makes the next leaf a copy of it that records no Uses fact.
   */
  predicate NoNameOperators(e: Node)
  {
    e.children == [] || (e.nodeType != "NAME" && ListNoNameOperators(e.children))
  }

  predicate ListNoNameOperators(cs: seq<Node>)
  {
    cs == [] || (ListNoNameOperators(cs[..|cs| - 1]) && NoNameOperators(cs[|cs| - 1]))
  }

  /** Every assignment in the subtree has an expression without NAME operators. */
  predicate Plain(n: Node)
  {
    if IsAssign(n) then NoNameOperators(n.children[1])
    else if IsWhile(n) then ListPlain(n.children[1].children)
    else if IsIf(n) then ListPlain(n.children[1].children) && ListPlain(n.children[2].children)
    else true
  }

  predicate ListPlain(cs: seq<Node>)
  {
    cs == [] || (ListPlain(cs[..|cs| - 1]) && Plain(cs[|cs| - 1]))
  }

  function UseFacts(n: Node): set<(string, int)>
  {
    if IsAssign(n) then LineFacts(ExprNames(n.children[1]), n.line)
    else if IsWhile(n) then
      var b := n.children[1].children;
      {(n.children[0].value, n.line)} + ListUse(b) + Lift(ListUse(b), n.line, b)
    else if IsIf(n) then
      var t := n.children[1].children;
      var e := n.children[2].children;
      {(n.children[0].value, n.line)} + ListUse(t) + Lift(ListUse(t), n.line, t)
        + ListUse(e) + Lift(ListUse(e), n.line, e)
    else {}
  }

  function ListUse(cs: seq<Node>): set<(string, int)>
  {
    if cs == [] then {} else ListUse(cs[..|cs| - 1]) + UseFacts(cs[|cs| - 1])
  }

  // ----- Calls, Follows, Parent -----

  /** (caller, callee) pairs of the call statements in the subtree. */
  function CallFacts(n: Node, caller: string): set<(string, string)>
  {
    if IsCall(n) then {(caller, n.value)}
    else if IsWhile(n) then ListCalls(n.children[1].children, caller)
    else if IsIf(n) then ListCalls(n.children[1].children, caller) + ListCalls(n.children[2].children, caller)
    else {}
  }

  function ListCalls(cs: seq<Node>, caller: string): set<(string, string)>
  {
    if cs == [] then {} else ListCalls(cs[..|cs| - 1], caller) + CallFacts(cs[|cs| - 1], caller)
  }

  function FollowsFacts(n: Node): set<(int, int)>
  {
    if IsWhile(n) then ListFollows(n.children[1].children)
    else if IsIf(n) then ListFollows(n.children[1].children) + ListFollows(n.children[2].children)
    else {}
  }

  /** Consecutive statements of the list, plus the pairs nested in them. */
  function ListFollows(cs: seq<Node>): set<(int, int)>
  {
    if cs == [] then {}
    else
      var init := cs[..|cs| - 1];
      ListFollows(init) + FollowsFacts(cs[|cs| - 1])
        + (if init == [] then {} else {(init[|init| - 1].line, cs[|cs| - 1].line)})
  }

  function ChildPairs(line: int, cs: seq<Node>): set<(int, int)>
  {
    set c | c in cs :: (line, c.line)
  }

  function ParentFacts(n: Node): set<(int, int)>
  {
    if IsWhile(n) then
      ChildPairs(n.line, n.children[1].children) + ListParent(n.children[1].children)
    else if IsIf(n) then
      ChildPairs(n.line, n.children[1].children) + ListParent(n.children[1].children)
        + ChildPairs(n.line, n.children[2].children) + ListParent(n.children[2].children)
    else {}
  }

  function ListParent(cs: seq<Node>): set<(int, int)>
  {
    if cs == [] then {} else ListParent(cs[..|cs| - 1]) + ParentFacts(cs[|cs| - 1])
  }

  // ----- programs -----

  /** The statements of a PROCEDURE node (its one STMT_LIST child). */
  function Stmts(p: Node): seq<Node>
  {
    if |p.children| == 1 then p.children[0].children else []
  }

  function ProgSize(ps: seq<Node>): nat
  {
    if ps == [] then 0 else ProgSize(ps[..|ps| - 1]) + ListSize(Stmts(ps[|ps| - 1]))
  }

  /** Procedures continue one count of lines, in order. */
  predicate ProgNumbered(ps: seq<Node>, first: int)
  {
    ps == [] || (ProgNumbered(ps[..|ps| - 1], first) && ListNumbered(Stmts(ps[|ps| - 1]), first + ProgSize(ps[..|ps| - 1])))
  }

  function ProgMod(ps: seq<Node>): set<(string, int)>
  {
    if ps == [] then {} else ProgMod(ps[..|ps| - 1]) + ListMod(Stmts(ps[|ps| - 1]))
  }

  function ProgUse(ps: seq<Node>): set<(string, int)>
  {
    if ps == [] then {} else ProgUse(ps[..|ps| - 1]) + ListUse(Stmts(ps[|ps| - 1]))
  }

  function ProgFollows(ps: seq<Node>): set<(int, int)>
  {
    if ps == [] then {} else ProgFollows(ps[..|ps| - 1]) + ListFollows(Stmts(ps[|ps| - 1]))
  }

  function ProgParent(ps: seq<Node>): set<(int, int)>
  {
    if ps == [] then {} else ProgParent(ps[..|ps| - 1]) + ListParent(Stmts(ps[|ps| - 1]))
  }

  /** Calls made by each procedure, attributed to the procedure's name. */
  function ProgCalls(ps: seq<Node>): set<(string, string)>
  {
    if ps == [] then {} else ProgCalls(ps[..|ps| - 1]) + ListCalls(Stmts(ps[|ps| - 1]), ps[|ps| - 1].value)
  }

  predicate ProgPlain(ps: seq<Node>)
  {
    ps == [] || (ProgPlain(ps[..|ps| - 1]) && ListPlain(Stmts(ps[|ps| - 1])))
  }

  // ----- basic lemmas used by the parser's proof -----

  /** The statements of a numbered list carry lines from `first` on. */
  lemma {:induction false} ListNumberedLines(cs: seq<Node>, first: int)
    requires ListNumbered(cs, first)
    ensures forall c :: c in cs ==> first <= c.line < first + ListSize(cs)
  {
    if cs != [] {
      ListNumberedLines(cs[..|cs| - 1], first);
      forall c | c in cs ensures first <= c.line < first + ListSize(cs) {
        if c != cs[|cs| - 1] {
          var i :| 0 <= i < |cs| && cs[i] == c;
          assert c in cs[..|cs| - 1];
        }
      }
    }
  }

  /** Every fact sits at a line from 1 to `hi`. */
  predicate LinesUpTo(facts: set<(string, int)>, hi: int)
  {
    forall p :: p in facts ==> 1 <= p.1 <= hi
  }

  /** A fact at a line already counted keeps the bound. */
  lemma LinesUpToAdd(facts: set<(string, int)>, x: string, line: int, hi: int)
    requires LinesUpTo(facts, hi) && 1 <= line <= hi
    ensures LinesUpTo(facts + {(x, line)}, hi)
  {
  }

  /** The names recorded at `line` in a fact set. */
  function AtLine(facts: set<(string, int)>, line: int): set<string>
  {
    set p | p in facts && p.1 == line :: p.0
  }

  /** A table query result, read as the facts at one line. */
  lemma QueryAtLine(names: seq<string>, facts: set<(string, int)>, line: int)
    requires forall v :: v in names <==> (v, line) in facts
    ensures (set v | v in names) == AtLine(facts, line)
  {
    forall v | v in AtLine(facts, line) ensures v in names {
      var p :| p in facts && p.1 == line && p.0 == v;
      assert (v, line) == p;
    }
  }

  /** Facts away from the propagating lines of `cs` lift to nothing. */
  lemma LiftIgnores(facts: set<(string, int)>, other: set<(string, int)>, line: int, cs: seq<Node>)
    requires forall p :: p in other ==> p.1 !in PropLines(cs)
    ensures Lift(other + facts, line, cs) == Lift(facts, line, cs)
  {
  }

  /** Lifted facts sit at `line`, so they leave every other line alone. */
  lemma AtLineAfterLift(facts: set<(string, int)>, line: int, cs: seq<Node>, other: int)
    requires other != line
    ensures AtLine(facts + Lift(facts, line, cs), other) == AtLine(facts, other)
  {
  }

  /** Adopting one more child adds that child's own facts, restated. */
  lemma LiftStep(facts: set<(string, int)>, line: int, cs: seq<Node>, k: nat)
    requires k < |cs|
    ensures Lift(facts, line, cs[..k + 1]) ==
      Lift(facts, line, cs[..k]) + (if Propagates(cs[k]) then LineFacts(AtLine(facts, cs[k].line), line) else {})
  {
    assert cs[..k + 1] == cs[..k] + [cs[k]];
    assert PropLines(cs[..k + 1]) == PropLines(cs[..k]) + (if Propagates(cs[k]) then {cs[k].line} else {});
  }

  lemma ChildPairsStep(line: int, cs: seq<Node>, k: nat)
    requires k < |cs|
    ensures ChildPairs(line, cs[..k + 1]) == ChildPairs(line, cs[..k]) + {(line, cs[k].line)}
  {
    assert cs[..k + 1] == cs[..k] + [cs[k]];
  }

  /** An operator node's names and operators are those of its two operands. */
  lemma OperatorNode(op: string, line: int, left: Node, right: Node)
    ensures ExprNames(Node(op, "", line, [left, right])) == ExprNames(left) + ExprNames(right)
    ensures NoNameOperators(Node(op, "", line, [left, right])) <==>
      op != "NAME" && NoNameOperators(left) && NoNameOperators(right)
  {
    var cs := [left, right];
    assert cs[..1] == [left] && [left][..0] == [];
    assert ExprListNames([left]) == ExprNames(left);
    assert ExprListNames(cs) == ExprListNames([left]) + ExprNames(right);
    assert ListNoNameOperators([left]) == NoNameOperators(left);
    assert ListNoNameOperators(cs) == (ListNoNameOperators([left]) && NoNameOperators(right));
  }

  /** The facts of an assignment node as the parser builds it. */
  lemma AssignNode(target: Node, value: Node, line: int)
    ensures var n := Node("ASSIGN", "", line, [target, value]);
      && IsAssign(n) && Numbered(n, line) && Size(n) == 1
      && ModFacts(n) == {(target.value, line)}
      && UseFacts(n) == LineFacts(ExprNames(value), line)
      && (Plain(n) <==> NoNameOperators(value))
      && FollowsFacts(n) == {} && ParentFacts(n) == {}
      && (forall caller :: CallFacts(n, caller) == {})
  {
  }

  /** Lifting over a block ignores facts at lines up to the container's. */
  lemma LiftAbove(base: set<(string, int)>, facts: set<(string, int)>, bound: int, line: int, block: seq<Node>)
    requires LinesUpTo(base, bound)
    requires forall c :: c in block ==> bound < c.line
    ensures Lift(base + facts, line, block) == Lift(facts, line, block)
  {
    LiftIgnores(facts, base, line, block);
  }

  /** Modifies and Uses facts of a numbered statement sit on its own lines. */
  lemma {:induction false} FactLines(n: Node, first: int)
    requires Numbered(n, first)
    ensures forall p :: p in ModFacts(n) ==> first <= p.1 < first + Size(n)
    ensures forall p :: p in UseFacts(n) ==> first <= p.1 < first + Size(n)
    decreases n, 1
  {
    if IsWhile(n) {
      ListFactLines(n.children[1].children, first + 1);
    } else if IsIf(n) {
      ListFactLines(n.children[1].children, first + 1);
      ListFactLines(n.children[2].children, first + 1 + ListSize(n.children[1].children));
    }
  }

  lemma {:induction false} ListFactLines(cs: seq<Node>, first: int)
    requires ListNumbered(cs, first)
    ensures forall p :: p in ListMod(cs) ==> first <= p.1 < first + ListSize(cs)
    ensures forall p :: p in ListUse(cs) ==> first <= p.1 < first + ListSize(cs)
    decreases cs, 0
  {
    if cs != [] {
      ListFactLines(cs[..|cs| - 1], first);
      FactLines(cs[|cs| - 1], first + ListSize(cs[..|cs| - 1]));
    }
  }

  /** The shape and numbering of a WHILE node as the parser builds it. */
  lemma WhileNode(cond: Node, list: Node, line: int, last: int)
    requires ListNumbered(list.children, line + 1) && last == line + ListSize(list.children)
    ensures var n := Node("WHILE", "", line, [cond, list]);
      && IsWhile(n) && Numbered(n, line) && last == line + Size(n) - 1
  {
  }

  /** The shape and numbering of an IF node as the parser builds it. */
  lemma IfNode(cond: Node, thenList: Node, elseList: Node, line: int, mid: int, last: int)
    requires ListNumbered(thenList.children, line + 1)
    requires mid == line + ListSize(thenList.children) && ListNumbered(elseList.children, mid + 1)
    requires last == mid + ListSize(elseList.children)
    ensures var n := Node("IF", "", line, [cond, thenList, elseList]);
      && IsIf(n) && Numbered(n, line) && last == line + Size(n) - 1
  {
  }

  /** One more statement at the end of a numbered list. */
  lemma NumberStep(kids: seq<Node>, stmt: Node, first: int, at: int)
    requires at == first + ListSize(kids)
    requires ListNumbered(kids, first) && Numbered(stmt, at)
    ensures ListNumbered(kids + [stmt], first) && ListSize(kids + [stmt]) == ListSize(kids) + Size(stmt)
  {
    assert (kids + [stmt])[..|kids|] == kids;
  }

  /** One more procedure at the end of a numbered program. */
  lemma ProgNumberStep(ps: seq<Node>, p: Node, base: int, at: int, last: int)
    requires at == base + 1 + ProgSize(ps)
    requires ProgNumbered(ps, base + 1) && ListNumbered(Stmts(p), at) && last == at - 1 + ListSize(Stmts(p))
    ensures ProgNumbered(ps + [p], base + 1) && last == base + ProgSize(ps + [p])
  {
    assert (ps + [p])[..|ps|] == ps;
  }

  // ----- the fact tables between two moments of a parse -----

  /**
   * The parser's fact tables at one moment, with the number of errors
   * reported so far and the procedure whose calls are being recorded.
   */
  datatype Tables = Tables(mod: set<(string, int)>, uses: set<(string, int)>, follows: set<(int, int)>,
                           parent: set<(int, int)>, calls: set<(string, string)>, errors: int, caller: string)

  /**
   * `s` is `r` with the given facts added: Modifies, Follows and Parent
   * always, Calls when no error was reported in between, and Uses when in
   * addition the parsed part is `plain` (see Plain).
   */
  predicate Grown(r: Tables, s: Tables, m: set<(string, int)>, u: set<(string, int)>, f: set<(int, int)>,
                  p: set<(int, int)>, c: set<(string, string)>, plain: bool)
  {
    && s.mod == r.mod + m
    && s.follows == r.follows + f
    && s.parent == r.parent + p
    && (s.errors == r.errors && plain ==> s.uses == r.uses + u)
    && (s.errors == r.errors ==> s.calls == r.calls + c)
    && s.errors >= r.errors
  }

  /** Parsing statement `n` adds its facts, its calls made by the current procedure. */
  predicate NodeAdded(r: Tables, s: Tables, n: Node)
  {
    s.caller == r.caller &&
    Grown(r, s, ModFacts(n), UseFacts(n), FollowsFacts(n), ParentFacts(n), CallFacts(n, r.caller), Plain(n))
  }

  /** Parsing the statement list `cs` adds its facts, its calls made by the current procedure. */
  predicate ListAdded(r: Tables, s: Tables, cs: seq<Node>)
  {
    s.caller == r.caller &&
    Grown(r, s, ListMod(cs), ListUse(cs), ListFollows(cs), ListParent(cs), ListCalls(cs, r.caller), ListPlain(cs))
  }

  /**
   * Parsing block `b` of the container at `line` adds the block's facts, the
   * container's Parent pairs, and the Modifies and Uses facts copied up.
   */
  predicate BlockAdded(r: Tables, s: Tables, line: int, b: seq<Node>)
  {
    s.caller == r.caller &&
    Grown(r, s, ListMod(b) + Lift(ListMod(b), line, b), ListUse(b) + Lift(ListUse(b), line, b),
          ListFollows(b), ChildPairs(line, b) + ListParent(b), ListCalls(b, r.caller), ListPlain(b))
  }

  /** Parsing procedure `p` adds the facts of its statements, its calls made by `p`. */
  predicate ProcAdded(r: Tables, s: Tables, p: Node)
  {
    var cs := Stmts(p);
    s.caller == p.value &&
    Grown(r, s, ListMod(cs), ListUse(cs), ListFollows(cs), ListParent(cs), ListCalls(cs, p.value), ListPlain(cs))
  }

  /** Parsing the procedures `ps` adds their facts. */
  predicate ProgAdded(r: Tables, s: Tables, ps: seq<Node>)
  {
    Grown(r, s, ProgMod(ps), ProgUse(ps), ProgFollows(ps), ProgParent(ps), ProgCalls(ps), ProgPlain(ps))
  }

  /** Only errors were reported in between (matching tokens records nothing). */
  predicate OnlyErrors(r: Tables, s: Tables)
  {
    s == r.(errors := s.errors) && s.errors >= r.errors
  }

  /** The condition of a WHILE or IF at `line` was recorded as used there. */
  predicate ConditionRecorded(r: Tables, s: Tables, cond: Node, line: int)
  {
    s == r.(uses := r.uses + {(cond.value, line)}, errors := s.errors) && s.errors >= r.errors
  }

  /** An assignment: its target and "=", its expression and the closing ";". */
  lemma AssignRecorded(target: Node, value: Node, line: int, r0: Tables, r1: Tables, r2: Tables, r3: Tables)
    requires r1 == r0.(mod := r0.mod + {(target.value, line)}, errors := r1.errors) && r1.errors >= r0.errors
    requires r2 == r1.(uses := r2.uses)
    requires r1.errors == r0.errors && NoNameOperators(value) ==> r2.uses == r1.uses + LineFacts(ExprNames(value), line)
    requires OnlyErrors(r2, r3)
    ensures NodeAdded(r0, r3, Node("ASSIGN", "", line, [target, value]))
  {
    AssignNode(target, value, line);
  }

  /** The statement-list loop: one more statement and its Follows link to the previous one. */
  lemma ListStep(r0: Tables, r1: Tables, r2: Tables, r3: Tables, kids: seq<Node>, stmt: Node)
    requires ListAdded(r0, r1, kids) && NodeAdded(r1, r2, stmt)
    requires r3 == r2.(follows := r2.follows + (if kids == [] then {} else {(Last(kids).line, stmt.line)}))
    ensures ListAdded(r0, r3, kids + [stmt])
  {
    assert (kids + [stmt])[..|kids|] == kids;
  }

  /** A statement list followed by the loop that adopts its statements into the container at `line`. */
  lemma BlockRecorded(r0: Tables, r1: Tables, r2: Tables, line: int, b: seq<Node>, bound: int)
    requires LinesUpTo(r0.mod, bound) && LinesUpTo(r0.uses, bound)
    requires forall c :: c in b ==> bound < c.line
    requires ListAdded(r0, r1, b)
    requires r2 == r1.(mod := r1.mod + Lift(r1.mod, line, b), uses := r1.uses + Lift(r1.uses, line, b),
                       parent := r1.parent + ChildPairs(line, b))
    ensures BlockAdded(r0, r2, line, b)
  {
    BlockFacts(r0.mod, ListMod(b), bound, line, b);
    BlockFacts(r0.uses, ListUse(b), bound, line, b);
  }

  /** A WHILE statement: its header, then its block and the closing bracket. */
  lemma WhileRecorded(cond: Node, list: Node, line: int, r0: Tables, r1: Tables, r2: Tables, r3: Tables)
    requires ConditionRecorded(r0, r1, cond, line)
    requires BlockAdded(r1, r2, line, list.children)
    requires OnlyErrors(r2, r3)
    ensures NodeAdded(r0, r3, Node("WHILE", "", line, [cond, list]))
  {
  }

  /** An IF statement: its header, the then-block, the tokens between, the else-block and the closing bracket. */
  lemma IfRecorded(cond: Node, thenList: Node, elseList: Node, line: int,
                   r0: Tables, r1: Tables, r2: Tables, r3: Tables, r4: Tables, r5: Tables)
    requires ConditionRecorded(r0, r1, cond, line)
    requires BlockAdded(r1, r2, line, thenList.children)
    requires OnlyErrors(r2, r3)
    requires BlockAdded(r3, r4, line, elseList.children)
    requires OnlyErrors(r4, r5)
    ensures NodeAdded(r0, r5, Node("IF", "", line, [cond, thenList, elseList]))
  {
    IfFacts(cond, thenList, elseList, line);
  }

  /** A procedure: its header (which names the current procedure), its statement list and the closing bracket. */
  lemma ProcedureRecorded(r0: Tables, r1: Tables, r2: Tables, r3: Tables, p: Node)
    requires r1 == r0.(caller := p.value, errors := r1.errors) && r1.errors >= r0.errors
    requires ListAdded(r1, r2, Stmts(p)) && OnlyErrors(r2, r3)
    ensures ProcAdded(r0, r3, p)
  {
  }

  /** The program loop: one more procedure. */
  lemma ProgStep(r0: Tables, r1: Tables, r2: Tables, ps: seq<Node>, p: Node)
    requires ProgAdded(r0, r1, ps) && ProcAdded(r1, r2, p)
    ensures ProgAdded(r0, r2, ps + [p])
  {
    assert (ps + [p])[..|ps|] == ps;
  }

  /** The facts of an IF node as the parser builds it, from those of its blocks. */
  lemma IfFacts(cond: Node, thenList: Node, elseList: Node, line: int)
    ensures var n := Node("IF", "", line, [cond, thenList, elseList]);
      var t := thenList.children;
      var e := elseList.children;
      && ModFacts(n) == (ListMod(t) + Lift(ListMod(t), line, t)) + (ListMod(e) + Lift(ListMod(e), line, e))
      && UseFacts(n) == {(cond.value, line)} + (ListUse(t) + Lift(ListUse(t), line, t))
                          + (ListUse(e) + Lift(ListUse(e), line, e))
      && FollowsFacts(n) == ListFollows(t) + ListFollows(e)
      && ParentFacts(n) == (ChildPairs(line, t) + ListParent(t)) + (ChildPairs(line, e) + ListParent(e))
      && (Plain(n) <==> ListPlain(t) && ListPlain(e))
      && (forall caller :: CallFacts(n, caller) == ListCalls(t, caller) + ListCalls(e, caller))
  {
  }

  /** The Modifies (or Uses) facts after parsing a block and adopting its statements. */
  lemma BlockFacts(m0: set<(string, int)>, f: set<(string, int)>, bound: int, line: int, block: seq<Node>)
    requires LinesUpTo(m0, bound)
    requires forall c :: c in block ==> bound < c.line
    ensures m0 + f + Lift(m0 + f, line, block) == m0 + (f + Lift(f, line, block))
  {
    LiftAbove(m0, f, bound, line, block);
  }

  // ----- propagation to every enclosing container -----

  /** `s` is a statement nested, at any depth, in a block of container `n`. */
  predicate Inside(s: Node, n: Node)
  {
    (IsWhile(n) && ListInside(s, n.children[1].children))
    || (IsIf(n) && (ListInside(s, n.children[1].children) || ListInside(s, n.children[2].children)))
  }

  /** `s` is one of the statements `cs` or nested in one of them. */
  predicate ListInside(s: Node, cs: seq<Node>)
  {
    cs != [] && (ListInside(s, cs[..|cs| - 1]) || cs[|cs| - 1] == s || Inside(s, cs[|cs| - 1]))
  }

  /** Each statement's facts are among those of its list. */
  lemma {:induction false} ListHas(cs: seq<Node>, c: Node)
    requires c in cs
    ensures ModFacts(c) <= ListMod(cs) && UseFacts(c) <= ListUse(cs)
  {
    if c != cs[|cs| - 1] {
      var i :| 0 <= i < |cs| && cs[i] == c;
      assert c in cs[..|cs| - 1];
      ListHas(cs[..|cs| - 1], c);
    }
  }

  /**
   * A name modified by a nested statement is modified by every container
   * around it: each container copies its children's facts to its own line.
   */
  lemma {:induction false} ModPropagates(s: Node, n: Node, v: string)
    requires Inside(s, n) && Propagates(s) && (v, s.line) in ModFacts(s)
    ensures (v, n.line) in ModFacts(n)
    decreases n, 1
  {
    var b := if ListInside(s, n.children[1].children) then n.children[1].children else n.children[2].children;
    var c := ListModCarrier(s, b, v);
    ListHas(b, c);
    assert (v, c.line) in ListMod(b) && c.line in PropLines(b);
    assert (v, n.line) in Lift(ListMod(b), n.line, b);
  }

  /** The propagating statement of `cs` through which `s`'s fact reaches the list. */
  lemma {:induction false} ListModCarrier(s: Node, cs: seq<Node>, v: string) returns (c: Node)
    requires ListInside(s, cs) && Propagates(s) && (v, s.line) in ModFacts(s)
    ensures c in cs && Propagates(c) && (v, c.line) in ModFacts(c)
    decreases cs, 0
  {
    var last := cs[|cs| - 1];
    if last == s {
      c := s;
    } else if Inside(s, last) {
      ModPropagates(s, last, v);
      c := last;
    } else {
      c := ListModCarrier(s, cs[..|cs| - 1], v);
      assert c in cs[..|cs| - 1];
    }
  }

  /** A name used by a nested statement is used by every container around it. */
  lemma {:induction false} UsePropagates(s: Node, n: Node, v: string)
    requires Inside(s, n) && Propagates(s) && (v, s.line) in UseFacts(s)
    ensures (v, n.line) in UseFacts(n)
    decreases n, 1
  {
    var b := if ListInside(s, n.children[1].children) then n.children[1].children else n.children[2].children;
    var c := ListUseCarrier(s, b, v);
    ListHas(b, c);
    assert (v, c.line) in ListUse(b) && c.line in PropLines(b);
    assert (v, n.line) in Lift(ListUse(b), n.line, b);
  }

  lemma {:induction false} ListUseCarrier(s: Node, cs: seq<Node>, v: string) returns (c: Node)
    requires ListInside(s, cs) && Propagates(s) && (v, s.line) in UseFacts(s)
    ensures c in cs && Propagates(c) && (v, c.line) in UseFacts(c)
    decreases cs, 0
  {
    var last := cs[|cs| - 1];
    if last == s {
      c := s;
    } else if Inside(s, last) {
      UsePropagates(s, last, v);
      c := last;
    } else {
      c := ListUseCarrier(s, cs[..|cs| - 1], v);
      assert c in cs[..|cs| - 1];
    }
  }

  // ----- the shape of the Follows and Parent facts -----

  /** Every pair of `f` lies between lines `lo` (included) and `hi` (excluded), its first line before its second. */
  predicate Within(f: set<(int, int)>, lo: int, hi: int)
  {
    forall p :: p in f ==> lo <= p.0 < p.1 < hi
  }

  /** No line has two partners on the right. */
  predicate Functional(f: set<(int, int)>)
  {
    forall p, q :: p in f && q in f && p.0 == q.0 ==> p.1 == q.1
  }

  /** No line has two partners on the left. */
  predicate Injective(f: set<(int, int)>)
  {
    forall p, q :: p in f && q in f && p.1 == q.1 ==> p.0 == q.0
  }

  lemma {:induction false} FollowsRange(n: Node, first: int)
    requires Numbered(n, first)
    ensures Within(FollowsFacts(n), first + 1, first + Size(n))
    decreases n, 1
  {
    if IsWhile(n) {
      ListFollowsRange(n.children[1].children, first + 1);
    } else if IsIf(n) {
      ListFollowsRange(n.children[1].children, first + 1);
      ListFollowsRange(n.children[2].children, first + 1 + ListSize(n.children[1].children));
    }
  }

  lemma {:induction false} ListFollowsRange(cs: seq<Node>, first: int)
    requires ListNumbered(cs, first)
    ensures Within(ListFollows(cs), first, first + ListSize(cs))
    decreases cs, 0
  {
    if cs != [] {
      var init := cs[..|cs| - 1];
      ListFollowsRange(init, first);
      FollowsRange(cs[|cs| - 1], first + ListSize(init));
      if init != [] {
        ListNumberedLines(init, first);
      }
    }
  }

  /** No Follows pair of a list starts at its last statement. */
  lemma LastLeadsNowhere(cs: seq<Node>, first: int)
    requires ListNumbered(cs, first) && cs != []
    ensures forall p :: p in ListFollows(cs) ==> p.0 != cs[|cs| - 1].line
  {
    var init := cs[..|cs| - 1];
    ListFollowsRange(init, first);
    FollowsRange(cs[|cs| - 1], first + ListSize(init));
    if init != [] {
      ListNumberedLines(init, first);
    }
  }

  /** Each statement follows at most one statement and is followed by at most one. */
  lemma {:induction false} FollowsOneToOne(n: Node, first: int)
    requires Numbered(n, first)
    ensures Functional(FollowsFacts(n)) && Injective(FollowsFacts(n))
    decreases n, 1
  {
    if IsWhile(n) {
      ListFollowsOneToOne(n.children[1].children, first + 1);
    } else if IsIf(n) {
      var mid := first + 1 + ListSize(n.children[1].children);
      ListFollowsOneToOne(n.children[1].children, first + 1);
      ListFollowsOneToOne(n.children[2].children, mid);
      ListFollowsRange(n.children[1].children, first + 1);
      ListFollowsRange(n.children[2].children, mid);
    }
  }

  lemma {:induction false} ListFollowsOneToOne(cs: seq<Node>, first: int)
    requires ListNumbered(cs, first)
    ensures Functional(ListFollows(cs)) && Injective(ListFollows(cs))
    decreases cs, 0
  {
    if cs != [] {
      var init := cs[..|cs| - 1];
      var mid := first + ListSize(init);
      ListFollowsOneToOne(init, first);
      FollowsOneToOne(cs[|cs| - 1], mid);
      ListFollowsRange(init, first);
      FollowsRange(cs[|cs| - 1], mid);
      if init != [] {
        ListNumberedLines(init, first);
        LastLeadsNowhere(init, first);
      }
    }
  }

  lemma {:induction false} ParentRange(n: Node, first: int)
    requires Numbered(n, first)
    ensures Within(ParentFacts(n), first, first + Size(n))
    decreases n, 1
  {
    if IsWhile(n) {
      ListParentRange(n.children[1].children, first + 1);
      ListNumberedLines(n.children[1].children, first + 1);
    } else if IsIf(n) {
      var mid := first + 1 + ListSize(n.children[1].children);
      ListParentRange(n.children[1].children, first + 1);
      ListNumberedLines(n.children[1].children, first + 1);
      ListParentRange(n.children[2].children, mid);
      ListNumberedLines(n.children[2].children, mid);
    }
  }

  lemma {:induction false} ListParentRange(cs: seq<Node>, first: int)
    requires ListNumbered(cs, first)
    ensures Within(ListParent(cs), first, first + ListSize(cs))
    decreases cs, 0
  {
    if cs != [] {
      ListParentRange(cs[..|cs| - 1], first);
      ParentRange(cs[|cs| - 1], first + ListSize(cs[..|cs| - 1]));
    }
  }

  /** The statements of a list are nobody's children in the list's own Parent pairs. */
  lemma {:induction false} ListParentSkipsTop(cs: seq<Node>, first: int)
    requires ListNumbered(cs, first)
    ensures forall p, c :: p in ListParent(cs) && c in cs ==> p.1 != c.line
  {
    if cs != [] {
      var init := cs[..|cs| - 1];
      var mid := first + ListSize(init);
      ListParentSkipsTop(init, first);
      ListParentRange(init, first);
      ParentRange(cs[|cs| - 1], mid);
      ListNumberedLines(init, first);
      forall p, c | p in ListParent(cs) && c in cs ensures p.1 != c.line {
        if c != cs[|cs| - 1] {
          var i :| 0 <= i < |cs| && cs[i] == c;
          assert c in init;
        }
      }
    }
  }

  /** Every statement has at most one container. */
  lemma {:induction false} ParentOnce(n: Node, first: int)
    requires Numbered(n, first)
    ensures Injective(ParentFacts(n))
    decreases n, 2
  {
    if IsWhile(n) {
      BlockParentOnce(n.line, n.children[1].children, first + 1);
    } else if IsIf(n) {
      BlockParentOnce(n.line, n.children[1].children, first + 1);
      BlockParentOnce(n.line, n.children[2].children, first + 1 + ListSize(n.children[1].children));
    }
  }

  /** A block's Parent pairs, with those of its container, give each child one container, and the children sit in the block's lines. */
  lemma {:induction false} BlockParentOnce(line: int, b: seq<Node>, first: int)
    requires ListNumbered(b, first)
    ensures Injective(ChildPairs(line, b) + ListParent(b))
    ensures forall p :: p in ChildPairs(line, b) + ListParent(b) ==> first <= p.1 < first + ListSize(b)
    decreases b, 1
  {
    ListParentOnce(b, first);
    ListParentSkipsTop(b, first);
    ListParentRange(b, first);
    ListNumberedLines(b, first);
  }

  lemma {:induction false} ListParentOnce(cs: seq<Node>, first: int)
    requires ListNumbered(cs, first)
    ensures Injective(ListParent(cs))
    decreases cs, 0
  {
    if cs != [] {
      var init := cs[..|cs| - 1];
      var mid := first + ListSize(init);
      ListParentOnce(init, first);
      ParentOnce(cs[|cs| - 1], mid);
      ListParentRange(init, first);
      ParentRange(cs[|cs| - 1], mid);
    }
  }

  /**
   * The Follows pairs of a numbered program go to later lines, and each line
   * has at most one successor and at most one predecessor.
   */
  lemma {:induction false} ProgFollowsShape(ps: seq<Node>, first: int)
    requires ProgNumbered(ps, first)
    ensures Within(ProgFollows(ps), first, first + ProgSize(ps))
    ensures Functional(ProgFollows(ps)) && Injective(ProgFollows(ps))
  {
    if ps != [] {
      var init := ps[..|ps| - 1];
      var at := first + ProgSize(init);
      ProgFollowsShape(init, first);
      ListFollowsRange(Stmts(ps[|ps| - 1]), at);
      ListFollowsOneToOne(Stmts(ps[|ps| - 1]), at);
    }
  }

  /** The Parent pairs of a numbered program go to later lines, and each line has at most one container. */
  lemma {:induction false} ProgParentShape(ps: seq<Node>, first: int)
    requires ProgNumbered(ps, first)
    ensures Within(ProgParent(ps), first, first + ProgSize(ps))
    ensures Injective(ProgParent(ps))
  {
    if ps != [] {
      var init := ps[..|ps| - 1];
      var at := first + ProgSize(init);
      ProgParentShape(init, first);
      ListParentRange(Stmts(ps[|ps| - 1]), at);
      ListParentOnce(Stmts(ps[|ps| - 1]), at);
    }
  }
}
