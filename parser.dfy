/**
 * The recursive-descent parser of the SIMPLE language. It reads a token
 * stream, returns the AST and fills the fact tables as it goes. Each parsing
 * method is specified by what it adds to the tables, as functions of the
 * subtree it returns (see ParserFacts).
 *
 * `errors` counts the calls of error(), which only print and do not advance.
 * `aborted` marks the point where the source recurses without end: an
 * expression that reaches the end of input builds an operator node from the
 * end-of-input token, whose match always succeeds, and calls itself again.
 */
module Parsing {
  import opened Ast
  import opened ParserFacts
  import opened ModifiesTables
  import opened UsesTables

  class Parser {
    const tokens: seq<Lexeme>
    const mod: ModifiesTable
    const uses: UsesTable
    /** Index of the next token in `tokens`. */
    var pos: nat
    var prevToken: Token
    var currentLine: int
    /** Name of the procedure being parsed ("" before the first). */
    var callProcedure: string
    var root: Node
    var follows: set<(int, int)>
    var parent: set<(int, int)>
    var calls: set<(string, string)>
    var procs: set<string>
    var varNames: set<string>
    var errors: nat
    var aborted: bool

    ghost predicate Valid()
      reads this, mod, uses
    {
      && mod.Valid() && uses.Valid()
      && pos <= |tokens|
      && currentLine >= 0
      && LinesUpTo(mod.cells, currentLine)
      && LinesUpTo(uses.cells, currentLine)
    }

    constructor (tokens: seq<Lexeme>, filename: string)
      ensures Valid()
      ensures this.tokens == tokens && pos == 0 && prevToken == EOF && currentLine == 0
      ensures callProcedure == "" && root == Node("PROGRAM", filename, 0, [])
      ensures mod.cells == {} && uses.cells == {} && follows == {} && parent == {} && calls == {}
      ensures procs == {} && varNames == {} && errors == 0 && !aborted
    {
      this.tokens := tokens;
      mod := new ModifiesTable();
      uses := new UsesTable();
      pos := 0;
      prevToken := EOF;
      currentLine := 0;
      callProcedure := "";
      root := Node("PROGRAM", filename, 0, []);
      follows := {};
      parent := {};
      calls := {};
      procs := {};
      varNames := {};
      errors := 0;
      aborted := false;
    }

    /** The lookahead token; the lexer yields ("", "") once input runs out. */
    function NextToken(): Token
      reads this
    {
      if pos < |tokens| then tokens[pos] else EOF
    }

    /** The fact tables as they stand, with the error count. */
    ghost function Snap(): Tables
      reads this`follows, this`parent, this`calls, this`errors, this`callProcedure, mod, uses
    {
      Tables(mod.cells, uses.cells, follows, parent, calls, errors, callProcedure)
    }

    /** Consumes the lookahead if it has the expected kind, else reports an error. */
    method Match(kind: string)
      requires Valid()
      modifies this`pos, this`prevToken, this`errors
      ensures Valid()
      ensures old(NextToken()).kind == kind ==>
        && prevToken == old(NextToken()) && errors == old(errors)
        && pos == (if old(pos) < |tokens| then old(pos) + 1 else old(pos))
      ensures old(NextToken()).kind != kind ==>
        prevToken == old(prevToken) && pos == old(pos) && errors == old(errors) + 1
      ensures OnlyErrors(old(Snap()), Snap())
    {
      if NextToken().kind == kind {
        prevToken := NextToken();
        if pos < |tokens| {
          pos := pos + 1;
        }
      } else {
        errors := errors + 1;
      }
    }

    /** Records Modifies(line, v) for each v of `names`, in order. */
    method RecordModifies(names: seq<string>, line: int)
      requires Valid() && 1 <= line <= currentLine
      modifies mod
      ensures Valid()
      ensures mod.cells == old(mod.cells) + LineFacts((set v | v in names), line)
    {
      var j := 0;
      while j < |names|
        invariant 0 <= j <= |names|
        invariant Valid()
        invariant mod.cells == old(mod.cells) + LineFacts((set v | v in names[..j]), line)
      {
        assert names[..j + 1] == names[..j] + [names[j]];
        LineFactsSnoc(names[..j], names[j], line);
        LinesUpToAdd(mod.cells, names[j], line, currentLine);
        mod.SetModifies(names[j], line);
        j := j + 1;
      }
      assert names[..j] == names;
    }

    /** Records Uses(line, v) for each v of `names`, in order. */
    method RecordUses(names: seq<string>, line: int)
      requires Valid() && 1 <= line <= currentLine
      modifies uses
      ensures Valid()
      ensures uses.cells == old(uses.cells) + LineFacts((set v | v in names), line)
    {
      var j := 0;
      while j < |names|
        invariant 0 <= j <= |names|
        invariant Valid()
        invariant uses.cells == old(uses.cells) + LineFacts((set v | v in names[..j]), line)
      {
        assert names[..j + 1] == names[..j] + [names[j]];
        LineFactsSnoc(names[..j], names[j], line);
        LinesUpToAdd(uses.cells, names[j], line, currentLine);
        uses.SetUses(names[j], line);
        j := j + 1;
      }
      assert names[..j] == names;
    }

    /**
     * One turn of the loop after a block: `child` gets `line` as its parent,
     * and if it is an ASSIGN, WHILE or IF its Modifies and Uses facts are
     * copied to `line`.
     */
    method AdoptChild(line: int, child: Node)
      requires Valid()
      requires 1 <= line <= currentLine && child.line != line
      modifies this`parent, mod, uses
      ensures Valid()
      ensures parent == old(parent) + {(line, child.line)}
      ensures mod.cells == old(mod.cells) +
        (if Propagates(child) then LineFacts(AtLine(old(mod.cells), child.line), line) else {})
      ensures uses.cells == old(uses.cells) +
        (if Propagates(child) then LineFacts(AtLine(old(uses.cells), child.line), line) else {})
    {
      parent := parent + {(line, child.line)};
      if Propagates(child) {
        var modified := mod.GetModified(child.line);
        QueryAtLine(modified, mod.cells, child.line);
        RecordModifies(modified, line);
        var used := uses.GetUsed(child.line);
        QueryAtLine(used, uses.cells, child.line);
        RecordUses(used, line);
      }
    }

    /** The loop that follows a block of a WHILE or an IF, over the whole block. */
    method AdoptChildren(line: int, block: seq<Node>)
      requires Valid()
      requires 1 <= line <= currentLine
      requires forall c :: c in block ==> line < c.line
      modifies this`parent, mod, uses
      ensures Valid()
      ensures parent == old(parent) + ChildPairs(line, block)
      ensures mod.cells == old(mod.cells) + Lift(old(mod.cells), line, block)
      ensures uses.cells == old(uses.cells) + Lift(old(uses.cells), line, block)
    {
      ghost var m0 := mod.cells;
      ghost var u0 := uses.cells;
      var k := 0;
      while k < |block|
        invariant 0 <= k <= |block|
        invariant Valid()
        invariant parent == old(parent) + ChildPairs(line, block[..k])
        invariant mod.cells == m0 + Lift(m0, line, block[..k])
        invariant uses.cells == u0 + Lift(u0, line, block[..k])
      {
        assert block[k] in block;
        AtLineAfterLift(m0, line, block[..k], block[k].line);
        AtLineAfterLift(u0, line, block[..k], block[k].line);
        AdoptChild(line, block[k]);
        ChildPairsStep(line, block, k);
        LiftStep(m0, line, block, k);
        LiftStep(u0, line, block, k);
        k := k + 1;
      }
      assert block[..k] == block;
    }

    /**
     * The leaf that starts an expression: a NAME (recorded as used on the
     * current line) or an INTEGER; on any other token the leaf repeats the
     * token consumed last and nothing is consumed.
     */
    method Operand() returns (left: Node)
      requires Valid() && currentLine >= 1
      modifies this`pos, this`prevToken, this`errors, uses
      ensures Valid() && errors == old(errors)
      ensures left.children == [] && left.line == currentLine
      ensures left.nodeType == prevToken.kind && left.value == prevToken.text
      ensures old(NextToken()).kind in {"NAME", "INTEGER"} ==> prevToken == old(NextToken()) && pos > old(pos)
      ensures old(NextToken()).kind !in {"NAME", "INTEGER"} ==> prevToken == old(prevToken) && pos == old(pos)
      ensures old(uses.cells) <= uses.cells <= old(uses.cells) + LineFacts(ExprNames(left), currentLine)
      ensures old(prevToken).kind != "NAME" ==> uses.cells == old(uses.cells) + LineFacts(ExprNames(left), currentLine)
    {
      if NextToken().kind == "NAME" {
        Match("NAME");
        uses.SetUses(prevToken.text, currentLine);
      } else if NextToken().kind == "INTEGER" {
        Match("INTEGER");
      }
      left := Node(prevToken.kind, prevToken.text, currentLine, []);
      assert ExprNames(left) == if prevToken.kind == "NAME" then {prevToken.text} else {};
    }

    /**
     * operand [operator expression]: an operand is a NAME (recording Uses) or
     * an INTEGER; any other lookahead leaves the previous token as the operand.
     * Any token but ";" after the operand becomes an operator node.
     */
    method Expression() returns (e: Node)
      requires Valid() && currentLine >= 1
      modifies this`pos, this`prevToken, this`errors, this`aborted, uses
      decreases |tokens| - pos
      ensures Valid()
      ensures errors == old(errors) && pos >= old(pos) && (old(aborted) ==> aborted)
      ensures old(uses.cells) <= uses.cells <= old(uses.cells) + LineFacts(ExprNames(e), currentLine)
      ensures old(prevToken).kind != "NAME" && NoNameOperators(e) ==>
        uses.cells == old(uses.cells) + LineFacts(ExprNames(e), currentLine)
      ensures old(NextToken()) == EOF ==> aborted
      ensures old(NextToken()) != EOF && old(NextToken()).kind != "SEMICOLON" ==> pos > old(pos)
      ensures RightNested(e, currentLine)
    {
      var left := Operand();
      if NextToken().kind != "SEMICOLON" {
        if NextToken() == EOF {
          aborted := true;
          e := left;
          return;
        }
        var op := NextToken().kind;
        Match(op);
        var right := Expression();
        e := Node(op, "", currentLine, [left, right]);
        OperatorNode(op, currentLine, left, right);
      } else {
        e := left;
      }
    }

    /**
     * NAME "=": the target of an assignment, recorded as modified at
     * `currentLine`. When the lookahead did not move, it is neither a NAME
     * nor "=".
     */
    method AssignTarget() returns (target: Node)
      requires Valid() && currentLine >= 1
      modifies this`pos, this`prevToken, this`errors, this`varNames, mod
      ensures Valid()
      ensures target.line == currentLine && target.value in varNames
      ensures varNames == old(varNames) + {target.value}
      ensures Snap() == old(Snap()).(mod := old(mod.cells) + {(target.value, currentLine)}, errors := errors)
      ensures errors >= old(errors) && (errors == old(errors) ==> prevToken.kind == "ASSIGN")
      ensures pos >= old(pos)
      ensures pos == old(pos) ==> NextToken() == old(NextToken()) && NextToken().kind != "NAME" && NextToken().kind != "ASSIGN"
    {
      Match("NAME");
      target := Node(prevToken.kind, prevToken.text, currentLine, []);
      varNames := varNames + {prevToken.text};
      mod.SetModifies(prevToken.text, currentLine);
      Match("ASSIGN");
    }

    /** NAME "=" expression ";" — numbered `currentLine`. */
    method Assignment() returns (n: Node)
      requires Valid() && currentLine >= 1
      modifies this`pos, this`prevToken, this`errors, this`aborted, this`varNames, mod, uses
      ensures Valid()
      ensures Numbered(n, old(currentLine)) && Size(n) == 1 && currentLine == old(currentLine)
      ensures IsAssign(n)
      ensures NodeAdded(old(Snap()), Snap(), n)
      ensures varNames == old(varNames) + {n.children[0].value}
      ensures pos >= old(pos) && (old(aborted) ==> aborted)
      ensures old(NextToken()) == EOF ==> aborted
      ensures old(NextToken()) != EOF ==> pos > old(pos)
    {
      var line := currentLine;
      var target := AssignTarget();
      ghost var r1 := Snap();
      var value := Expression();
      ghost var r2 := Snap();
      Match("SEMICOLON");
      n := Node("ASSIGN", "", line, [target, value]);
      AssignNode(target, value, line);
      AssignRecorded(target, value, line, old(Snap()), r1, r2, Snap());
    }

    /** "call" NAME ";" — Calls(current procedure, NAME). */
    method Call() returns (n: Node)
      requires Valid() && currentLine >= 1 && NextToken().kind == "CALL"
      modifies this`pos, this`prevToken, this`errors, this`calls
      ensures Valid()
      ensures Numbered(n, old(currentLine)) && Size(n) == 1 && currentLine == old(currentLine)
      ensures IsCall(n) && n.children == []
      ensures NodeAdded(old(Snap()), Snap(), n)
      ensures pos > old(pos) && aborted == old(aborted)
    {
      var line := currentLine;
      Match("CALL");
      calls := calls + {(callProcedure, NextToken().text)};
      Match("NAME");
      n := Node("CALL", prevToken.text, line, []);
      Match("SEMICOLON");
    }

    /**
     * The tokens before a block: `keywords` in order, with the condition NAME
     * after the first. The condition node is numbered `currentLine` and
     * recorded as used there.
     */
    method Header(keywords: seq<string>) returns (condition: Node)
      requires Valid() && currentLine >= 1 && |keywords| >= 1 && keywords[0] != "" && NextToken().kind == keywords[0]
      modifies this`pos, this`prevToken, this`errors, uses
      ensures Valid()
      ensures condition.line == currentLine && condition.children == []
      ensures ConditionRecorded(old(Snap()), Snap(), condition, currentLine)
      ensures pos > old(pos)
    {
      Match(keywords[0]);
      Match("NAME");
      condition := Node(prevToken.kind, prevToken.text, currentLine, []);
      uses.SetUses(prevToken.text, currentLine);
      var k := 1;
      while k < |keywords|
        invariant 1 <= k <= |keywords|
        invariant Valid()
        invariant ConditionRecorded(old(Snap()), Snap(), condition, currentLine)
        invariant pos > old(pos)
      {
        Match(keywords[k]);
        k := k + 1;
      }
    }

    /** Matches `keywords` in order. */
    method Separator(keywords: seq<string>)
      requires Valid()
      modifies this`pos, this`prevToken, this`errors
      ensures Valid()
      ensures OnlyErrors(old(Snap()), Snap()) && pos >= old(pos)
    {
      var k := 0;
      while k < |keywords|
        invariant 0 <= k <= |keywords|
        invariant Valid()
        invariant OnlyErrors(old(Snap()), Snap()) && pos >= old(pos)
      {
        Match(keywords[k]);
        k := k + 1;
      }
    }

    /**
     * A statement list followed by the adopting loop of its container at
     * `line`: the block's statements get `line` as parent and their Modifies
     * and Uses facts are copied to `line`.
     */
    method Block(line: int, ghost start: int) returns (list: Node)
      requires Valid() && 1 <= line <= currentLine && start == currentLine
      modifies this`pos, this`prevToken, this`errors, this`aborted, this`varNames, this`currentLine,
        this`follows, this`parent, this`calls, mod, uses
      decreases |tokens| - pos, 6
      ensures Valid()
      ensures list.nodeType == "STMT_LIST" && list.value == old(prevToken).text && list.line == 0
      ensures ListNumbered(list.children, start + 1)
      ensures currentLine == start + ListSize(list.children)
      ensures BlockAdded(old(Snap()), Snap(), line, list.children)
      ensures pos >= old(pos) && (old(aborted) ==> aborted)
    {
      list := StatementList(start);
      ghost var r1 := Snap();
      ListNumberedLines(list.children, start + 1);
      AdoptChildren(line, list.children);
      BlockRecorded(old(Snap()), r1, Snap(), line, list.children, start);
    }

    /** A block and the "}" that closes it, with the tables in between. */
    method BracedBlock(line: int, ghost start: int) returns (list: Node, ghost r: Tables)
      requires Valid() && 1 <= line <= currentLine && start == currentLine
      modifies this`pos, this`prevToken, this`errors, this`aborted, this`varNames, this`currentLine,
        this`follows, this`parent, this`calls, mod, uses
      decreases |tokens| - pos, 7
      ensures Valid()
      ensures ListNumbered(list.children, start + 1)
      ensures currentLine == start + ListSize(list.children)
      ensures BlockAdded(old(Snap()), r, line, list.children) && OnlyErrors(r, Snap())
      ensures pos >= old(pos) && (old(aborted) ==> aborted)
    {
      list := Block(line, start);
      r := Snap();
      Match("CLOSE_BRACKET");
    }

    /** "while" NAME "{" statement list "}" — numbered `currentLine`. */
    method WhileStatement() returns (n: Node)
      requires Valid() && currentLine >= 1 && NextToken().kind == "WHILE"
      modifies this`pos, this`prevToken, this`errors, this`aborted, this`varNames, this`currentLine,
        this`follows, this`parent, this`calls, mod, uses
      decreases |tokens| - pos, 1
      ensures Valid()
      ensures IsWhile(n)
      ensures Numbered(n, old(currentLine)) && currentLine == old(currentLine) + Size(n) - 1
      ensures NodeAdded(old(Snap()), Snap(), n)
      ensures pos > old(pos) && (old(aborted) ==> aborted)
    {
      var line := currentLine;
      var condition := Header(["WHILE", "OPEN_BRACKET"]);
      ghost var r1 := Snap();
      var body, r2 := BracedBlock(line, line);
      n := Node("WHILE", "", line, [condition, body]);
      WhileNode(condition, body, line, currentLine);
      WhileRecorded(condition, body, line, old(Snap()), r1, r2, Snap());
    }

    /**
     * "if" NAME "then" "{" list "}" "else" "{": the part of an IF up to its
     * else-block, with the tables after each of its steps.
     */
    method ThenPart(line: int) returns (condition: Node, thenList: Node, ghost r1: Tables, ghost r2: Tables)
      requires Valid() && 1 <= line == currentLine && NextToken().kind == "IF"
      modifies this`pos, this`prevToken, this`errors, this`aborted, this`varNames, this`currentLine,
        this`follows, this`parent, this`calls, mod, uses
      decreases |tokens| - pos, 1
      ensures Valid()
      ensures ListNumbered(thenList.children, line + 1) && currentLine == line + ListSize(thenList.children)
      ensures ConditionRecorded(old(Snap()), r1, condition, line)
      ensures BlockAdded(r1, r2, line, thenList.children)
      ensures OnlyErrors(r2, Snap())
      ensures pos > old(pos) && (old(aborted) ==> aborted)
    {
      condition := Header(["IF", "THEN", "OPEN_BRACKET"]);
      r1 := Snap();
      thenList := Block(line, line);
      r2 := Snap();
      Separator(["CLOSE_BRACKET", "ELSE", "OPEN_BRACKET"]);
    }

    /** "if" NAME "then" "{" list "}" "else" "{" list "}" — numbered `currentLine`. */
    method IfStatement() returns (n: Node)
      requires Valid() && currentLine >= 1 && NextToken().kind == "IF"
      modifies this`pos, this`prevToken, this`errors, this`aborted, this`varNames, this`currentLine,
        this`follows, this`parent, this`calls, mod, uses
      decreases |tokens| - pos, 2
      ensures Valid()
      ensures IsIf(n)
      ensures Numbered(n, old(currentLine)) && currentLine == old(currentLine) + Size(n) - 1
      ensures NodeAdded(old(Snap()), Snap(), n)
      ensures pos > old(pos) && (old(aborted) ==> aborted)
    {
      var line := currentLine;
      var condition, thenList, r1, r2 := ThenPart(line);
      ghost var mid := currentLine;
      ghost var r3 := Snap();
      var elseList, r4 := BracedBlock(line, mid);
      n := Node("IF", "", line, [condition, thenList, elseList]);
      IfNode(condition, thenList, elseList, line, mid, currentLine);
      IfRecorded(condition, thenList, elseList, line, old(Snap()), r1, r2, r3, r4, Snap());
    }

    /** Numbers the next statement and dispatches on its first token. */
    method Statement(ghost at: int) returns (n: Node)
      requires Valid() && at == currentLine + 1
      modifies this`pos, this`prevToken, this`errors, this`aborted, this`varNames, this`currentLine,
        this`follows, this`parent, this`calls, mod, uses
      decreases |tokens| - pos, 3
      ensures Valid()
      ensures Numbered(n, at) && currentLine == at - 1 + Size(n)
      ensures NodeAdded(old(Snap()), Snap(), n)
      ensures pos >= old(pos) && (old(aborted) ==> aborted)
      ensures old(NextToken()) == EOF ==> aborted
      ensures old(NextToken()) != EOF ==> pos > old(pos)
    {
      currentLine := currentLine + 1;
      assert currentLine == at;
      if NextToken().kind == "WHILE" {
        n := WhileStatement();
      } else if NextToken().kind == "CALL" {
        n := Call();
      } else if NextToken().kind == "IF" {
        n := IfStatement();
      } else {
        n := Assignment();
      }
    }

    /** One turn of the statement-list loop: a statement and its Follows link to the previous one. */
    method NextStatement(kids: seq<Node>, ghost first: int, ghost r0: Tables) returns (stmt: Node)
      requires Valid() && ListNumbered(kids, first) && currentLine == first - 1 + ListSize(kids)
      requires ListAdded(r0, Snap(), kids)
      modifies this`pos, this`prevToken, this`errors, this`aborted, this`varNames, this`currentLine,
        this`follows, this`parent, this`calls, mod, uses
      decreases |tokens| - pos, 4
      ensures Valid() && ListNumbered(kids + [stmt], first) && currentLine == first - 1 + ListSize(kids + [stmt])
      ensures ListAdded(r0, Snap(), kids + [stmt])
      ensures pos >= old(pos) && (old(aborted) ==> aborted)
      ensures old(NextToken()) == EOF ==> aborted
      ensures old(NextToken()) != EOF ==> pos > old(pos)
    {
      ghost var at := currentLine + 1;
      stmt := Statement(at);
      ghost var r2 := Snap();
      if kids != [] {
        follows := follows + {(Last(kids).line, stmt.line)};
      }
      NumberStep(kids, stmt, first, at);
      ListStep(r0, old(Snap()), r2, Snap(), kids, stmt);
    }

    /**
     * Statements up to the next "}", with Follows between neighbours. The
     * list node takes the previous token's text as its value.
     */
    method StatementList(ghost start: int) returns (list: Node)
      requires Valid() && start == currentLine
      modifies this`pos, this`prevToken, this`errors, this`aborted, this`varNames, this`currentLine,
        this`follows, this`parent, this`calls, mod, uses
      decreases |tokens| - pos, 5
      ensures Valid()
      ensures list.nodeType == "STMT_LIST" && list.value == old(prevToken).text && list.line == 0
      ensures ListNumbered(list.children, start + 1)
      ensures currentLine == start + ListSize(list.children)
      ensures ListAdded(old(Snap()), Snap(), list.children)
      ensures pos >= old(pos) && (old(aborted) ==> aborted)
      ensures !aborted ==> NextToken().kind == "CLOSE_BRACKET"
    {
      var value := prevToken.text;
      var kids: seq<Node> := [];
      ghost var s0 := Snap();
      ghost var pos0 := pos;
      ghost var aborted0 := aborted;
      while NextToken().kind != "CLOSE_BRACKET" && !aborted
        invariant Valid()
        invariant ListNumbered(kids, start + 1) && currentLine == start + ListSize(kids)
        invariant ListAdded(s0, Snap(), kids)
        invariant pos0 <= pos <= |tokens| && (aborted0 ==> aborted)
        decreases |tokens| - pos + (if aborted then 0 else 1)
      {
        var stmt := NextStatement(kids, start + 1, s0);
        kids := kids + [stmt];
      }
      list := Node("STMT_LIST", value, 0, kids);
    }

    /** "procedure" NAME "{": the procedure becomes current and is entered in the procedure table. */
    method ProcedureHeader() returns (name: string)
      requires Valid() && NextToken().kind == "PROCEDURE"
      modifies this`pos, this`prevToken, this`errors, this`procs, this`callProcedure
      ensures Valid()
      ensures procs == old(procs) + {name}
      ensures Snap() == old(Snap()).(caller := name, errors := errors) && errors >= old(errors)
      ensures pos > old(pos)
    {
      Match("PROCEDURE");
      Match("NAME");
      name := prevToken.text;
      procs := procs + {name};
      callProcedure := name;
      Match("OPEN_BRACKET");
    }

    /** "procedure" NAME "{" statement list "}". */
    method Procedure() returns (p: Node)
      requires Valid() && NextToken().kind == "PROCEDURE"
      modifies this`pos, this`prevToken, this`errors, this`aborted, this`varNames, this`currentLine,
        this`follows, this`parent, this`calls, this`procs, this`callProcedure, mod, uses
      ensures Valid()
      ensures p.nodeType == "PROCEDURE" && p.line == 0 && |p.children| == 1
      ensures procs == old(procs) + {p.value}
      ensures ListNumbered(Stmts(p), old(currentLine) + 1)
      ensures currentLine == old(currentLine) + ListSize(Stmts(p))
      ensures ProcAdded(old(Snap()), Snap(), p)
      ensures pos > old(pos) && (old(aborted) ==> aborted)
    {
      var name := ProcedureHeader();
      ghost var r1 := Snap();
      var body := StatementList(currentLine);
      ghost var r2 := Snap();
      Match("CLOSE_BRACKET");
      p := Node("PROCEDURE", name, 0, [body]);
      ProcedureRecorded(old(Snap()), r1, r2, Snap(), p);
    }

    /** Parses one more procedure after `ps` and accounts for its lines and facts. */
    method NextProcedure(ps: seq<Node>, ghost base: int, ghost r0: Tables) returns (p: Node)
      requires Valid() && NextToken().kind == "PROCEDURE"
      requires ProgNumbered(ps, base + 1) && currentLine == base + ProgSize(ps)
      requires ProgAdded(r0, Snap(), ps)
      modifies this`pos, this`prevToken, this`errors, this`aborted, this`varNames, this`currentLine,
        this`follows, this`parent, this`calls, this`procs, this`callProcedure, mod, uses
      ensures Valid()
      ensures ProgNumbered(ps + [p], base + 1) && currentLine == base + ProgSize(ps + [p])
      ensures ProgAdded(r0, Snap(), ps + [p])
      ensures pos > old(pos) && (old(aborted) ==> aborted)
    {
      ghost var at := currentLine + 1;
      p := Procedure();
      ProgNumberStep(ps, p, base, at, currentLine);
      ProgStep(r0, old(Snap()), Snap(), ps, p);
    }

    /** The procedures while the lookahead is "procedure", in order. */
    method Procedures() returns (procedures: seq<Node>)
      requires Valid()
      modifies this`pos, this`prevToken, this`errors, this`aborted, this`varNames, this`currentLine,
        this`follows, this`parent, this`calls, this`procs, this`callProcedure, mod, uses
      ensures Valid()
      ensures ProgNumbered(procedures, old(currentLine) + 1)
      ensures currentLine == old(currentLine) + ProgSize(procedures)
      ensures ProgAdded(old(Snap()), Snap(), procedures)
      ensures !aborted ==> NextToken().kind != "PROCEDURE"
    {
      procedures := [];
      ghost var line0 := currentLine;
      ghost var s0 := Snap();
      while NextToken().kind == "PROCEDURE" && !aborted
        invariant Valid()
        invariant ProgNumbered(procedures, line0 + 1)
        invariant currentLine == line0 + ProgSize(procedures)
        invariant ProgAdded(s0, Snap(), procedures)
        decreases |tokens| - pos
      {
        var p := NextProcedure(procedures, line0, s0);
        procedures := procedures + [p];
      }
    }

    /** Procedures while the lookahead is "procedure", appended to the root. */
    method Program()
      requires Valid()
      modifies this`pos, this`prevToken, this`errors, this`aborted, this`varNames, this`currentLine,
        this`follows, this`parent, this`calls, this`procs, this`callProcedure, this`root, mod, uses
      ensures Valid()
      ensures root.nodeType == old(root).nodeType && root.value == old(root).value
      ensures |root.children| >= |old(root).children|
      ensures root.children[..|old(root).children|] == old(root).children
      ensures ProgNumbered(root.children[|old(root).children|..], old(currentLine) + 1)
      ensures currentLine == old(currentLine) + ProgSize(root.children[|old(root).children|..])
      ensures ProgAdded(old(Snap()), Snap(), root.children[|old(root).children|..])
      ensures !aborted ==> NextToken().kind != "PROCEDURE"
    {
      var r0 := root;
      var procedures := Procedures();
      root := Node(r0.nodeType, r0.value, r0.line, r0.children + procedures);
      assert root.children[..|r0.children|] == r0.children;
      assert root.children[|r0.children|..] == procedures;
    }
  }
}
