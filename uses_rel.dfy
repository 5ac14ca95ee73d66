/**
 * The Uses evaluator's eight binding-state entry points. The relation reads
 * the Uses facts as (user, variable) pairs, a user being the text of a
 * statement line or a procedure name: it asks `is_used(user, variable)`,
 * `get_used(user)`, `get_uses(variable)` and the table's full row and column
 * indexes. The shown Uses table takes its arguments the other way round and
 * has no whole-index queries, so this module works on the facts themselves
 * in the orientation the relation's calls intend. Procedure names come from
 * the procedure table, which is not part of this model, as a parameter.
 */
module UsesRel {
  import opened Texts
  import opened StatementTables
  import SetFacts

  /** Uses(user, variable) facts. */
  type Facts = set<(string, string)>

  function IsUsed(f: Facts, user: string, v: string): bool { (user, v) in f }

  /** The variables `user` uses (`get_used`). */
  function GetUsed(f: Facts, user: string): set<string> { set p | p in f && p.0 == user :: p.1 }

  /** The users of `v` (`get_uses`). */
  function GetUses(f: Facts, v: string): set<string> { set p | p in f && p.1 == v :: p.0 }

  /** The table's row index: every used variable. */
  function AllIndex(f: Facts): set<string> { set p | p in f :: p.1 }

  /** The table's column index: every user. */
  function AllColumns(f: Facts): set<string> { set p | p in f :: p.0 }

  /** The columns that read as line numbers, as numbers (`int(c)` for `c.isdigit()`). */
  function DigitColumns(f: Facts): set<int>
  {
    set c | c in AllColumns(f) && IsDigits(c) :: DigitsValue(c)
  }

  /** A literal argument matches a value: `_` matches every value. */
  predicate Fits(x: string, q: string) { q == "_" || x == q }

  /** The users a kind argument ranges over: procedure names, every statement line, or the lines of that kind. */
  function Universe(rows: seq<Row>, procs: seq<string>, kind: string): set<string>
  {
    if kind == "PROCEDURE" then set p | p in procs
    else if kind == "STMT" then set l | l in AllLines(rows) :: IntText(l)
    else set l | l in LinesOfType(rows, kind) :: IntText(l)
  }

  // ---------------------------------------------------------------------
  // A user from a domain: the first argument is a value
  // ---------------------------------------------------------------------

  /** `value_from_set_and_value_from_set`. */
  function SetAndSet(f: Facts, first: string, second: string): (r: bool)
    ensures r <==> second in GetUsed(f, first)
    ensures r <==> first in GetUses(f, second)
  {
    assert (first, second) in f ==> second in GetUsed(f, first) && first in GetUses(f, second);
    IsUsed(f, first, second)
  }

  /** `value_from_set_and_not_initialized_set`: the variables the user uses. */
  function SetAndFree(f: Facts, first: string, second: string): (r: set<string>)
    ensures forall v :: v in r <==> IsUsed(f, first, v)
  {
    assert forall v :: (first, v) in f ==> v in GetUsed(f, first);
    GetUsed(f, first)
  }

  /** `value_from_set_and_value_from_query`: with `_`, whether the user uses anything. */
  function SetAndQuery(f: Facts, first: string, second: string): (r: bool)
    ensures r <==> exists v :: (first, v) in f && Fits(v, second)
  {
    if second == "_" then
      assert forall v :: (first, v) in f ==> v in GetUsed(f, first);
      GetUsed(f, first) != {}
    else IsUsed(f, first, second)
  }

  // ---------------------------------------------------------------------
  // A free synonym of a kind: the first argument ranges over a universe
  // ---------------------------------------------------------------------

  /** `not_initialized_set_and_value_from_set`: the users of the kind that use `v`. */
  function FreeAndSet(f: Facts, rows: seq<Row>, procs: seq<string>, kind: string, v: string): (r: set<string>)
    ensures r <= Universe(rows, procs, kind)
    ensures forall x :: x in r <==> x in Universe(rows, procs, kind) && IsUsed(f, x, v)
  {
    if kind == "PROCEDURE" then set p | p in procs && IsUsed(f, p, v)
    else if kind == "STMT" then set l | l in AllLines(rows) && IsUsed(f, IntText(l), v) :: IntText(l)
    else set l | l in LinesOfType(rows, kind) && IsUsed(f, IntText(l), v) :: IntText(l)
  }

  /** The variables used by any of `lines`. */
  function UsedByLines(f: Facts, lines: set<int>): set<string>
  {
    set p, l | p in f && l in lines && p.0 == IntText(l) :: p.1
  }

  /** The lines of `kind` (every line for STMT) that appear as columns of the table. */
  function LinesInTable(f: Facts, rows: seq<Row>, kind: string): set<int>
  {
    if kind == "STMT" then set l | l in AllLines(rows) && l in DigitColumns(f)
    else set l | l in LinesOfType(rows, kind) && l in DigitColumns(f)
  }

  /**
   * `not_initialized_set_and_not_initialized_set`: the users of the kind
   * present in the table, and on the right the whole row index for
   * PROCEDURE and STMT but only the variables those lines use for any other
   * kind.
   */
  function FreeAndFree(f: Facts, rows: seq<Row>, procs: seq<string>, kind: string): (set<string>, set<string>)
  {
    if kind == "PROCEDURE" then ((set p | p in procs) * AllColumns(f), AllIndex(f))
    else if kind == "STMT" then ((set l | l in LinesInTable(f, rows, kind) :: IntText(l)), AllIndex(f))
    else ((set l | l in LinesInTable(f, rows, kind) :: IntText(l)), UsedByLines(f, LinesInTable(f, rows, kind)))
  }

  /** The table's columns are written as `str` writes line numbers (no leading zeros), and no line is negative. */
  predicate CanonicalLines(f: Facts, rows: seq<Row>)
  {
    && (forall c :: c in AllColumns(f) && IsDigits(c) ==> c == NatText(DigitsValue(c)))
    && (forall l :: l in AllLines(rows) ==> l >= 0)
  }

  lemma LineColumn(f: Facts, rows: seq<Row>, l: int)
    requires CanonicalLines(f, rows) && l in AllLines(rows)
    ensures l in DigitColumns(f) <==> exists v :: (IntText(l), v) in f
  {
    NatTextRoundTrip(l);
    if l in DigitColumns(f) {
      var c :| c in AllColumns(f) && IsDigits(c) && DigitsValue(c) == l;
      var p :| p in f && p.0 == c;
      assert (IntText(l), p.1) in f;
    }
    if exists v :: (IntText(l), v) in f {
      var v :| (IntText(l), v) in f;
      assert IntText(l) in AllColumns(f);
    }
  }

  lemma KindLinesInUniverse(rows: seq<Row>, kind: string, l: int)
    requires DistinctLines(rows) && kind != "STMT" && l in LinesOfType(rows, kind)
    ensures l in AllLines(rows)
  {
    LinesOfTypeMembers(rows, kind, l);
    AllLinesMembers(rows, l);
  }

  /**
   * With the table's columns written canonically, the users on the left are
   * exactly the kind's users that use something, and for a statement kind
   * other than STMT the right side holds exactly the variables they use.
   */
  lemma FreeAndFreeMeaning(f: Facts, rows: seq<Row>, procs: seq<string>, kind: string)
    requires CanonicalLines(f, rows) && DistinctLines(rows)
    ensures forall x :: x in FreeAndFree(f, rows, procs, kind).0 <==>
      x in Universe(rows, procs, kind) && exists v :: (x, v) in f
    ensures kind == "PROCEDURE" || kind == "STMT" ==> FreeAndFree(f, rows, procs, kind).1 == AllIndex(f)
    ensures kind != "PROCEDURE" && kind != "STMT" ==> forall v :: v in FreeAndFree(f, rows, procs, kind).1 <==>
      exists x :: x in FreeAndFree(f, rows, procs, kind).0 && (x, v) in f
  {
    var r := FreeAndFree(f, rows, procs, kind);
    if kind == "PROCEDURE" {
      forall x ensures x in r.0 <==> x in Universe(rows, procs, kind) && exists v :: (x, v) in f {
        if exists v :: (x, v) in f {
          var v :| (x, v) in f;
          assert x in AllColumns(f);
        }
      }
    } else {
      var lines := LinesInTable(f, rows, kind);
      forall l | l in (if kind == "STMT" then AllLines(rows) else LinesOfType(rows, kind))
        ensures l in lines <==> exists v :: (IntText(l), v) in f
      {
        if kind != "STMT" {
          KindLinesInUniverse(rows, kind, l);
        }
        LineColumn(f, rows, l);
      }
      if kind != "STMT" {
        forall v ensures v in r.1 <==> exists x :: x in r.0 && (x, v) in f {
          if v in r.1 {
            var p, l :| p in f && l in lines && p.0 == IntText(l) && p.1 == v;
            assert IntText(l) in r.0;
          }
          if exists x :: x in r.0 && (x, v) in f {
            var x :| x in r.0 && (x, v) in f;
            var l :| l in lines && x == IntText(l);
            assert (x, v) in f && x == IntText(l);
          }
        }
      }
    }
  }

  /** The loop of `not_initialized_set_and_not_initialized_set` that gathers the used variables of the lines, in any order. */
  method UsedByLinesLoop(f: Facts, lines: set<int>) returns (names: set<string>)
    ensures names == UsedByLines(f, lines)
  {
    names := {};
    var todo := lines;
    while todo != {}
      invariant todo <= lines
      invariant names == UsedByLines(f, lines - todo)
      decreases |todo|
    {
      ghost var some := SetFacts.Pick(todo);
      var line :| line in todo;
      names := names + GetUsed(f, IntText(line));
      assert lines - (todo - {line}) == (lines - todo) + {line};
      todo := todo - {line};
    }
    assert lines - todo == lines;
  }

  /** `not_initialized_set_and_not_initialized_set` with its loop. */
  method FreeAndFreeLoop(f: Facts, rows: seq<Row>, procs: seq<string>, kind: string)
    returns (users: set<string>, names: set<string>)
    ensures (users, names) == FreeAndFree(f, rows, procs, kind)
  {
    if kind == "PROCEDURE" {
      return (set p | p in procs) * AllColumns(f), AllIndex(f);
    }
    var lines := LinesInTable(f, rows, kind);
    users := set l | l in lines :: IntText(l);
    if kind == "STMT" {
      names := AllIndex(f);
    } else {
      names := UsedByLinesLoop(f, lines);
    }
  }

  /**
   * `not_initialized_set_and_value_from_query`: the kind's users that use
   * the literal variable, or that use anything for `_`.
   */
  function FreeAndQuery(f: Facts, rows: seq<Row>, procs: seq<string>, kind: string, q: string): (r: set<string>)
    ensures forall x :: x in r <==> x in Universe(rows, procs, kind) && exists v :: (x, v) in f && Fits(v, q)
  {
    var users := Universe(rows, procs, kind);
    assert forall x, v :: (x, v) in f ==> x in AllColumns(f);
    if q == "_" then users * AllColumns(f)
    else FreeAndSet(f, rows, procs, kind, q)
  }

  // ---------------------------------------------------------------------
  // A literal first argument
  // ---------------------------------------------------------------------

  /** `value_from_query_and_value_from_set`: with `_`, whether any Uses fact exists at all, whatever `v` is. */
  function QueryAndSet(f: Facts, q: string, v: string): (r: bool)
    ensures q == "_" ==> (r <==> f != {})
    ensures q != "_" ==> (r <==> (q, v) in f)
  {
    if q == "_" then
      assert forall p :: p in f ==> p.1 in AllIndex(f);
      AllIndex(f) != {}
    else IsUsed(f, q, v)
  }

  /** `value_from_query_and_not_initialized_set`: the variables the literal user uses, every variable for `_`. */
  function QueryAndFree(f: Facts, q: string, second: string): (r: set<string>)
    ensures forall v :: v in r <==> exists x :: (x, v) in f && Fits(x, q)
  {
    assert forall x, v :: (x, v) in f ==> v in AllIndex(f);
    assert forall v :: (q, v) in f ==> v in GetUsed(f, q);
    if q == "_" then AllIndex(f) else GetUsed(f, q)
  }

  /** `value_from_query_and_value_from_query`: whether some fact fits both literals. */
  function QueryAndQuery(f: Facts, first: string, second: string): (r: bool)
    ensures r <==> exists x, v :: (x, v) in f && Fits(x, first) && Fits(v, second)
  {
    assert forall x, v :: (x, v) in f ==> x in AllColumns(f) && v in AllIndex(f) && v in GetUsed(f, x) && x in GetUses(f, v);
    if first == "_" then
      if second == "_" then AllIndex(f) != {} && AllColumns(f) != {}
      else GetUses(f, second) != {}
    else if second == "_" then GetUsed(f, first) != {}
    else IsUsed(f, first, second)
  }

  /** `(_, _)` holds exactly when the table is non-empty in both dimensions, which is when it holds any fact. */
  lemma WildCardsMeanNonEmpty(f: Facts)
    ensures QueryAndQuery(f, "_", "_") <==> f != {}
  {
    if f != {} {
      var p := SetFacts.Pick(f);
      assert Fits(p.0, "_") && Fits(p.1, "_");
    }
  }

  /** Facts recorded by the parser's Uses table, whose cells are (variable, line) pairs, read the way the relation reads them. */
  function FromTable(cells: set<(string, int)>): Facts
  {
    set c | c in cells :: (IntText(c.1), c.0)
  }

  /** Reading the parser's table through `str(line)` loses nothing. */
  lemma FromTableFaithful(cells: set<(string, int)>, v: string, line: int)
    ensures IsUsed(FromTable(cells), IntText(line), v) <==> (v, line) in cells
  {
    if IsUsed(FromTable(cells), IntText(line), v) {
      var c :| c in cells && (IntText(c.1), c.0) == (IntText(line), v);
      IntTextInjective(c.1, line);
    }
  }
}
