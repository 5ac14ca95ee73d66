/**
 * The statement table: one row per statement line, each carrying an
 * "other info" dictionary whose "name" entry is the statement's kind
 * (ASSIGN, WHILE, IF, CALL). Rows keep insertion order and the pandas index
 * is positional, so a row's index is its position in `rows`.
 */
module StatementTables {
  import opened Wrappers

  datatype Row = Row(statementLine: int, otherInfo: map<string, string>)

  predicate HasLine(rows: seq<Row>, line: int)
  {
    exists i :: 0 <= i < |rows| && rows[i].statementLine == line
  }

  /** No two rows share a line (drop_duplicates keeps the first). */
  predicate DistinctLines(rows: seq<Row>)
  {
    forall i, j :: 0 <= i < j < |rows| ==> rows[i].statementLine != rows[j].statementLine
  }

  /** Position of the first row holding `line`. */
  function IndexOf(rows: seq<Row>, line: int): (r: Option<nat>)
    ensures r.Some? <==> HasLine(rows, line)
    ensures r.Some? ==> r.value < |rows| && rows[r.value].statementLine == line
    ensures r.Some? ==> forall k :: 0 <= k < r.value ==> rows[k].statementLine != line
  {
    if rows == [] then None
    else if rows[0].statementLine == line then Some(0)
    else match IndexOf(rows[1..], line)
      case None => None
      case Some(k) => Some(k + 1)
  }

  /** The kind recorded for a row, if its dictionary has a "name" entry. */
  function KindOf(row: Row): Option<string>
  {
    if "name" in row.otherInfo then Some(row.otherInfo["name"]) else None
  }

  /** The `name` entry of the row holding `line`, if any. */
  function KindAt(rows: seq<Row>, line: int): Option<string>
  {
    match IndexOf(rows, line)
      case None => None
      case Some(i) => KindOf(rows[i])
  }

  /** Lines whose kind is `t`, in table order. */
  function LinesOfType(rows: seq<Row>, t: string): seq<int>
  {
    if rows == [] then []
    else (if KindOf(rows[0]) == Some(t) then [rows[0].statementLine] else []) + LinesOfType(rows[1..], t)
  }

  function AllLines(rows: seq<Row>): seq<int>
  {
    if rows == [] then [] else [rows[0].statementLine] + AllLines(rows[1..])
  }

  lemma {:induction false} LinesOfTypeMembers(rows: seq<Row>, t: string, line: int)
    requires DistinctLines(rows)
    ensures line in LinesOfType(rows, t) <==> HasLine(rows, line) && KindAt(rows, line) == Some(t)
  {
    if rows != [] {
      LinesOfTypeMembers(rows[1..], t, line);
      if rows[0].statementLine != line && HasLine(rows, line) {
        var i :| 0 <= i < |rows| && rows[i].statementLine == line;
        assert rows[1..][i - 1].statementLine == line;
      }
      if HasLine(rows[1..], line) {
        var i :| 0 <= i < |rows[1..]| && rows[1..][i].statementLine == line;
        assert rows[i + 1].statementLine == line;
      }
    }
  }

  /** The lines of kind `t` are distinct, and no more numerous than the rows. */
  lemma {:induction false} LinesOfTypeSubsequence(rows: seq<Row>, t: string)
    requires DistinctLines(rows)
    ensures |LinesOfType(rows, t)| <= |rows|
    ensures forall i, j :: 0 <= i < j < |LinesOfType(rows, t)| ==> LinesOfType(rows, t)[i] != LinesOfType(rows, t)[j]
  {
    if rows != [] {
      LinesOfTypeSubsequence(rows[1..], t);
      LinesOfTypeMembers(rows[1..], t, rows[0].statementLine);
      assert forall i :: 0 <= i < |rows[1..]| ==> rows[1..][i].statementLine == rows[i + 1].statementLine;
      assert !HasLine(rows[1..], rows[0].statementLine);
    }
  }

  lemma {:induction false} AllLinesMembers(rows: seq<Row>, line: int)
    ensures line in AllLines(rows) <==> HasLine(rows, line)
    ensures |AllLines(rows)| == |rows|
  {
    if rows != [] {
      AllLinesMembers(rows[1..], line);
      if rows[0].statementLine != line && HasLine(rows, line) {
        var i :| 0 <= i < |rows| && rows[i].statementLine == line;
        assert rows[1..][i - 1].statementLine == line;
      }
      if HasLine(rows[1..], line) {
        var i :| 0 <= i < |rows[1..]| && rows[1..][i].statementLine == line;
        assert rows[i + 1].statementLine == line;
      }
    }
  }

  class StatementTable {
    var rows: seq<Row>

    ghost predicate Valid()
      reads this
    {
      DistinctLines(rows)
    }

    constructor ()
      ensures Valid() && rows == []
    {
      rows := [];
    }

    /**
     * Appends a row unless its line is already present (the first row wins),
     * and returns the position of the row holding `line`.
     */
    method InsertStatement(line: int, info: map<string, string>) returns (index: nat)
      requires Valid()
      modifies this
      ensures Valid()
      ensures rows == if HasLine(old(rows), line) then old(rows) else old(rows) + [Row(line, info)]
      ensures index < |rows| && rows[index].statementLine == line
    {
      var found := IndexOf(rows, line);
      match found {
        case Some(i) =>
          index := i;
        case None =>
          rows := rows + [Row(line, info)];
          index := |rows| - 1;
      }
    }

    /**
     * Merges `info` into the dictionary of the row holding `line` (entries of
     * `info` win). Returns false, changing nothing, when the line is absent:
     * the source then fails on an empty index.
     */
    method UpdateStatement(line: int, info: map<string, string>) returns (found: bool)
      requires Valid()
      modifies this
      ensures Valid()
      ensures found <==> HasLine(old(rows), line)
      ensures |rows| == |old(rows)|
      ensures forall i :: 0 <= i < |rows| ==>
        rows[i] == if old(rows)[i].statementLine == line
                   then Row(line, old(rows)[i].otherInfo + info)
                   else old(rows)[i]
    {
      match IndexOf(rows, line) {
        case None =>
          found := false;
        case Some(i) =>
          found := true;
          rows := rows[i := Row(line, rows[i].otherInfo + info)];
      }
    }

    /** The line at a row index, None where the index is absent. */
    function GetStatementLine(index: int): (r: Option<int>)
      requires Valid()
      reads this
      ensures r.Some? <==> 0 <= index < |rows|
      ensures r.Some? ==> IndexOf(rows, r.value) == Some(index)
    {
      if 0 <= index < |rows| then
        assert IndexOf(rows, rows[index].statementLine).Some?;
        Some(rows[index].statementLine)
      else None
    }

    /** The row index holding `line`, None where the source raises IndexError. */
    function GetStatementIndex(line: int): (r: Option<nat>)
      requires Valid()
      reads this
      ensures r.Some? <==> HasLine(rows, line)
      ensures r.Some? ==> GetStatementLine(r.value) == Some(line)
    {
      IndexOf(rows, line)
    }

    /** The dictionary of the row holding `line`, None where the source raises. */
    function GetOtherInfo(line: int): (r: Option<map<string, string>>)
      requires Valid()
      reads this
      ensures r.Some? <==> HasLine(rows, line)
      ensures forall i :: 0 <= i < |rows| && rows[i].statementLine == line ==> r == Some(rows[i].otherInfo)
    {
      match IndexOf(rows, line)
        case None => None
        case Some(i) => Some(rows[i].otherInfo)
    }

    /** Lines of kind `t` in table order (a loop over the rows, as in the source). */
    method GetStatementLineByTypeName(t: string) returns (r: seq<int>)
      requires Valid()
      ensures r == LinesOfType(rows, t)
      ensures forall line :: line in r <==> HasLine(rows, line) && KindAt(rows, line) == Some(t)
    {
      r := [];
      var i := 0;
      while i < |rows|
        invariant 0 <= i <= |rows|
        invariant r + LinesOfType(rows[i..], t) == LinesOfType(rows, t)
      {
        var info := GetOtherInfo(rows[i].statementLine);
        assert info == Some(rows[i].otherInfo);
        if "name" in info.value && info.value["name"] == t {
          r := r + [rows[i].statementLine];
        }
        assert rows[i..][1..] == rows[i + 1..];
        i := i + 1;
      }
      forall line ensures line in r <==> HasLine(rows, line) && KindAt(rows, line) == Some(t) {
        LinesOfTypeMembers(rows, t, line);
      }
    }

    function GetSize(): (r: nat)
      requires Valid()
      reads this
      ensures r == |rows|
      ensures r == |AllLines(rows)|
    {
      AllLinesMembers(rows, 0);
      |rows|
    }

    /** Whether some row holds `line`, scanning the rows in order. */
    method IsIn(line: int) returns (found: bool)
      requires Valid()
      ensures found <==> HasLine(rows, line)
    {
      var i := 0;
      while i < |rows|
        invariant 0 <= i <= |rows|
        invariant forall k :: 0 <= k < i ==> rows[k].statementLine != line
      {
        if rows[i].statementLine == line {
          return true;
        }
        i := i + 1;
      }
      return false;
    }
  }
}
