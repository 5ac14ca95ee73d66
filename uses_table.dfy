/**
 * The Uses fact table: a 0/1 matrix whose rows are variable names and
 * whose columns are statement lines, both kept sorted. A pandas cell is 1
 * exactly when its (name, line) pair is in `cells`; NaN and 0 cells both
 * read as "no fact".
 */
module UsesTables {
  import opened Ordering

  class UsesTable {
    /** Row index, ascending. */
    var vars: seq<string>
    /** Column index, ascending. */
    var stmts: seq<int>
    /** The (variable, line) cells holding 1. */
    var cells: set<(string, int)>

    ghost predicate Valid()
      reads this
    {
      && Sorted(vars, StrLess)
      && Sorted(stmts, IntLess)
      && forall c :: c in cells ==> c.0 in vars && c.1 in stmts
    }

    constructor ()
      ensures Valid()
      ensures vars == [] && stmts == [] && cells == {}
    {
      vars := [];
      stmts := [];
      cells := {};
    }

    /** Records Uses(stmt, name); a missing row or column is created first. */
    method SetUses(name: string, stmt: int)
      requires Valid()
      modifies this
      ensures Valid()
      ensures vars == Insert(old(vars), name, StrLess)
      ensures stmts == Insert(old(stmts), stmt, IntLess)
      ensures cells == old(cells) + {(name, stmt)}
    {
      StrLessStrictTotal();
      IntLessStrictTotal();
      InsertSorted(vars, name, StrLess);
      InsertSorted(stmts, stmt, IntLess);
      vars := Insert(vars, name, StrLess);
      stmts := Insert(stmts, stmt, IntLess);
      cells := cells + {(name, stmt)};
    }

    /** The variables `stmt` uses, in row order; [] for an unknown line. */
    method GetUsed(stmt: int) returns (r: seq<string>)
      requires Valid()
      ensures Sorted(r, StrLess)
      ensures forall v :: v in r <==> (v, stmt) in cells
      ensures stmt !in stmts ==> r == []
    {
      r := [];
      if stmt !in stmts {
        return;
      }
      var i := 0;
      while i < |vars|
        invariant 0 <= i <= |vars|
        invariant Sorted(r, StrLess)
        invariant forall v :: v in r ==> v in vars[..i]
        invariant forall v :: v in r <==> v in vars[..i] && (v, stmt) in cells
      {
        if (vars[i], stmt) in cells {
          forall k | 0 <= k < |r| ensures StrLess(r[k], vars[i]) {
            assert r[k] in r && r[k] in vars[..i];
            var j :| 0 <= j < i && vars[j] == r[k];
          }
          r := r + [vars[i]];
        }
        assert vars[..i + 1] == vars[..i] + [vars[i]];
        i := i + 1;
      }
      assert vars[..i] == vars;
    }

    /** The lines that use `name`, in column order; [] for an unknown name. */
    method GetUses(name: string) returns (r: seq<int>)
      requires Valid()
      ensures Sorted(r, IntLess)
      ensures forall s :: s in r <==> (name, s) in cells
      ensures name !in vars ==> r == []
    {
      r := [];
      if name !in vars {
        return;
      }
      var i := 0;
      while i < |stmts|
        invariant 0 <= i <= |stmts|
        invariant Sorted(r, IntLess)
        invariant forall s :: s in r ==> s in stmts[..i]
        invariant forall s :: s in r <==> s in stmts[..i] && (name, s) in cells
      {
        if (name, stmts[i]) in cells {
          forall k | 0 <= k < |r| ensures IntLess(r[k], stmts[i]) {
            assert r[k] in r && r[k] in stmts[..i];
            var j :| 0 <= j < i && stmts[j] == r[k];
          }
          r := r + [stmts[i]];
        }
        assert stmts[..i + 1] == stmts[..i] + [stmts[i]];
        i := i + 1;
      }
      assert stmts[..i] == stmts;
    }

    /** Uses(stmt, name); false when either index lacks the key. */
    function IsUsed(name: string, stmt: int): (r: bool)
      requires Valid()
      reads this
      ensures r <==> (name, stmt) in cells
      ensures name !in vars || stmt !in stmts ==> !r
    {
      if stmt !in stmts || name !in vars then false else (name, stmt) in cells
    }
  }
}
