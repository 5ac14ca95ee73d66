/**
 * The Parent* evaluator. Like Follows it dispatches on a line number, `_`
 * or a statement kind in each argument position. The Parent table is not
 * part of this model: it is taken as the maps the parser fills, `kids[p]`
 * the direct children of container `p` in order and `up[c]` the container
 * of `c`. The table's `index` is the set of containers (`kids.Keys`), its
 * `columns` the set of contained statements (`up.Keys`). Parent*(a, d)
 * holds when `a` is reached from `d` by following `up` once or more.
 */
module ParentTRel {
  import opened Wrappers
  import opened Texts
  import opened StatementTables
  import opened Answers
  import Chains
  import SetFacts
  import ParserFacts
  import Ast

  datatype ParentTable = ParentTable(kids: map<int, seq<int>>, up: map<int, int>)

  /**
   * A table as the parser builds it: `up` and `kids` describe the same
   * edges, a container precedes what it contains, and no child is listed
   * twice.
   */
  predicate Valid(t: ParentTable)
  {
    && Chains.Decreasing(t.up)
    && (forall p, i :: p in t.kids && 0 <= i < |t.kids[p]| ==> t.kids[p][i] in t.up && t.up[t.kids[p][i]] == p)
    && (forall c :: c in t.up ==> t.up[c] in t.kids && c in t.kids[t.up[c]])
    && (forall p, i, j :: p in t.kids && 0 <= i < j < |t.kids[p]| ==> t.kids[p][i] != t.kids[p][j])
  }

  /** `get_child(p)`: the direct children of `p`. */
  function GetChild(t: ParentTable, p: int): seq<int>
  {
    if p in t.kids then t.kids[p] else []
  }

  /** `get_parent(c)`: the container of `c`, as a list of at most one line. */
  function GetParent(t: ParentTable, c: int): seq<int>
  {
    if c in t.up then [t.up[c]] else []
  }

  /** `is_parent(p, c)`. */
  predicate IsParent(t: ParentTable, p: int, c: int)
  {
    c in t.up && t.up[c] == p
  }

  /** Parent*(a, d): `a` contains `d`, directly or through other containers. */
  ghost predicate ParentStar(t: ParentTable, a: int, d: int)
  {
    Chains.Reaches(t.up, d, a)
  }

  /** The transitive descendants of `a`. */
  function DescendantsOf(t: ParentTable, a: int): set<int>
  {
    set d | d in t.up.Keys && a in Chains.Down(t.up, d)
  }

  /** How a kind argument is compared with a statement's `name` entry. */
  datatype KindTest =
    | AnyStatement          // STMT: one of WHILE, IF, CALL, ASSIGN
    | Exactly(kind: string) // equality
    | Within(text: string)  // Python's substring test `name in text`

  /** `a` occurs in `b` at some position. */
  predicate IsSubstring(a: string, b: string)
    decreases |b|
  {
    |a| <= |b| && (b[..|a|] == a || (b != [] && IsSubstring(a, b[1..])))
  }

  /**
   * Whether line `l` passes the kind test. A line without a row or without a
   * `name` entry fails every test (the source would raise there).
   */
  predicate Passes(rows: seq<Row>, l: int, test: KindTest)
  {
    match KindAt(rows, l)
      case None => false
      case Some(name) =>
        match test
          case AnyStatement => name in StatementKinds
          case Exactly(kind) => name == kind
          case Within(text) => IsSubstring(name, text)
  }

  /** The test most helpers use: STMT for any statement, otherwise the kind itself. */
  function TestFor(kind: string): KindTest
  {
    if kind == "STMT" then AnyStatement else Exactly(kind)
  }

  /** The elements of `xs` that pass `test`, gathered front to back. */
  function Filtered(rows: seq<Row>, xs: seq<int>, test: KindTest): set<int>
  {
    if xs == [] then {}
    else (Filtered(rows, xs[..|xs| - 1], test) + if Passes(rows, xs[|xs| - 1], test) then {xs[|xs| - 1]} else {})
  }

  lemma FilteredSnoc(rows: seq<Row>, xs: seq<int>, x: int, test: KindTest)
    ensures Filtered(rows, xs + [x], test) == Filtered(rows, xs, test) + if Passes(rows, x, test) then {x} else {}
  {
    assert (xs + [x])[..|xs|] == xs;
  }

  lemma {:induction false} FilteredMembers(rows: seq<Row>, xs: seq<int>, test: KindTest, x: int)
    ensures x in Filtered(rows, xs, test) <==> x in xs && Passes(rows, x, test)
  {
    if xs != [] {
      FilteredMembers(rows, xs[..|xs| - 1], test, x);
      assert xs == xs[..|xs| - 1] + [xs[|xs| - 1]];
    }
  }

  // ---------------------------------------------------------------------
  // Facts about valid tables
  // ---------------------------------------------------------------------

  /** Parent* is membership in the chain of containers. */
  lemma AncestorChain(t: ParentTable, a: int, d: int)
    requires Valid(t)
    ensures ParentStar(t, a, d) <==> a in Chains.Down(t.up, d)
  {
    Chains.DownChain(t.up, d);
    Chains.ChainReach(t.up, d, Chains.Down(t.up, d), a);
  }

  lemma DescendantsMeaning(t: ParentTable, a: int, d: int)
    requires Valid(t)
    ensures d in DescendantsOf(t, a) <==> ParentStar(t, a, d)
  {
    AncestorChain(t, a, d);
  }

  /** Parent* is transitive. */
  lemma StarTransitive(t: ParentTable, a: int, b: int, c: int)
    requires Valid(t) && ParentStar(t, a, b) && ParentStar(t, b, c)
    ensures ParentStar(t, a, c)
  {
    AncestorChain(t, a, b);
    AncestorChain(t, b, c);
    AncestorChain(t, a, c);
    Chains.DownChain(t.up, c);
    Chains.DownChain(t.up, b);
    Chains.ChainTransitive(t.up, c, Chains.Down(t.up, c), Chains.Down(t.up, b), b, a);
  }

  /** A container precedes everything it contains, so Parent* never relates a line to itself. */
  lemma StarBackward(t: ParentTable, a: int, d: int)
    requires Valid(t) && ParentStar(t, a, d)
    ensures a < d
  {
    AncestorChain(t, a, d);
    Chains.DownBelow(t.up, d, a);
  }

  /** One level down: the children of `p` are descendants of whatever contains `p`. */
  lemma ChildDescends(t: ParentTable, a: int, p: int, c: int)
    requires Valid(t) && c in GetChild(t, p) && (p == a || a in Chains.Down(t.up, p))
    ensures c in t.up && t.up[c] == p && a in Chains.Down(t.up, c)
  {
    var i :| 0 <= i < |t.kids[p]| && t.kids[p][i] == c;
    assert Chains.Down(t.up, c) == [p] + Chains.Down(t.up, p);
  }

  /** A set holding the children of `a` and closed under taking children holds every descendant of `a`. */
  lemma {:induction false} ClosedHoldsDescendants(t: ParentTable, a: int, s: set<int>, d: int)
    requires Valid(t)
    requires forall c :: c in GetChild(t, a) ==> c in s
    requires forall x, c :: x in s && c in GetChild(t, x) ==> c in s
    requires a in Chains.Down(t.up, d)
    ensures d in s
    decreases |Chains.Below(t.up, d)|
  {
    Chains.BelowShrinks(t.up, d);
    var p := t.up[d];
    assert d in GetChild(t, p);
    if p != a {
      ClosedHoldsDescendants(t, a, s, p);
    }
  }

  // ---------------------------------------------------------------------
  // The descendant worklist
  // ---------------------------------------------------------------------

  predicate Distinct(xs: seq<int>)
  {
    forall i, j :: 0 <= i < j < |xs| ==> xs[i] != xs[j]
  }

  /**
   * The state of the descendant worklist of `a` after `i` of its entries
   * have been expanded: it lists descendants of `a` without repetition,
   * each child of `a` or of an expanded entry, and it holds the children of
   * `a` and of every expanded entry.
   */
  ghost predicate Worklist(t: ParentTable, a: int, children: seq<int>, i: nat)
  {
    && i <= |children|
    && Distinct(children)
    && (forall j :: 0 <= j < |children| ==>
          children[j] in t.up && (t.up[children[j]] == a || t.up[children[j]] in children[..i]))
    && (forall j :: 0 <= j < |children| ==> a in Chains.Down(t.up, children[j]))
    && (forall c :: c in GetChild(t, a) ==> c in children)
    && (forall j, c :: 0 <= j < i && c in GetChild(t, children[j]) ==> c in children)
  }

  lemma WorklistStart(t: ParentTable, a: int)
    requires Valid(t)
    ensures Worklist(t, a, GetChild(t, a), 0)
  {
    var children := GetChild(t, a);
    forall j | 0 <= j < |children|
      ensures children[j] in t.up && t.up[children[j]] == a && a in Chains.Down(t.up, children[j])
    {
      ChildDescends(t, a, a, children[j]);
    }
  }

  /** The children of an entry of the worklist are new to it. */
  lemma StepDistinct(t: ParentTable, a: int, children: seq<int>, i: nat)
    requires Valid(t) && Worklist(t, a, children, i) && i < |children|
    ensures Distinct(children + GetChild(t, children[i]))
  {
    var x := children[i];
    var more := GetChild(t, x);
    var next := children + more;
    assert x != a by {
      Chains.DownBelow(t.up, x, a);
    }
    assert x !in children[..i];
    forall j, k | 0 <= j < |children| && 0 <= k < |more|
      ensures children[j] != more[k]
    {
      assert more[k] in t.up && t.up[more[k]] == x;
    }
    forall j, k | 0 <= j < k < |next|
      ensures next[j] != next[k]
    {
      if k >= |children| && j >= |children| {
        assert next[j] == more[j - |children|] && next[k] == more[k - |children|];
      }
    }
  }

  /** After expanding entry `i`, every entry is a child of `a` or of one of the first `i + 1` entries. */
  lemma StepParents(t: ParentTable, a: int, children: seq<int>, i: nat)
    requires Valid(t) && Worklist(t, a, children, i) && i < |children|
    ensures var next := children + GetChild(t, children[i]);
      forall j :: 0 <= j < |next| ==> next[j] in t.up && (t.up[next[j]] == a || t.up[next[j]] in next[..i + 1])
  {
    var more := GetChild(t, children[i]);
    var next := children + more;
    assert next[..i + 1] == children[..i + 1];
    assert children[..i] <= next[..i + 1];
    forall j | 0 <= j < |next|
      ensures next[j] in t.up && (t.up[next[j]] == a || t.up[next[j]] in next[..i + 1])
    {
      if j >= |children| {
        assert next[j] == more[j - |children|];
      }
    }
  }

  /** After expanding entry `i`, every entry still lies below `a`. */
  lemma StepDescends(t: ParentTable, a: int, children: seq<int>, i: nat)
    requires Valid(t) && Worklist(t, a, children, i) && i < |children|
    ensures var next := children + GetChild(t, children[i]);
      forall j :: 0 <= j < |next| ==> a in Chains.Down(t.up, next[j])
  {
    var x := children[i];
    var more := GetChild(t, x);
    var next := children + more;
    forall j | 0 <= j < |next|
      ensures a in Chains.Down(t.up, next[j])
    {
      if j >= |children| {
        ChildDescends(t, a, x, more[j - |children|]);
      } else {
        assert next[j] == children[j];
      }
    }
  }

  /** After expanding entry `i`, the worklist holds the children of `a` and of its first `i + 1` entries. */
  lemma StepHolds(t: ParentTable, a: int, children: seq<int>, i: nat)
    requires Worklist(t, a, children, i) && i < |children|
    ensures var next := children + GetChild(t, children[i]);
      && (forall c :: c in GetChild(t, a) ==> c in next)
      && (forall j, c :: 0 <= j < i + 1 && c in GetChild(t, next[j]) ==> c in next)
  {
    var more := GetChild(t, children[i]);
    var next := children + more;
    forall c | c in GetChild(t, a)
      ensures c in next
    {
      assert c in children;
    }
    forall j, c | 0 <= j < i + 1 && c in GetChild(t, next[j])
      ensures c in next
    {
      assert next[j] == children[j];
      if j < i {
        assert c in children;
      } else {
        assert c in more;
      }
    }
  }

  /** Expanding entry `i` keeps the worklist invariant. */
  lemma WorklistStep(t: ParentTable, a: int, children: seq<int>, i: nat)
    requires Valid(t) && Worklist(t, a, children, i) && i < |children|
    ensures Worklist(t, a, children + GetChild(t, children[i]), i + 1)
  {
    StepDistinct(t, a, children, i);
    StepParents(t, a, children, i);
    StepDescends(t, a, children, i);
    StepHolds(t, a, children, i);
  }

  /** A worklist with everything expanded holds exactly the descendants. */
  lemma WorklistDone(t: ParentTable, a: int, children: seq<int>)
    requires Valid(t) && Worklist(t, a, children, |children|)
    ensures Elements(children) == DescendantsOf(t, a)
  {
    var s := Elements(children);
    forall x, c | x in s && c in GetChild(t, x)
      ensures c in s
    {
      var j :| 0 <= j < |children| && children[j] == x;
    }
    forall d | d in DescendantsOf(t, a)
      ensures d in s
    {
      ClosedHoldsDescendants(t, a, s, d);
    }
  }

  /** The worklist never outgrows the table. */
  lemma WorklistBound(t: ParentTable, a: int, children: seq<int>, i: nat)
    requires Worklist(t, a, children, i)
    ensures |children| <= |t.up.Keys|
  {
    SetFacts.DistinctCard(children);
    SetFacts.SubsetCard((set x | x in children), t.up.Keys);
  }

  /** `_parent_T_digit_wildcard`: every transitive descendant of `a`, each once. */
  method DigitAndWildCard(t: ParentTable, a: int) returns (children: seq<int>)
    requires Valid(t)
    ensures Distinct(children)
    ensures Elements(children) == DescendantsOf(t, a)
  {
    children := GetChild(t, a);
    WorklistStart(t, a);
    var i := 0;
    while i < |children|
      invariant Worklist(t, a, children, i)
      decreases |t.up.Keys| - i
    {
      WorklistBound(t, a, children, i);
      WorklistStep(t, a, children, i);
      children := children + GetChild(t, children[i]);
      i := i + 1;
    }
    WorklistDone(t, a, children);
  }

  /** Filtering one more entry of a growing worklist. */
  lemma FilterStep(rows: seq<Row>, children: seq<int>, more: seq<int>, i: nat, test: KindTest)
    requires i < |children|
    ensures Filtered(rows, (children + more)[..i + 1], test)
      == Filtered(rows, children[..i], test) + if Passes(rows, children[i], test) then {children[i]} else {}
  {
    assert (children + more)[..i + 1] == children[..i] + [children[i]];
    FilteredSnoc(rows, children[..i], children[i], test);
  }

  /** The filtered finished worklist of `a` is exactly the descendants of `a` passing the test. */
  lemma FilteredDescendants(t: ParentTable, rows: seq<Row>, a: int, children: seq<int>, test: KindTest)
    requires Valid(t) && Worklist(t, a, children, |children|)
    ensures forall d :: d in Filtered(rows, children, test) <==> ParentStar(t, a, d) && Passes(rows, d, test)
  {
    WorklistDone(t, a, children);
    forall d ensures d in Filtered(rows, children, test) <==> ParentStar(t, a, d) && Passes(rows, d, test) {
      FilteredMembers(rows, children, test, d);
      DescendantsMeaning(t, a, d);
    }
  }

  /** `_parent_T_digit_str_type`: the descendants of `a` whose kind passes the test (substring for a kind). */
  method DigitAndKind(t: ParentTable, rows: seq<Row>, a: int, kind: string) returns (result: set<int>)
    requires Valid(t)
    ensures forall d :: d in result <==> ParentStar(t, a, d) && Passes(rows, d, if kind == "STMT" then AnyStatement else Within(kind))
  {
    var test := if kind == "STMT" then AnyStatement else Within(kind);
    result := {};
    var children := GetChild(t, a);
    WorklistStart(t, a);
    var i := 0;
    while i < |children|
      invariant Worklist(t, a, children, i)
      invariant result == Filtered(rows, children[..i], test)
      decreases |t.up.Keys| - i
    {
      WorklistBound(t, a, children, i);
      WorklistStep(t, a, children, i);
      var child := children[i];
      FilterStep(rows, children, GetChild(t, child), i, test);
      children := children + GetChild(t, child);
      if Passes(rows, child, test) {
        result := result + {child};
      }
      i := i + 1;
    }
    assert children[..i] == children;
    FilteredDescendants(t, rows, a, children, test);
  }

  /** A direct container is a Parent* ancestor. */
  lemma ParentIsStar(t: ParentTable, a: int, b: int)
    requires Valid(t) && IsParent(t, a, b)
    ensures ParentStar(t, a, b)
  {
    ChildDescends(t, a, a, b);
    AncestorChain(t, a, b);
  }

  /** `b` not in a finished worklist of `a`: `b` is no descendant. */
  lemma WorklistMisses(t: ParentTable, a: int, children: seq<int>, b: int)
    requires Valid(t) && Worklist(t, a, children, |children|) && b !in children
    ensures !ParentStar(t, a, b)
  {
    WorklistDone(t, a, children);
    DescendantsMeaning(t, a, b);
  }

  /** `_parent_T_two_digits`: Parent*(a, b), stopping as soon as `b` shows up. */
  method TwoDigits(t: ParentTable, a: int, b: int) returns (r: bool)
    requires Valid(t)
    ensures r <==> ParentStar(t, a, b)
  {
    if IsParent(t, a, b) {
      ParentIsStar(t, a, b);
      return true;
    }
    var children := GetChild(t, a);
    WorklistStart(t, a);
    assert b !in children by {
      if b in children {
        ChildDescends(t, a, a, b);
      }
    }
    var i := 0;
    while i < |children|
      invariant Worklist(t, a, children, i) && b !in children
      decreases |t.up.Keys| - i
    {
      WorklistBound(t, a, children, i);
      if b in GetChild(t, children[i]) {
        ChildDescends(t, a, children[i], b);
        AncestorChain(t, a, b);
        return true;
      }
      WorklistStep(t, a, children, i);
      children := children + GetChild(t, children[i]);
      i := i + 1;
    }
    WorklistMisses(t, a, children, b);
    r := false;
  }

  // ---------------------------------------------------------------------
  // The ancestor walk
  // ---------------------------------------------------------------------

  /**
   * The state of the ancestor walk from `m` after `i` entries: the list is
   * the start of the chain of containers of `m`, one entry ahead of the
   * position unless it has reached the outermost container.
   */
  ghost predicate AncestorWalk(t: ParentTable, m: int, parents: seq<int>, i: nat)
  {
    WalkPrefix(Chains.Down(t.up, m), parents, i)
  }

  /** `parents` is the start of `chain`, one entry ahead of position `i` unless it is all of `chain`. */
  predicate WalkPrefix(chain: seq<int>, parents: seq<int>, i: nat)
  {
    && i <= |parents| <= i + 1 && |parents| <= |chain|
    && parents == chain[..|parents|]
    && (|parents| == i ==> |parents| == |chain|)
  }

  lemma AncestorStart(t: ParentTable, m: int)
    requires Valid(t)
    ensures AncestorWalk(t, m, GetParent(t, m), 0)
  {
    Chains.DownChain(t.up, m);
    Chains.ChainEmpty(t.up, m, Chains.Down(t.up, m));
  }

  /** One step along a complete walk of `up` from `m`. */
  lemma WalkStep(t: ParentTable, m: int, chain: seq<int>, parents: seq<int>, i: nat)
    requires Chains.Chain(t.up, m, chain) && WalkPrefix(chain, parents, i) && i < |parents|
    ensures WalkPrefix(chain, parents + GetParent(t, parents[i]), i + 1)
  {
    var p := parents[i];
    assert |parents| == i + 1 && p == chain[i];
    assert Chains.At(m, chain, i + 1) == p;
    if i + 1 < |chain| {
      assert GetParent(t, p) == [chain[i + 1]];
      assert chain[..i + 2] == parents + [chain[i + 1]];
    } else {
      assert GetParent(t, p) == [];
    }
  }

  /** Extending the ancestor walk past its entry `i` adds the next container, or nothing at the outermost one. */
  lemma AncestorStep(t: ParentTable, m: int, parents: seq<int>, i: nat)
    requires Valid(t) && AncestorWalk(t, m, parents, i) && i < |parents|
    ensures AncestorWalk(t, m, parents + GetParent(t, parents[i]), i + 1)
  {
    Chains.DownChain(t.up, m);
    WalkStep(t, m, Chains.Down(t.up, m), parents, i);
  }

  /** `_parent_T_str_type_digit`: the containers of `m` whose kind passes the test. */
  method KindAndDigit(t: ParentTable, rows: seq<Row>, kind: string, m: int) returns (result: set<int>)
    requires Valid(t)
    ensures forall p :: p in result <==> ParentStar(t, p, m) && Passes(rows, p, TestFor(kind))
  {
    var test := TestFor(kind);
    result := {};
    var parents := GetParent(t, m);
    AncestorStart(t, m);
    var i := 0;
    while i < |parents|
      invariant AncestorWalk(t, m, parents, i)
      invariant result == Filtered(rows, parents[..i], test)
      decreases |Chains.Down(t.up, m)| - i
    {
      var parent := parents[i];
      ghost var done := parents[..i];
      FilteredSnoc(rows, done, parent, test);
      AncestorStep(t, m, parents, i);
      parents := parents + GetParent(t, parent);
      assert parents[..i + 1] == done + [parent];
      if Passes(rows, parent, test) {
        result := result + {parent};
      }
      i := i + 1;
    }
    assert parents[..i] == Chains.Down(t.up, m);
    forall p ensures p in result <==> ParentStar(t, p, m) && Passes(rows, p, test) {
      FilteredMembers(rows, parents[..i], test, p);
      AncestorChain(t, p, m);
    }
  }

  // ---------------------------------------------------------------------
  // Helpers without a loop of their own
  // ---------------------------------------------------------------------

  /**
   * `_parent_T_wildcard_digit`: every container of `m`. The source iterates a
   * set while adding to it, which Python rejects as soon as `m` is nested
   * two deep; this is the closure it evidently means.
   */
  function WildCardAndDigit(t: ParentTable, m: int): Answer
  {
    Lines(Elements(Chains.Down(t.up, m)))
  }

  /**
   * `_parent_T_wildcard_digit` as written: it iterates the set holding the
   * container of `m` and adds that container's own container to the same
   * set, which makes Python raise a RuntimeError (None here) whenever `m` is
   * nested two deep.
   */
  function WildCardAndDigitAsWritten(t: ParentTable, m: int): Option<Answer>
  {
    if m !in t.up then Some(Lines({}))
    else if t.up[m] in t.up then None
    else Some(Lines({t.up[m]}))
  }

  /** Where the code as written does not raise, it agrees with the closure. */
  lemma WildCardAndDigitAgrees(t: ParentTable, m: int)
    requires Valid(t) && WildCardAndDigitAsWritten(t, m).Some?
    ensures WildCardAndDigitAsWritten(t, m).value == WildCardAndDigit(t, m)
  {
    if m in t.up {
      assert Chains.Down(t.up, m) == [t.up[m]];
    }
  }

  /** `while x { while y { z = 1; } }`: asking for the containers of line 3 raises. */
  lemma WildCardAndDigitRaises()
    ensures var t := ParentTable(map[1 := [2], 2 := [3]], map[2 := 1, 3 := 2]);
      Valid(t) && WildCardAndDigitAsWritten(t, 3) == None && WildCardAndDigit(t, 3) == Lines({1, 2})
  {
    var t := ParentTable(map[1 := [2], 2 := [3]], map[2 := 1, 3 := 2]);
    assert Chains.Down(t.up, 1) == [];
    assert Chains.Down(t.up, 2) == [1];
    assert Chains.Down(t.up, 3) == [2, 1];
    assert Elements([2, 1]) == {1, 2};
  }

  lemma WildCardAndDigitMeaning(t: ParentTable, m: int)
    requires Valid(t)
    ensures forall p :: p in WildCardAndDigit(t, m).lines <==> ParentStar(t, p, m)
  {
    forall p ensures p in WildCardAndDigit(t, m).lines <==> ParentStar(t, p, m) {
      AncestorChain(t, p, m);
    }
  }

  /** The lines a kind argument ranges over: every line for STMT, else the lines of that kind. */
  function KindLines(rows: seq<Row>, kind: string): seq<int>
  {
    if kind == "STMT" then AllLines(rows) else LinesOfType(rows, kind)
  }

  /** `_parent_T_wildcard_str_type`: the lines of the kind that have a container. */
  function WildCardAndKind(t: ParentTable, rows: seq<Row>, kind: string): Answer
  {
    Lines(set l | l in KindLines(rows, kind) && GetParent(t, l) != [])
  }

  lemma WildCardAndKindMeaning(t: ParentTable, rows: seq<Row>, kind: string)
    requires Valid(t)
    ensures forall d :: d in WildCardAndKind(t, rows, kind).lines <==>
      d in KindLines(rows, kind) && exists a :: ParentStar(t, a, d)
  {
    forall d ensures d in t.up <==> exists a :: ParentStar(t, a, d) {
      if d in t.up {
        AncestorChain(t, t.up[d], d);
      }
      if exists a :: ParentStar(t, a, d) {
        var a :| ParentStar(t, a, d);
        AncestorChain(t, a, d);
      }
    }
  }

  /**
   * `_parent_T_str_type_wild_card`: the containers of any statement line
   * whose kind passes the test, closed upwards (the source's set loop, which
   * adds the next container of each entry, as intended).
   */
  function KindAndWildCard(t: ParentTable, rows: seq<Row>, kind: string): Answer
  {
    Lines(set l, p | l in AllLines(rows) && p in Chains.Down(t.up, l) && Passes(rows, p, TestFor(kind)) :: p)
  }

  lemma KindAndWildCardMeaning(t: ParentTable, rows: seq<Row>, kind: string)
    requires Valid(t)
    ensures forall p :: p in KindAndWildCard(t, rows, kind).lines <==>
      Passes(rows, p, TestFor(kind)) && exists l :: l in AllLines(rows) && ParentStar(t, p, l)
  {
    forall p, l ensures p in Chains.Down(t.up, l) <==> ParentStar(t, p, l) {
      AncestorChain(t, p, l);
    }
  }

  /**
   * `_parent_T_two_str_types`: on the left the containers of a second-kind
   * line that pass the first kind's test, on the right the descendants of a
   * first-kind line that pass the second kind's test. The source's list
   * worklists start from several lines at once and may queue a line twice;
   * only the sets they produce are modelled.
   */
  function TwoKinds(t: ParentTable, rows: seq<Row>, first: string, second: string): Answer
  {
    LinePairs(
      set l, p | l in KindLines(rows, second) && p in Chains.Down(t.up, l) && Passes(rows, p, TestFor(first)) :: p,
      set l, c | l in KindLines(rows, first) && c in DescendantsOf(t, l) && Passes(rows, c, TestFor(second)) :: c)
  }

  lemma TwoKindsMeaning(t: ParentTable, rows: seq<Row>, first: string, second: string)
    requires Valid(t)
    ensures forall a :: a in TwoKinds(t, rows, first, second).left <==>
      Passes(rows, a, TestFor(first)) && exists d :: d in KindLines(rows, second) && ParentStar(t, a, d)
    ensures forall d :: d in TwoKinds(t, rows, first, second).right <==>
      Passes(rows, d, TestFor(second)) && exists a :: a in KindLines(rows, first) && ParentStar(t, a, d)
  {
    forall a, d ensures a in Chains.Down(t.up, d) <==> ParentStar(t, a, d) {
      AncestorChain(t, a, d);
    }
    forall a, d ensures d in DescendantsOf(t, a) <==> ParentStar(t, a, d) {
      DescendantsMeaning(t, a, d);
    }
  }

  /** `execute`: dispatch on a line number, `_` or a kind in each position. */
  method Execute(t: ParentTable, rows: seq<Row>, first: string, second: string) returns (r: Answer)
    requires Valid(t)
    ensures IsDigits(first) && IsDigits(second) ==> r == Truth(ParentStar(t, DigitsValue(first), DigitsValue(second)))
    ensures IsDigits(first) && second == "_" ==>
      r.Lines? && forall d :: d in r.lines <==> ParentStar(t, DigitsValue(first), d)
    ensures IsDigits(first) && IsKind(second) ==>
      r.Lines? && forall d :: d in r.lines <==>
        ParentStar(t, DigitsValue(first), d) && Passes(rows, d, if second == "STMT" then AnyStatement else Within(second))
    ensures first == "_" && IsDigits(second) ==>
      r.Lines? && forall a :: a in r.lines <==> ParentStar(t, a, DigitsValue(second))
    ensures first == "_" && second == "_" ==> r == LinePairs(t.kids.Keys, t.up.Keys)
    ensures first == "_" && IsKind(second) ==> r == WildCardAndKind(t, rows, second)
    ensures IsKind(first) && IsDigits(second) ==>
      r.Lines? && forall a :: a in r.lines <==> ParentStar(t, a, DigitsValue(second)) && Passes(rows, a, TestFor(first))
    ensures IsKind(first) && second == "_" ==> r == KindAndWildCard(t, rows, first)
    ensures IsKind(first) && IsKind(second) ==> r == TwoKinds(t, rows, first, second)
  {
    if IsDigits(first) {
      if IsDigits(second) {
        var holds := TwoDigits(t, DigitsValue(first), DigitsValue(second));
        r := Truth(holds);
      } else if second == "_" {
        var children := DigitAndWildCard(t, DigitsValue(first));
        forall d ensures d in Elements(children) <==> ParentStar(t, DigitsValue(first), d) {
          DescendantsMeaning(t, DigitsValue(first), d);
        }
        r := Lines(Elements(children));
      } else {
        var lines := DigitAndKind(t, rows, DigitsValue(first), second);
        r := Lines(lines);
      }
    } else if first == "_" {
      if IsDigits(second) {
        WildCardAndDigitMeaning(t, DigitsValue(second));
        r := WildCardAndDigit(t, DigitsValue(second));
      } else if second == "_" {
        r := LinePairs(t.kids.Keys, t.up.Keys);
      } else {
        r := WildCardAndKind(t, rows, second);
      }
    } else {
      if IsDigits(second) {
        var lines := KindAndDigit(t, rows, first, DigitsValue(second));
        r := Lines(lines);
      } else if second == "_" {
        r := KindAndWildCard(t, rows, first);
      } else {
        r := TwoKinds(t, rows, first, second);
      }
    }
  }

  /** A kind argument: neither a line number nor the wild card. */
  predicate IsKind(s: string) { !IsDigits(s) && s != "_" }

  /**
   * A table holding exactly the Parent pairs the parser derives from a
   * numbered program, each child listed once under its container, is Valid.
   */
  lemma ParsedTableValid(t: ParentTable, ps: seq<Ast.Node>)
    requires ParserFacts.ProgNumbered(ps, 1)
    requires forall c :: c in t.up ==> (t.up[c], c) in ParserFacts.ProgParent(ps)
    requires forall p, i :: p in t.kids && 0 <= i < |t.kids[p]| ==> (p, t.kids[p][i]) in ParserFacts.ProgParent(ps)
    requires forall q :: q in ParserFacts.ProgParent(ps) ==> q.1 in t.up && q.0 in t.kids && q.1 in t.kids[q.0]
    requires forall p, i, j :: p in t.kids && 0 <= i < j < |t.kids[p]| ==> t.kids[p][i] != t.kids[p][j]
    ensures Valid(t)
  {
    ParserFacts.ProgParentShape(ps, 1);
  }
}
