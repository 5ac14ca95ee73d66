/**
 * The Follows and Follows* evaluator. A clause argument is a line number
 * (a string of digits), the wild card `_`, or a statement kind such as
 * ASSIGN, WHILE or STMT (any statement); `Follows` and `FollowsT` dispatch
 * on the nine combinations. The Follows table itself is not part of this
 * model: it is taken as the pair of maps the parser fills, `succ[n]` the
 * statement right after `n` in its statement list and `pred` the reverse.
 * `index` of the table is the set of lines with a successor (`succ.Keys`),
 * `columns` the set of lines with a predecessor (`pred.Keys`).
 */
module FollowsRel {
  import opened Wrappers
  import opened Texts
  import opened StatementTables
  import opened Answers
  import Chains
  import SetFacts
  import ParserFacts
  import Ast

  datatype FollowsTable = FollowsTable(succ: map<int, int>, pred: map<int, int>)

  /** A table as the parser builds it: successors are later lines and `pred` inverts `succ`. */
  predicate Valid(t: FollowsTable)
  {
    Chains.Increasing(t.succ) && Chains.Inverse(t.succ, t.pred)
  }

  /** `get_child(n)`: the statement right after `n`. */
  function GetChild(t: FollowsTable, n: int): Option<int>
  {
    if n in t.succ then Some(t.succ[n]) else None
  }

  /** `get_follows(m)`: the statement right before `m`. */
  function GetFollows(t: FollowsTable, m: int): Option<int>
  {
    if m in t.pred then Some(t.pred[m]) else None
  }

  /** Follows(n, m): `m` comes right after `n` in the same statement list. */
  predicate IsFollows(t: FollowsTable, n: int, m: int)
  {
    n in t.succ && t.succ[n] == m
  }

  /** Follows*(n, m): `m` is reached from `n` by one or more Follows steps. */
  ghost predicate FollowsStar(t: FollowsTable, n: int, m: int)
  {
    Chains.Reaches(t.succ, n, m)
  }

  /** The kind test of the evaluator: STMT admits every line, another kind its lines in the statement table. */
  predicate KindMatches(rows: seq<Row>, line: int, kind: string)
  {
    kind == "STMT" || line in LinesOfType(rows, kind)
  }

  // ---------------------------------------------------------------------
  // Facts about valid tables
  // ---------------------------------------------------------------------

  lemma HasPredecessor(t: FollowsTable, m: int)
    requires Valid(t)
    ensures m in t.pred <==> exists n :: IsFollows(t, n, m)
  {
    if m in t.pred {
      assert IsFollows(t, t.pred[m], m);
    }
  }

  lemma HasSuccessor(t: FollowsTable, n: int)
    ensures n in t.succ <==> exists m :: IsFollows(t, n, m)
  {
    if n in t.succ {
      assert IsFollows(t, n, t.succ[n]);
    }
  }

  /** Follows* is membership in the successor chain, and equally in the predecessor chain. */
  lemma StarChains(t: FollowsTable, n: int, m: int)
    requires Valid(t)
    ensures FollowsStar(t, n, m) <==> m in Chains.Up(t.succ, n)
    ensures FollowsStar(t, n, m) <==> n in Chains.Down(t.pred, m)
  {
    Chains.UpChain(t.succ, n);
    Chains.ChainReach(t.succ, n, Chains.Up(t.succ, n), m);
    Chains.UpDownMirror(t.succ, t.pred, n, m);
  }

  /** A Follows* pair starts at a line with a successor and ends at a line with a predecessor. */
  lemma StarEnds(t: FollowsTable, n: int, m: int)
    requires Valid(t) && FollowsStar(t, n, m)
    ensures n in t.succ && m in t.pred
  {
    StarChains(t, n, m);
    var xs := Chains.Up(t.succ, n);
    Chains.UpChain(t.succ, n);
    var i :| 0 <= i < |xs| && xs[i] == m;
    Chains.AtAnchor(t.succ, n, xs, i);
    Chains.ChainEmpty(t.succ, n, xs);
  }

  /** A line has a Follows* successor exactly when it has a Follows successor. */
  lemma StarSuccessor(t: FollowsTable, n: int)
    requires Valid(t)
    ensures (exists m :: FollowsStar(t, n, m)) <==> n in t.succ
  {
    if n in t.succ {
      StarChains(t, n, t.succ[n]);
    }
    if exists m :: FollowsStar(t, n, m) {
      var m :| FollowsStar(t, n, m);
      StarEnds(t, n, m);
    }
  }

  lemma StarPredecessor(t: FollowsTable, m: int)
    requires Valid(t)
    ensures (exists n :: FollowsStar(t, n, m)) <==> m in t.pred
  {
    if m in t.pred {
      assert t.pred[m] in t.succ;
      StarChains(t, t.pred[m], m);
    }
    if exists n :: FollowsStar(t, n, m) {
      var n :| FollowsStar(t, n, m);
      StarEnds(t, n, m);
    }
  }

  /** Follows* is transitive. */
  lemma StarTransitive(t: FollowsTable, a: int, b: int, c: int)
    requires Valid(t) && FollowsStar(t, a, b) && FollowsStar(t, b, c)
    ensures FollowsStar(t, a, c)
  {
    StarChains(t, a, b);
    StarChains(t, b, c);
    StarChains(t, a, c);
    Chains.UpChain(t.succ, a);
    Chains.UpChain(t.succ, b);
    Chains.ChainTransitive(t.succ, a, Chains.Up(t.succ, a), Chains.Up(t.succ, b), b, c);
  }

  /** Follows* only moves forward, so it never relates a line to itself. */
  lemma StarForward(t: FollowsTable, n: int, m: int)
    requires Valid(t) && FollowsStar(t, n, m)
    ensures n < m
  {
    StarChains(t, n, m);
    Chains.UpAbove(t.succ, n, m);
  }

  // ---------------------------------------------------------------------
  // The chain walks
  // ---------------------------------------------------------------------

  /** `get_all_lines_in_stmt_lst_after_line`: the successors of `n` in order, each right after the previous one. */
  method LinesAfter(t: FollowsTable, n: int) returns (results: seq<int>)
    requires Valid(t)
    ensures results == Chains.Up(t.succ, n)
  {
    var pom := GetChild(t, n);
    results := [];
    while pom.Some?
      invariant pom.Some? ==> results + [pom.value] + Chains.Up(t.succ, pom.value) == Chains.Up(t.succ, n)
      invariant pom.None? ==> results == Chains.Up(t.succ, n)
      decreases if pom.Some? then |Chains.Above(t.succ, pom.value)| + 1 else 0
    {
      var p := pom.value;
      if p in t.succ {
        Chains.AboveShrinks(t.succ, p);
      }
      results := results + [p];
      pom := GetChild(t, p);
    }
  }

  /** `get_all_lines_in_stmt_lst_before_line`: the predecessors of `m`, nearest first. */
  method LinesBefore(t: FollowsTable, m: int) returns (results: seq<int>)
    requires Valid(t)
    ensures results == Chains.Down(t.pred, m)
  {
    Chains.DecreasingInverse(t.succ, t.pred);
    var pom := GetFollows(t, m);
    results := [];
    while pom.Some?
      invariant pom.Some? ==> results + [pom.value] + Chains.Down(t.pred, pom.value) == Chains.Down(t.pred, m)
      invariant pom.None? ==> results == Chains.Down(t.pred, m)
      decreases if pom.Some? then |Chains.Below(t.pred, pom.value)| + 1 else 0
    {
      var p := pom.value;
      if p in t.pred {
        Chains.BelowShrinks(t.pred, p);
      }
      results := results + [p];
      pom := GetFollows(t, p);
    }
  }

  /** The walk after `n` is its complete successor chain, and the only one. */
  lemma LinesAfterIsChain(t: FollowsTable, n: int, xs: seq<int>)
    requires Valid(t)
    ensures Chains.Chain(t.succ, n, Chains.Up(t.succ, n))
    ensures Chains.Chain(t.succ, n, xs) ==> xs == Chains.Up(t.succ, n)
  {
    Chains.UpChain(t.succ, n);
    if Chains.Chain(t.succ, n, xs) {
      Chains.ChainsAgree(t.succ, n, xs, Chains.Up(t.succ, n));
    }
  }

  /** The walk before `m` is its complete predecessor chain, and the only one. */
  lemma LinesBeforeIsChain(t: FollowsTable, m: int, xs: seq<int>)
    requires Valid(t)
    ensures Chains.Chain(t.pred, m, Chains.Down(t.pred, m))
    ensures Chains.Chain(t.pred, m, xs) ==> xs == Chains.Down(t.pred, m)
  {
    Chains.DecreasingInverse(t.succ, t.pred);
    Chains.DownChain(t.pred, m);
    if Chains.Chain(t.pred, m, xs) {
      Chains.ChainsAgree(t.pred, m, xs, Chains.Down(t.pred, m));
    }
  }

  /** The walks mirror each other: `m` comes after `n` exactly when `n` comes before `m`. */
  lemma AfterBeforeMirror(t: FollowsTable, n: int, m: int)
    requires Valid(t)
    ensures m in Chains.Up(t.succ, n) <==> n in Chains.Down(t.pred, m)
  {
    Chains.UpDownMirror(t.succ, t.pred, n, m);
  }

  // ---------------------------------------------------------------------
  // follows
  // ---------------------------------------------------------------------

  /** `_digit_and_wild_card`: Follows(n, _) holds when `n` has a successor. */
  function DigitAndWildCard(t: FollowsTable, n: int): (r: Answer)
    ensures r.Truth? && (r.holds <==> exists m :: IsFollows(t, n, m))
  {
    HasSuccessor(t, n);
    Truth(GetChild(t, n).Some?)
  }

  /** `_wild_card_and_digit` as written: it asks `get_child`, so Follows(_, m) holds when `m` has a successor. */
  function WildCardAndDigitAsWritten(t: FollowsTable, m: int): (r: Answer)
    ensures r.Truth? && (r.holds <==> exists k :: IsFollows(t, m, k))
  {
    HasSuccessor(t, m);
    Truth(GetChild(t, m).Some?)
  }

  /** `_wild_card_and_digit` as intended: Follows(_, m) holds when `m` has a predecessor. */
  function WildCardAndDigit(t: FollowsTable, m: int): (r: Answer)
    ensures r.Truth?
  {
    Truth(GetFollows(t, m).Some?)
  }

  lemma WildCardAndDigitMeaning(t: FollowsTable, m: int)
    requires Valid(t)
    ensures WildCardAndDigit(t, m).holds <==> exists n :: IsFollows(t, n, m)
  {
    HasPredecessor(t, m);
  }

  /** On the two-statement list `1; 2` the code as written denies Follows(_, 2), although Follows(1, 2) holds. */
  lemma WildCardAndDigitMisses()
    ensures var t := FollowsTable(map[1 := 2], map[2 := 1]);
      && Valid(t) && IsFollows(t, 1, 2)
      && WildCardAndDigitAsWritten(t, 2) == Truth(false)
      && WildCardAndDigit(t, 2) == Truth(true)
  {
    var t := FollowsTable(map[1 := 2], map[2 := 1]);
    assert !IsFollows(t, 2, 2 + 1 - 1);
    assert IsFollows(t, 1, 2);
  }

  /** `_digit_and_string_with_type`: Follows(n, T) is `[succ n]` when that line has kind T, else `[]`. */
  function DigitAndKind(t: FollowsTable, rows: seq<Row>, n: int, kind: string): (r: Answer)
    ensures r.Lines? && forall m :: m in r.lines <==> IsFollows(t, n, m) && KindMatches(rows, m, kind)
  {
    match GetChild(t, n)
      case Some(c) => if kind == "STMT" || c in LinesOfType(rows, kind) then Lines({c}) else Lines({})
      case None => Lines({})
  }

  /** `_str_with_type_and_digit`: Follows(T, m) is `[pred m]` when that line has kind T, else `[]`. */
  function KindAndDigit(t: FollowsTable, rows: seq<Row>, kind: string, m: int): (r: Answer)
    ensures r.Lines?
  {
    match GetFollows(t, m)
      case Some(f) => if kind == "STMT" || f in LinesOfType(rows, kind) then Lines({f}) else Lines({})
      case None => Lines({})
  }

  lemma KindAndDigitMeaning(t: FollowsTable, rows: seq<Row>, kind: string, m: int)
    requires Valid(t)
    ensures forall n :: n in KindAndDigit(t, rows, kind, m).lines <==> IsFollows(t, n, m) && KindMatches(rows, n, kind)
  {
  }

  /** `_wild_card_and_str_with_type`: the lines of kind T that have a predecessor. */
  function WildCardAndKind(t: FollowsTable, rows: seq<Row>, kind: string): (r: Answer)
    ensures r.Lines?
  {
    if kind == "STMT" then Lines(t.pred.Keys)
    else Lines(set line | line in LinesOfType(rows, kind) && GetFollows(t, line).Some?)
  }

  lemma WildCardAndKindMeaning(t: FollowsTable, rows: seq<Row>, kind: string)
    requires Valid(t)
    ensures forall m :: m in WildCardAndKind(t, rows, kind).lines <==>
      (exists n :: IsFollows(t, n, m)) && KindMatches(rows, m, kind)
  {
    forall m ensures m in t.pred <==> exists n :: IsFollows(t, n, m) {
      HasPredecessor(t, m);
    }
  }

  /** `_str_with_type_and_wild_card`: the lines of kind T that have a successor. */
  function KindAndWildCard(t: FollowsTable, rows: seq<Row>, kind: string): (r: Answer)
    ensures r.Lines?
  {
    if kind == "STMT" then Lines(t.succ.Keys)
    else Lines(Elements(LinesOfType(rows, kind)) * t.succ.Keys)
  }

  lemma KindAndWildCardMeaning(t: FollowsTable, rows: seq<Row>, kind: string)
    ensures forall n :: n in KindAndWildCard(t, rows, kind).lines <==>
      (exists m :: IsFollows(t, n, m)) && KindMatches(rows, n, kind)
  {
    forall n ensures n in t.succ <==> exists m :: IsFollows(t, n, m) {
      HasSuccessor(t, n);
    }
  }

  /**
   * `_two_str_with_types`: the Follows pairs between a line of the first kind
   * and a line of the second, split into their left and right ends. The
   * branch with two proper kinds reads `follows_table.columns`, which the
   * table does not have; it is modelled with the table's columns as intended.
   */
  function TwoKinds(t: FollowsTable, rows: seq<Row>, first: string, second: string): (r: Answer)
    ensures r.LinePairs?
  {
    if first == "STMT" then
      if second == "STMT" then LinePairs(t.succ.Keys, t.pred.Keys)
      else
        var secondLines := Elements(LinesOfType(rows, second)) * t.pred.Keys;
        LinePairs(set m | m in secondLines :: t.pred[m], secondLines)
    else
      var firstLines := Elements(LinesOfType(rows, first)) * t.succ.Keys;
      if second == "STMT" then
        LinePairs(firstLines, set n | n in firstLines :: t.succ[n])
      else
        var secondLines := Elements(LinesOfType(rows, second)) * t.pred.Keys;
        LinePairs(set n | n in firstLines && GetChild(t, n).Some? && GetChild(t, n).value in secondLines,
                  set m | m in secondLines && GetFollows(t, m).Some? && GetFollows(t, m).value in firstLines)
  }

  /**
   * Follows(T1, T2): the left result holds the lines of kind T1 followed by a
   * line of kind T2, the right result the lines of kind T2 following a line
   * of kind T1.
   */
  lemma TwoKindsMeaning(t: FollowsTable, rows: seq<Row>, first: string, second: string)
    requires Valid(t)
    ensures TwoKinds(t, rows, first, second).LinePairs?
    ensures forall n :: n in TwoKinds(t, rows, first, second).left <==>
      KindMatches(rows, n, first) && exists m :: IsFollows(t, n, m) && KindMatches(rows, m, second)
    ensures forall m :: m in TwoKinds(t, rows, first, second).right <==>
      KindMatches(rows, m, second) && exists n :: IsFollows(t, n, m) && KindMatches(rows, n, first)
  {
    var r := TwoKinds(t, rows, first, second);
    forall n ensures n in t.succ <==> exists m :: IsFollows(t, n, m) { HasSuccessor(t, n); }
    forall m ensures m in t.pred <==> exists n :: IsFollows(t, n, m) { HasPredecessor(t, m); }
    forall n | KindMatches(rows, n, first) && exists m :: IsFollows(t, n, m) && KindMatches(rows, m, second)
      ensures n in r.left
    {
      var m :| IsFollows(t, n, m) && KindMatches(rows, m, second);
      assert t.pred[m] == n;
    }
    forall m | KindMatches(rows, m, second) && exists n :: IsFollows(t, n, m) && KindMatches(rows, n, first)
      ensures m in r.right
    {
      var n :| IsFollows(t, n, m) && KindMatches(rows, n, first);
      assert t.succ[n] == m;
    }
    forall n | n in r.left
      ensures KindMatches(rows, n, first) && exists m :: IsFollows(t, n, m) && KindMatches(rows, m, second)
    {
      assert IsFollows(t, n, t.succ[n]);
    }
    forall m | m in r.right
      ensures KindMatches(rows, m, second) && exists n :: IsFollows(t, n, m) && KindMatches(rows, n, first)
    {
      assert IsFollows(t, t.pred[m], m);
    }
  }

  /** `follows`: dispatch on a line number, `_` or a kind in each position. */
  function Follows(t: FollowsTable, rows: seq<Row>, first: string, second: string): Answer
  {
    if IsDigits(first) then
      if IsDigits(second) then Truth(IsFollows(t, DigitsValue(first), DigitsValue(second)))
      else if second == "_" then DigitAndWildCard(t, DigitsValue(first))
      else DigitAndKind(t, rows, DigitsValue(first), second)
    else if first == "_" then
      if IsDigits(second) then WildCardAndDigit(t, DigitsValue(second))
      else if second == "_" then LinePairs(t.succ.Keys, t.pred.Keys)
      else WildCardAndKind(t, rows, second)
    else
      if IsDigits(second) then KindAndDigit(t, rows, first, DigitsValue(second))
      else if second == "_" then KindAndWildCard(t, rows, first)
      else TwoKinds(t, rows, first, second)
  }

  /** A kind argument: neither a line number nor the wild card. */
  predicate IsKind(s: string) { !IsDigits(s) && s != "_" }

  /** What `follows` answers, argument class by argument class. */
  lemma FollowsAnswers(t: FollowsTable, rows: seq<Row>, n: nat, m: nat, a: string, b: string)
    requires Valid(t) && IsKind(a) && IsKind(b)
    ensures Follows(t, rows, NatText(n), NatText(m)) == Truth(IsFollows(t, n, m))
    ensures Follows(t, rows, NatText(n), "_") == Truth(exists k :: IsFollows(t, n, k))
    ensures Follows(t, rows, NatText(n), b).Lines? && forall k :: k in Follows(t, rows, NatText(n), b).lines <==> IsFollows(t, n, k) && KindMatches(rows, k, b)
    ensures Follows(t, rows, "_", NatText(m)) == Truth(exists k :: IsFollows(t, k, m))
    ensures Follows(t, rows, "_", "_") == LinePairs(t.succ.Keys, t.pred.Keys)
    ensures Follows(t, rows, "_", b).Lines? && forall k :: k in Follows(t, rows, "_", b).lines <==> (exists j :: IsFollows(t, j, k)) && KindMatches(rows, k, b)
    ensures Follows(t, rows, a, NatText(m)).Lines? && forall k :: k in Follows(t, rows, a, NatText(m)).lines <==> IsFollows(t, k, m) && KindMatches(rows, k, a)
    ensures Follows(t, rows, a, "_").Lines? && forall k :: k in Follows(t, rows, a, "_").lines <==> (exists j :: IsFollows(t, k, j)) && KindMatches(rows, k, a)
    ensures Follows(t, rows, a, b) == TwoKinds(t, rows, a, b)
  {
    NatTextRoundTrip(n);
    NatTextRoundTrip(m);
    WildCardAndDigitMeaning(t, m);
    KindAndDigitMeaning(t, rows, a, m);
    WildCardAndKindMeaning(t, rows, b);
    KindAndWildCardMeaning(t, rows, a);
  }

  // ---------------------------------------------------------------------
  // follows_T
  // ---------------------------------------------------------------------

  /** `_follows_T_two_digits`: Follows*(n, m) is membership in the walk after `n`. */
  function TTwoDigits(t: FollowsTable, n: int, m: int): (r: Answer)
    ensures r.Truth?
  {
    Truth(m in Chains.Up(t.succ, n))
  }

  lemma TTwoDigitsMeaning(t: FollowsTable, n: int, m: int)
    requires Valid(t)
    ensures TTwoDigits(t, n, m).holds <==> FollowsStar(t, n, m)
  {
    StarChains(t, n, m);
  }

  /** `_follows_T_digit_and_wild_card`: Follows*(n, _) holds when the walk after `n` is not empty. */
  function TDigitAndWildCard(t: FollowsTable, n: int): (r: Answer)
    ensures r.Truth?
  {
    Truth(Chains.Up(t.succ, n) != [])
  }

  lemma TDigitAndWildCardMeaning(t: FollowsTable, n: int)
    requires Valid(t)
    ensures TDigitAndWildCard(t, n).holds <==> exists m :: FollowsStar(t, n, m)
  {
    StarSuccessor(t, n);
    Chains.UpChain(t.succ, n);
    Chains.ChainEmpty(t.succ, n, Chains.Up(t.succ, n));
  }

  /**
   * `_follows_T_wild_card_and_digit`: true when the walk before `m` is not
   * empty; otherwise the function falls off its end and answers None, not
   * false.
   */
  function TWildCardAndDigit(t: FollowsTable, m: int): Answer
  {
    if Chains.Down(t.pred, m) != [] then Truth(true) else NoAnswer
  }

  lemma TWildCardAndDigitMeaning(t: FollowsTable, m: int)
    requires Valid(t)
    ensures TWildCardAndDigit(t, m) == if exists n :: FollowsStar(t, n, m) then Truth(true) else NoAnswer
  {
    StarPredecessor(t, m);
    Chains.DecreasingInverse(t.succ, t.pred);
    Chains.DownChain(t.pred, m);
    Chains.ChainEmpty(t.pred, m, Chains.Down(t.pred, m));
  }

  /** `_follows_T_digit_str_type`: the lines of kind T in the walk after `n`. */
  function TDigitAndKind(t: FollowsTable, rows: seq<Row>, n: int, kind: string): (r: Answer)
    ensures r.Lines?
  {
    var pom := if kind == "STMT" then t.pred.Keys else Elements(LinesOfType(rows, kind));
    Lines(Elements(Chains.Up(t.succ, n)) * pom)
  }

  lemma TDigitAndKindMeaning(t: FollowsTable, rows: seq<Row>, n: int, kind: string)
    requires Valid(t)
    ensures forall m :: m in TDigitAndKind(t, rows, n, kind).lines <==> FollowsStar(t, n, m) && KindMatches(rows, m, kind)
  {
    forall m ensures m in TDigitAndKind(t, rows, n, kind).lines <==> FollowsStar(t, n, m) && KindMatches(rows, m, kind) {
      StarChains(t, n, m);
      if FollowsStar(t, n, m) { StarEnds(t, n, m); }
    }
  }

  /** `_follows_T_str_with_type_and_digit`: the lines of kind T in the walk before `m`. */
  function TKindAndDigit(t: FollowsTable, rows: seq<Row>, kind: string, m: int): (r: Answer)
    ensures r.Lines?
  {
    var pom := if kind == "STMT" then t.succ.Keys else Elements(LinesOfType(rows, kind));
    Lines(Elements(Chains.Down(t.pred, m)) * pom)
  }

  lemma TKindAndDigitMeaning(t: FollowsTable, rows: seq<Row>, kind: string, m: int)
    requires Valid(t)
    ensures forall n :: n in TKindAndDigit(t, rows, kind, m).lines <==> FollowsStar(t, n, m) && KindMatches(rows, n, kind)
  {
    forall n ensures n in TKindAndDigit(t, rows, kind, m).lines <==> FollowsStar(t, n, m) && KindMatches(rows, n, kind) {
      StarChains(t, n, m);
      if FollowsStar(t, n, m) { StarEnds(t, n, m); }
    }
  }

  /**
   * `_follows_T_wildcard_and_str_with_type` and `_follows_T_str_with_type_and_wildcard`
   * compute the same sets as their Follows counterparts, because a line has
   * a Follows* neighbour exactly when it has a Follows one.
   */
  lemma TWildCardsAgree(t: FollowsTable, rows: seq<Row>, kind: string)
    requires Valid(t)
    ensures forall m :: m in WildCardAndKind(t, rows, kind).lines <==>
      (exists n :: FollowsStar(t, n, m)) && KindMatches(rows, m, kind)
    ensures forall n :: n in KindAndWildCard(t, rows, kind).lines <==>
      (exists m :: FollowsStar(t, n, m)) && KindMatches(rows, n, kind)
  {
    WildCardAndKindMeaning(t, rows, kind);
    KindAndWildCardMeaning(t, rows, kind);
    forall m ensures m in t.pred <==> exists n :: FollowsStar(t, n, m) {
      StarPredecessor(t, m);
    }
    forall n ensures n in t.succ <==> exists m :: FollowsStar(t, n, m) {
      StarSuccessor(t, n);
    }
  }

  /** The Follows* companions of line `l` that the two-kind loop collects for it. */
  function Hits(t: FollowsTable, rows: seq<Row>, first: string, second: string, l: int): set<int>
  {
    if first == "STMT" then Elements(Chains.Down(t.pred, l))
    else if second == "STMT" then Elements(Chains.Up(t.succ, l))
    else Elements(Chains.Up(t.succ, l)) * Elements(LinesOfType(rows, second))
  }

  /** The union of the hits of the lines of `ls`. */
  function HitsUnion(t: FollowsTable, rows: seq<Row>, first: string, second: string, ls: seq<int>): set<int>
  {
    if ls == [] then {}
    else (HitsUnion(t, rows, first, second, ls[..|ls| - 1]) + Hits(t, rows, first, second, ls[|ls| - 1]))
  }

  /** The lines of `ls` with at least one hit. */
  function WithHits(t: FollowsTable, rows: seq<Row>, first: string, second: string, ls: seq<int>): set<int>
  {
    if ls == [] then {}
    else (WithHits(t, rows, first, second, ls[..|ls| - 1])
      + (if Hits(t, rows, first, second, ls[|ls| - 1]) != {} then {ls[|ls| - 1]} else {}))
  }

  lemma {:induction false} HitsUnionMembers(t: FollowsTable, rows: seq<Row>, first: string, second: string, ls: seq<int>, x: int)
    ensures x in HitsUnion(t, rows, first, second, ls) <==> exists l :: l in ls && x in Hits(t, rows, first, second, l)
  {
    if ls != [] {
      var init := ls[..|ls| - 1];
      HitsUnionMembers(t, rows, first, second, init, x);
      assert ls == init + [ls[|ls| - 1]];
      if exists l :: l in ls && x in Hits(t, rows, first, second, l) {
        var l :| l in ls && x in Hits(t, rows, first, second, l);
        if l != ls[|ls| - 1] {
          assert l in init;
        }
      }
    }
  }

  lemma {:induction false} WithHitsMembers(t: FollowsTable, rows: seq<Row>, first: string, second: string, ls: seq<int>, l: int)
    ensures l in WithHits(t, rows, first, second, ls) <==> l in ls && Hits(t, rows, first, second, l) != {}
  {
    if ls != [] {
      var init := ls[..|ls| - 1];
      WithHitsMembers(t, rows, first, second, init, l);
      assert ls == init + [ls[|ls| - 1]];
    }
  }

  /** `_follows_T_two_str_with_types`, as sets. */
  function TTwoKinds(t: FollowsTable, rows: seq<Row>, first: string, second: string): (r: Answer)
    ensures r.LinePairs?
  {
    if first == "STMT" && second == "STMT" then LinePairs(t.succ.Keys, t.pred.Keys)
    else if first == "STMT" then
      var ls := LinesOfType(rows, second);
      LinePairs(HitsUnion(t, rows, first, second, ls), WithHits(t, rows, first, second, ls))
    else
      var ls := LinesOfType(rows, first);
      LinePairs(WithHits(t, rows, first, second, ls), HitsUnion(t, rows, first, second, ls))
  }

  /** One more line of the walk adds its hits to the union, and itself to WithHits if it has any. */
  lemma HitsStep(t: FollowsTable, rows: seq<Row>, first: string, second: string, ls: seq<int>, i: nat)
    requires i < |ls|
    ensures HitsUnion(t, rows, first, second, ls[..i + 1])
      == HitsUnion(t, rows, first, second, ls[..i]) + Hits(t, rows, first, second, ls[i])
    ensures WithHits(t, rows, first, second, ls[..i + 1])
      == WithHits(t, rows, first, second, ls[..i]) + if Hits(t, rows, first, second, ls[i]) != {} then {ls[i]} else {}
  {
    assert ls[..i + 1][..i] == ls[..i];
  }

  /** The hits of line `l`, in Follows* terms. */
  lemma HitsMeaning(t: FollowsTable, rows: seq<Row>, first: string, second: string, l: int, x: int)
    requires Valid(t) && !(first == "STMT" && second == "STMT")
    ensures first == "STMT" ==> (x in Hits(t, rows, first, second, l) <==> FollowsStar(t, x, l))
    ensures first != "STMT" ==> (x in Hits(t, rows, first, second, l) <==> FollowsStar(t, l, x) && KindMatches(rows, x, second))
  {
    StarChains(t, x, l);
    StarChains(t, l, x);
  }

  /**
   * Follows*(T1, T2): the left result holds the lines of kind T1 with a later
   * line of kind T2 in their list, the right result the lines of kind T2
   * with an earlier line of kind T1.
   */
  lemma TTwoKindsMeaning(t: FollowsTable, rows: seq<Row>, first: string, second: string)
    requires Valid(t)
    ensures forall n :: n in TTwoKinds(t, rows, first, second).left <==>
      KindMatches(rows, n, first) && exists m :: FollowsStar(t, n, m) && KindMatches(rows, m, second)
    ensures forall m :: m in TTwoKinds(t, rows, first, second).right <==>
      KindMatches(rows, m, second) && exists n :: FollowsStar(t, n, m) && KindMatches(rows, n, first)
  {
    var r := TTwoKinds(t, rows, first, second);
    if first == "STMT" && second == "STMT" {
      forall n ensures n in r.left <==> exists m :: FollowsStar(t, n, m) { StarSuccessor(t, n); }
      forall m ensures m in r.right <==> exists n :: FollowsStar(t, n, m) { StarPredecessor(t, m); }
    } else if first == "STMT" {
      var ls := LinesOfType(rows, second);
      forall n ensures n in r.left <==> exists m :: FollowsStar(t, n, m) && KindMatches(rows, m, second) {
        HitsUnionMembers(t, rows, first, second, ls, n);
        forall l ensures n in Hits(t, rows, first, second, l) <==> FollowsStar(t, n, l) {
          HitsMeaning(t, rows, first, second, l, n);
        }
      }
      forall m ensures m in r.right <==> KindMatches(rows, m, second) && exists n :: FollowsStar(t, n, m) {
        WithHitsMembers(t, rows, first, second, ls, m);
        if Hits(t, rows, first, second, m) != {} {
          var n := SetFacts.Pick(Hits(t, rows, first, second, m));
          HitsMeaning(t, rows, first, second, m, n);
        }
        if exists n :: FollowsStar(t, n, m) {
          var n :| FollowsStar(t, n, m);
          HitsMeaning(t, rows, first, second, m, n);
        }
      }
    } else {
      var ls := LinesOfType(rows, first);
      forall n ensures n in r.left <==> KindMatches(rows, n, first) && exists m :: FollowsStar(t, n, m) && KindMatches(rows, m, second) {
        WithHitsMembers(t, rows, first, second, ls, n);
        if Hits(t, rows, first, second, n) != {} {
          var m := SetFacts.Pick(Hits(t, rows, first, second, n));
          HitsMeaning(t, rows, first, second, n, m);
        }
        if exists m :: FollowsStar(t, n, m) && KindMatches(rows, m, second) {
          var m :| FollowsStar(t, n, m) && KindMatches(rows, m, second);
          HitsMeaning(t, rows, first, second, n, m);
        }
      }
      forall m ensures m in r.right <==> KindMatches(rows, m, second) && exists n :: FollowsStar(t, n, m) && KindMatches(rows, n, first) {
        HitsUnionMembers(t, rows, first, second, ls, m);
        forall l ensures m in Hits(t, rows, first, second, l) <==> FollowsStar(t, l, m) && KindMatches(rows, m, second) {
          HitsMeaning(t, rows, first, second, l, m);
        }
      }
    }
  }


  /** `_follows_T_two_str_with_types`: one pass over the lines of the driving kind, collecting chains. */
  method TwoKindsWalk(t: FollowsTable, rows: seq<Row>, first: string, second: string) returns (left: set<int>, right: set<int>)
    requires Valid(t)
    ensures LinePairs(left, right) == TTwoKinds(t, rows, first, second)
  {
    if first == "STMT" && second == "STMT" {
      return t.succ.Keys, t.pred.Keys;
    }
    var ls := if first == "STMT" then LinesOfType(rows, second) else LinesOfType(rows, first);
    var union: set<int> := {};
    var kept: set<int> := {};
    for i := 0 to |ls|
      invariant union == HitsUnion(t, rows, first, second, ls[..i])
      invariant kept == WithHits(t, rows, first, second, ls[..i])
    {
      var line := ls[i];
      var pom: set<int>;
      if first == "STMT" {
        var before := LinesBefore(t, line);
        pom := Elements(before);
      } else {
        var after := LinesAfter(t, line);
        pom := if second == "STMT" then Elements(after) else Elements(after) * Elements(LinesOfType(rows, second));
      }
      HitsStep(t, rows, first, second, ls, i);
      if pom != {} {
        union := union + pom;
        kept := kept + {line};
      }
    }
    assert ls[..|ls|] == ls;
    if first == "STMT" {
      left, right := union, kept;
    } else {
      left, right := kept, union;
    }
  }

  /** `follows_T`: dispatch on a line number, `_` or a kind in each position. */
  function FollowsT(t: FollowsTable, rows: seq<Row>, first: string, second: string): Answer
  {
    if IsDigits(first) then
      if IsDigits(second) then TTwoDigits(t, DigitsValue(first), DigitsValue(second))
      else if second == "_" then TDigitAndWildCard(t, DigitsValue(first))
      else TDigitAndKind(t, rows, DigitsValue(first), second)
    else if first == "_" then
      if IsDigits(second) then TWildCardAndDigit(t, DigitsValue(second))
      else if second == "_" then LinePairs(t.succ.Keys, t.pred.Keys)
      else WildCardAndKind(t, rows, second)
    else
      if IsDigits(second) then TKindAndDigit(t, rows, first, DigitsValue(second))
      else if second == "_" then KindAndWildCard(t, rows, first)
      else TTwoKinds(t, rows, first, second)
  }

  /** What `follows_T` answers, argument class by argument class. */
  lemma FollowsTAnswers(t: FollowsTable, rows: seq<Row>, n: nat, m: nat, a: string, b: string)
    requires Valid(t) && IsKind(a) && IsKind(b)
    ensures FollowsT(t, rows, NatText(n), NatText(m)) == Truth(FollowsStar(t, n, m))
    ensures FollowsT(t, rows, NatText(n), "_") == Truth(exists k :: FollowsStar(t, n, k))
    ensures FollowsT(t, rows, NatText(n), b).Lines? && forall k :: k in FollowsT(t, rows, NatText(n), b).lines <==> FollowsStar(t, n, k) && KindMatches(rows, k, b)
    ensures FollowsT(t, rows, "_", NatText(m)) == if exists k :: FollowsStar(t, k, m) then Truth(true) else NoAnswer
    ensures FollowsT(t, rows, "_", "_") == LinePairs(t.succ.Keys, t.pred.Keys)
    ensures FollowsT(t, rows, "_", b).Lines? && forall k :: k in FollowsT(t, rows, "_", b).lines <==> (exists j :: FollowsStar(t, j, k)) && KindMatches(rows, k, b)
    ensures FollowsT(t, rows, a, NatText(m)).Lines? && forall k :: k in FollowsT(t, rows, a, NatText(m)).lines <==> FollowsStar(t, k, m) && KindMatches(rows, k, a)
    ensures FollowsT(t, rows, a, "_").Lines? && forall k :: k in FollowsT(t, rows, a, "_").lines <==> (exists j :: FollowsStar(t, k, j)) && KindMatches(rows, k, a)
    ensures FollowsT(t, rows, a, b) == TTwoKinds(t, rows, a, b)
  {
    NatTextRoundTrip(n);
    NatTextRoundTrip(m);
    TTwoDigitsMeaning(t, n, m);
    TDigitAndWildCardMeaning(t, n);
    TDigitAndKindMeaning(t, rows, n, b);
    TWildCardAndDigitMeaning(t, m);
    TKindAndDigitMeaning(t, rows, a, m);
    TWildCardsAgree(t, rows, a);
    TWildCardsAgree(t, rows, b);
  }

  /**
   * A table holding, in both directions, exactly the Follows pairs the
   * parser derives from a numbered program is Valid.
   */
  lemma ParsedTableValid(t: FollowsTable, ps: seq<Ast.Node>)
    requires ParserFacts.ProgNumbered(ps, 1)
    requires forall n :: n in t.succ ==> (n, t.succ[n]) in ParserFacts.ProgFollows(ps)
    requires forall m :: m in t.pred ==> (t.pred[m], m) in ParserFacts.ProgFollows(ps)
    requires forall p :: p in ParserFacts.ProgFollows(ps) ==> p.0 in t.succ && p.1 in t.pred
    ensures Valid(t)
  {
    ParserFacts.ProgFollowsShape(ps, 1);
  }
}
