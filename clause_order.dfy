/**
 * The order in which a such-that part evaluates its relation clauses. Each
 * clause is keyed by the sum of the restriction degrees of its relation and
 * of its two arguments' types, read from a fixed table, and the clauses are
 * sorted by that key with Python's stable `list.sort`: clauses with equal
 * keys keep their query order. A relation or argument type missing from
 * the table raises KeyError, and a clause with fewer than two arguments
 * IndexError; CPython computes every key before it moves anything, so one
 * failing key fails the whole sort.
 */
module ClauseOrder {
  import opened Wrappers
  import opened Ast

  /** The degree of restriction: constants 1, synonyms 2, `_` 3; relations from Next (1) to Next* (10). */
  const DegreeOfRestriction: map<string, nat> := map[
    "INTEGER" := 1, "IDENT_QUOTE" := 1,
    "STMT" := 2, "WHILE" := 2, "ASSIGN" := 2, "VARIABLE" := 2, "CONSTANT" := 2,
    "PROCEDURE" := 2, "PROG_LINE" := 2, "CALL" := 2, "IF" := 2,
    "EVERYTHING" := 3,
    "NEXT" := 1, "FOLLOWS" := 2, "CALLS" := 3, "PARENT" := 4, "MODIFIES" := 5,
    "USES" := 6, "PARENTT" := 7, "FOLLOWST" := 8, "CALLST" := 9, "NEXTT" := 10]

  function Degree(name: string): Option<nat>
  {
    if name in DegreeOfRestriction then Some(DegreeOfRestriction[name]) else None
  }

  /** Every degree in the table lies between 1 and 10. */
  lemma DegreeBounds(name: string)
    ensures Degree(name).Some? ==> 1 <= Degree(name).value <= 10
  {
  }

  /** `relation_sort`: None when one of the three lookups raises. */
  function SortKey(clause: Node): (r: Option<nat>)
    ensures r.Some? <==>
      (&& |clause.children| >= 2 && Degree(clause.nodeType).Some?
       && Degree(clause.children[0].nodeType).Some? && Degree(clause.children[1].nodeType).Some?)
    ensures r.Some? ==> 3 <= r.value <= 30
  {
    if |clause.children| < 2 then None
    else
      var relation, first, second := Degree(clause.nodeType), Degree(clause.children[0].nodeType), Degree(clause.children[1].nodeType);
      if relation.None? || first.None? || second.None? then None
      else
        DegreeBounds(clause.nodeType);
        DegreeBounds(clause.children[0].nodeType);
        DegreeBounds(clause.children[1].nodeType);
        Some(relation.value + first.value + second.value)
  }

  /** The key sorted by; 0 stands in for a key that raises, which never reaches a sort that succeeds. */
  function Rank(key: Node -> Option<nat>, clause: Node): nat
  {
    match key(clause)
    case Some(k) => k
    case None => 0
  }

  predicate Ordered(key: Node -> Option<nat>, xs: seq<Node>)
  {
    forall i, j :: 0 <= i < j < |xs| ==> Rank(key, xs[i]) <= Rank(key, xs[j])
  }

  /** The clauses of key `k`, in their order. */
  function Tie(key: Node -> Option<nat>, xs: seq<Node>, k: nat): seq<Node>
  {
    if xs == [] then [] else (if key(xs[0]) == Some(k) then [xs[0]] else []) + Tie(key, xs[1..], k)
  }

  /** Places `c` after every clause whose key is at most its own. */
  function InsertByRank(key: Node -> Option<nat>, xs: seq<Node>, c: Node): seq<Node>
  {
    if xs == [] then [c]
    else if Rank(key, xs[0]) <= Rank(key, c) then [xs[0]] + InsertByRank(key, xs[1..], c)
    else [c] + xs
  }

  /** A stable sort by key: each clause is inserted after those that come before it. */
  function SortByRank(key: Node -> Option<nat>, xs: seq<Node>): seq<Node>
  {
    if xs == [] then [] else InsertByRank(key, SortByRank(key, xs[..|xs| - 1]), xs[|xs| - 1])
  }

  lemma {:induction false} InsertPermutes(key: Node -> Option<nat>, xs: seq<Node>, c: Node)
    ensures multiset(InsertByRank(key, xs, c)) == multiset(xs) + multiset{c}
  {
    if xs != [] && Rank(key, xs[0]) <= Rank(key, c) {
      InsertPermutes(key, xs[1..], c);
      assert xs == [xs[0]] + xs[1..];
    }
  }

  lemma {:induction false} InsertOrdered(key: Node -> Option<nat>, xs: seq<Node>, c: Node)
    requires Ordered(key, xs)
    ensures Ordered(key, InsertByRank(key, xs, c))
  {
    if xs != [] && Rank(key, xs[0]) <= Rank(key, c) {
      var rest := InsertByRank(key, xs[1..], c);
      InsertOrdered(key, xs[1..], c);
      InsertPermutes(key, xs[1..], c);
      forall j | 0 <= j < |rest|
        ensures Rank(key, xs[0]) <= Rank(key, rest[j])
      {
        assert rest[j] in multiset(xs[1..]) + multiset{c};
        if rest[j] != c {
          assert rest[j] in xs[1..];
          var i :| 0 <= i < |xs[1..]| && xs[1..][i] == rest[j];
          assert xs[i + 1] == rest[j];
        }
      }
      OrderedCons(key, xs[0], rest);
    }
  }

  lemma OrderedCons(key: Node -> Option<nat>, x: Node, rest: seq<Node>)
    requires Ordered(key, rest) && forall j :: 0 <= j < |rest| ==> Rank(key, x) <= Rank(key, rest[j])
    ensures Ordered(key, [x] + rest)
  {
    var xs := [x] + rest;
    forall i, j | 0 <= i < j < |xs|
      ensures Rank(key, xs[i]) <= Rank(key, xs[j])
    {
      assert xs[j] == rest[j - 1];
      if i > 0 {
        assert xs[i] == rest[i - 1];
      }
    }
  }

  lemma {:induction false} TieConcat(key: Node -> Option<nat>, a: seq<Node>, b: seq<Node>, k: nat)
    ensures Tie(key, a + b, k) == Tie(key, a, k) + Tie(key, b, k)
  {
    if a != [] {
      assert (a + b)[1..] == a[1..] + b;
      TieConcat(key, a[1..], b, k);
    } else {
      assert a + b == b;
    }
  }

  /** No clause of an ordered sequence starting above `k` has key `k`. */
  lemma {:induction false} TieAbove(key: Node -> Option<nat>, xs: seq<Node>, k: nat)
    requires Ordered(key, xs) && xs != [] && Rank(key, xs[0]) > k
    ensures Tie(key, xs, k) == []
  {
    if |xs| > 1 {
      TieAbove(key, xs[1..], k);
    }
  }

  lemma {:induction false} InsertStable(key: Node -> Option<nat>, xs: seq<Node>, c: Node, k: nat)
    requires Ordered(key, xs)
    ensures Tie(key, InsertByRank(key, xs, c), k) == Tie(key, xs, k) + Tie(key, [c], k)
  {
    if xs == [] {
      assert InsertByRank(key, xs, c) == [c];
    } else if Rank(key, xs[0]) <= Rank(key, c) {
      var rest := InsertByRank(key, xs[1..], c);
      assert InsertByRank(key, xs, c) == [xs[0]] + rest;
      InsertStable(key, xs[1..], c, k);
      TieConcat(key, [xs[0]], rest, k);
      TieHead(key, xs, k);
    } else {
      assert InsertByRank(key, xs, c) == [c] + xs;
      TieConcat(key, [c], xs, k);
      if key(c) == Some(k) {
        TieAbove(key, xs, k);
      } else {
        TieOne(key, c, k);
      }
    }
  }

  lemma TieOne(key: Node -> Option<nat>, c: Node, k: nat)
    ensures Tie(key, [c], k) == if key(c) == Some(k) then [c] else []
  {
    assert [c][1..] == [];
  }

  lemma {:induction false} SortPermutes(key: Node -> Option<nat>, xs: seq<Node>)
    ensures multiset(SortByRank(key, xs)) == multiset(xs)
  {
    if xs != [] {
      var init, last := xs[..|xs| - 1], xs[|xs| - 1];
      SortPermutes(key, init);
      InsertPermutes(key, SortByRank(key, init), last);
      assert xs == init + [last];
    }
  }

  lemma {:induction false} SortOrdered(key: Node -> Option<nat>, xs: seq<Node>)
    ensures Ordered(key, SortByRank(key, xs))
  {
    if xs != [] {
      SortOrdered(key, xs[..|xs| - 1]);
      InsertOrdered(key, SortByRank(key, xs[..|xs| - 1]), xs[|xs| - 1]);
    }
  }

  lemma {:induction false} SortStable(key: Node -> Option<nat>, xs: seq<Node>, k: nat)
    ensures Tie(key, SortByRank(key, xs), k) == Tie(key, xs, k)
  {
    if xs != [] {
      var init, last := xs[..|xs| - 1], xs[|xs| - 1];
      SortStable(key, init, k);
      SortOrdered(key, init);
      InsertStable(key, SortByRank(key, init), last, k);
      TieConcat(key, init, [last], k);
      assert xs == init + [last];
    }
  }

  /**
   * `root.children.sort(key=self.relation_sort)`: None when some key
   * raises; otherwise the clauses reordered by key, equal keys in query
   * order.
   */
  function SortClauses(clauses: seq<Node>): (r: Option<seq<Node>>)
    ensures r.Some? <==> forall i :: 0 <= i < |clauses| ==> SortKey(clauses[i]).Some?
    ensures r.Some? ==> multiset(r.value) == multiset(clauses)
    ensures r.Some? ==> forall i :: 0 <= i < |r.value| ==> SortKey(r.value[i]).Some?
    ensures r.Some? ==> Ordered(SortKey, r.value)
    ensures r.Some? ==> forall k :: Tie(SortKey, r.value, k) == Tie(SortKey, clauses, k)
  {
    if exists i :: 0 <= i < |clauses| && SortKey(clauses[i]).None? then None
    else
      var sorted := SortByRank(SortKey, clauses);
      SortPermutes(SortKey, clauses);
      SortOrdered(SortKey, clauses);
      assert forall k :: Tie(SortKey, sorted, k) == Tie(SortKey, clauses, k) by {
        forall k { SortStable(SortKey, clauses, k); }
      }
      assert forall i :: 0 <= i < |sorted| ==> SortKey(sorted[i]).Some? by {
        forall i | 0 <= i < |sorted| ensures SortKey(sorted[i]).Some? {
          assert sorted[i] in multiset(clauses);
        }
      }
      Some(sorted)
  }

  /**
   * The clause order of a such-that part (distribution_of_tasks): a part
   * with several clauses is sorted, a single clause is taken as it is,
   * key or no key, and a part with no clause raises IndexError.
   */
  function SuchThatOrder(clauses: seq<Node>): (r: Option<seq<Node>>)
    ensures |clauses| == 1 ==> r == Some(clauses)
    ensures |clauses| == 0 ==> r == None
    ensures |clauses| > 1 ==> r == SortClauses(clauses)
  {
    if |clauses| > 1 then SortClauses(clauses)
    else if |clauses| == 1 then Some(clauses)
    else None
  }

  /**
   * A stable sort has one possible outcome: two ordered arrangements of the
   * same clauses, every key defined, with the same ties, are the same.
   */
  lemma {:induction false} StableSortUnique(key: Node -> Option<nat>, ys: seq<Node>, zs: seq<Node>)
    requires multiset(ys) == multiset(zs) && Ordered(key, ys) && Ordered(key, zs)
    requires forall i :: 0 <= i < |ys| ==> key(ys[i]).Some?
    requires forall k :: Tie(key, ys, k) == Tie(key, zs, k)
    ensures ys == zs
    decreases |ys|
  {
    if ys != [] {
      assert |zs| == |ys| by {
        assert |multiset(zs)| == |multiset(ys)|;
      }
      LeastAgree(key, ys, zs);
      HeadsAgree(key, ys, zs);
      forall k
        ensures Tie(key, ys[1..], k) == Tie(key, zs[1..], k)
      {
        TieHead(key, ys, k);
        TieHead(key, zs, k);
        var n := |Tie(key, [ys[0]], k)|;
        assert Tie(key, ys[1..], k) == Tie(key, ys, k)[n..];
        assert Tie(key, zs[1..], k) == Tie(key, zs, k)[n..];
      }
      TailsPermute(ys, zs);
      forall i | 0 <= i < |ys[1..]|
        ensures key(ys[1..][i]).Some?
      {
        assert ys[1..][i] == ys[i + 1];
      }
      StableSortUnique(key, ys[1..], zs[1..]);
      assert ys == [ys[0]] + ys[1..];
      assert zs == [zs[0]] + zs[1..];
    }
  }

  lemma TailsPermute(ys: seq<Node>, zs: seq<Node>)
    requires ys != [] && zs != [] && ys[0] == zs[0] && multiset(ys) == multiset(zs)
    ensures multiset(ys[1..]) == multiset(zs[1..])
  {
    calc {
      multiset(ys[1..]);
      { assert ys == [ys[0]] + ys[1..]; }
      multiset(ys) - multiset{ys[0]};
      { assert zs == [zs[0]] + zs[1..]; }
      multiset(zs[1..]);
    }
  }

  lemma TieHead(key: Node -> Option<nat>, xs: seq<Node>, k: nat)
    requires xs != []
    ensures Tie(key, xs, k) == Tie(key, [xs[0]], k) + Tie(key, xs[1..], k)
  {
    TieConcat(key, [xs[0]], xs[1..], k);
    assert xs == [xs[0]] + xs[1..];
  }

  /** Two ordered arrangements of the same clauses start with the same key. */
  lemma LeastAgree(key: Node -> Option<nat>, ys: seq<Node>, zs: seq<Node>)
    requires multiset(ys) == multiset(zs) && Ordered(key, ys) && Ordered(key, zs) && ys != [] && zs != []
    ensures Rank(key, ys[0]) == Rank(key, zs[0])
  {
    assert zs[0] in multiset(ys);
    var j :| 0 <= j < |ys| && ys[j] == zs[0];
    assert ys[0] in multiset(zs);
    var l :| 0 <= l < |zs| && zs[l] == ys[0];
  }

  /** With the same least key and the same ties, the first clauses are the same clause. */
  lemma HeadsAgree(key: Node -> Option<nat>, ys: seq<Node>, zs: seq<Node>)
    requires ys != [] && zs != [] && Rank(key, ys[0]) == Rank(key, zs[0]) && multiset(ys) == multiset(zs)
    requires forall i :: 0 <= i < |ys| ==> key(ys[i]).Some?
    requires Tie(key, ys, Rank(key, ys[0])) == Tie(key, zs, Rank(key, ys[0]))
    ensures ys[0] == zs[0]
  {
    var m := Rank(key, ys[0]);
    assert zs[0] in multiset(ys);
    var j :| 0 <= j < |ys| && ys[j] == zs[0];
    assert key(zs[0]) == Some(m);
    assert key(ys[0]) == Some(m);
    TieHead(key, ys, m);
    TieHead(key, zs, m);
  }

  /** The sort the model uses is the sort Python performs. */
  lemma SortClausesUnique(clauses: seq<Node>, arranged: seq<Node>)
    requires SortClauses(clauses).Some?
    requires multiset(arranged) == multiset(clauses) && Ordered(SortKey, arranged)
    requires forall k :: Tie(SortKey, arranged, k) == Tie(SortKey, clauses, k)
    ensures arranged == SortClauses(clauses).value
  {
    var sorted := SortClauses(clauses).value;
    StableSortUnique(SortKey, sorted, arranged);
  }
}
