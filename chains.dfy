/**
 * Walks along a partial map between statement lines: from `x` to `m[x]`,
 * `m[m[x]]`, … until the map has no entry. The Follows table's successor
 * and predecessor maps and the Parent table's child-to-parent map are all
 * walked this way (Follows*, Parent*). On the tables the parser builds a
 * successor is always a later line and a predecessor or parent an earlier
 * one, which is what makes the walks end.
 */
module Chains {
  import opened Wrappers
  import SetFacts

  predicate Increasing(m: map<int, int>) { forall x :: x in m ==> m[x] > x }
  predicate Decreasing(m: map<int, int>) { forall x :: x in m ==> m[x] < x }

  /** `f` and `g` are each other's inverse. */
  predicate Inverse(f: map<int, int>, g: map<int, int>)
  {
    && (forall x :: x in f ==> f[x] in g && g[f[x]] == x)
    && (forall y :: y in g ==> g[y] in f && f[g[y]] == y)
  }

  function Above(m: map<int, int>, x: int): set<int> { set k | k in m.Keys && k >= x }
  function Below(m: map<int, int>, x: int): set<int> { set k | k in m.Keys && k <= x }

  lemma AboveShrinks(m: map<int, int>, x: int)
    requires x in m && m[x] > x
    ensures |Above(m, m[x])| < |Above(m, x)|
  {
    SetFacts.GrowsInto(Above(m, m[x]), x, Above(m, x));
  }

  lemma BelowShrinks(m: map<int, int>, x: int)
    requires x in m && m[x] < x
    ensures |Below(m, m[x])| < |Below(m, x)|
  {
    SetFacts.GrowsInto(Below(m, m[x]), x, Below(m, x));
  }

  /** The climbing walk from `x` (excluded) while each step goes to a later line. */
  function Up(m: map<int, int>, x: int): seq<int>
    decreases |Above(m, x)|
  {
    if x in m && m[x] > x then AboveShrinks(m, x); [m[x]] + Up(m, m[x]) else []
  }

  /** The descending walk from `x` (excluded) while each step goes to an earlier line. */
  function Down(m: map<int, int>, x: int): seq<int>
    decreases |Below(m, x)|
  {
    if x in m && m[x] < x then BelowShrinks(m, x); [m[x]] + Down(m, m[x]) else []
  }

  /** The element before position `i` of a walk from `x`: `x` itself for the first one. */
  function At(x: int, xs: seq<int>, i: nat): int
    requires i <= |xs|
  {
    if i == 0 then x else xs[i - 1]
  }

  /** `xs` is the complete walk from `x`: each element is the image of the one before, and the last has none. */
  predicate Chain(m: map<int, int>, x: int, xs: seq<int>)
  {
    && (forall i :: 0 <= i < |xs| ==> At(x, xs, i) in m && m[At(x, xs, i)] == xs[i])
    && At(x, xs, |xs|) !in m
  }

  /** `k` steps of `m` from `x`; None once a step has no entry. */
  function Step(m: map<int, int>, x: int, k: nat): Option<int>
  {
    if k == 0 then Some(x)
    else match Step(m, x, k - 1)
      case None => None
      case Some(y) => if y in m then Some(m[y]) else None
  }

  /** `y` is reached from `x` in one step or more. */
  ghost predicate Reaches(m: map<int, int>, x: int, y: int)
  {
    exists k: nat :: k >= 1 && Step(m, x, k) == Some(y)
  }

  lemma {:induction false} UpChain(m: map<int, int>, x: int)
    requires Increasing(m)
    ensures Chain(m, x, Up(m, x))
    decreases |Above(m, x)|
  {
    if x in m {
      AboveShrinks(m, x);
      UpChain(m, m[x]);
      var xs := Up(m, x);
      assert xs == [m[x]] + Up(m, m[x]);
      forall i | 1 <= i < |xs|
        ensures At(x, xs, i) in m && m[At(x, xs, i)] == xs[i]
      {
        assert At(x, xs, i) == At(m[x], Up(m, m[x]), i - 1);
      }
      assert At(x, xs, |xs|) == At(m[x], Up(m, m[x]), |xs| - 1);
    }
  }

  lemma {:induction false} DownChain(m: map<int, int>, x: int)
    requires Decreasing(m)
    ensures Chain(m, x, Down(m, x))
    decreases |Below(m, x)|
  {
    if x in m {
      BelowShrinks(m, x);
      DownChain(m, m[x]);
      var xs := Down(m, x);
      assert xs == [m[x]] + Down(m, m[x]);
      forall i | 1 <= i < |xs|
        ensures At(x, xs, i) in m && m[At(x, xs, i)] == xs[i]
      {
        assert At(x, xs, i) == At(m[x], Down(m, m[x]), i - 1);
      }
      assert At(x, xs, |xs|) == At(m[x], Down(m, m[x]), |xs| - 1);
    }
  }

  /** A map has only one complete walk from a given line. */
  lemma {:induction false} ChainsAgree(m: map<int, int>, x: int, xs: seq<int>, ys: seq<int>)
    requires Chain(m, x, xs) && Chain(m, x, ys)
    ensures xs == ys
    decreases |xs|
  {
    ChainEmpty(m, x, xs);
    ChainEmpty(m, x, ys);
    if xs != [] {
      assert At(x, xs, 0) == x && At(x, ys, 0) == x;
      assert xs[0] == ys[0];
      ChainTail(m, x, xs);
      ChainTail(m, x, ys);
      ChainsAgree(m, xs[0], xs[1..], ys[1..]);
      assert xs == [xs[0]] + xs[1..];
      assert ys == [ys[0]] + ys[1..];
    }
  }

  /** A walk is empty exactly when its starting line has no entry. */
  lemma ChainEmpty(m: map<int, int>, x: int, xs: seq<int>)
    requires Chain(m, x, xs)
    ensures xs == [] <==> x !in m
  {
    if xs != [] {
      assert At(x, xs, 0) == x;
    }
  }

  /** What follows an element of a walk is the walk from that element. */
  lemma ChainSuffix(m: map<int, int>, x: int, xs: seq<int>, i: nat)
    requires Chain(m, x, xs) && i < |xs|
    ensures Chain(m, xs[i], xs[i + 1..])
  {
    var ys := xs[i + 1..];
    forall j | 0 <= j < |ys|
      ensures At(xs[i], ys, j) in m && m[At(xs[i], ys, j)] == ys[j]
    {
      assert At(xs[i], ys, j) == At(x, xs, i + 1 + j);
    }
    assert At(xs[i], ys, |ys|) == At(x, xs, |xs|);
  }

  lemma ChainTail(m: map<int, int>, x: int, xs: seq<int>)
    requires Chain(m, x, xs) && xs != []
    ensures Chain(m, xs[0], xs[1..])
  {
    ChainSuffix(m, x, xs, 0);
  }

  /** The positions of a walk are exactly the step counts that still land on an entry. */
  lemma {:induction false} ChainSteps(m: map<int, int>, x: int, xs: seq<int>, k: nat)
    requires Chain(m, x, xs)
    ensures 1 <= k <= |xs| ==> Step(m, x, k) == Some(xs[k - 1])
    ensures k <= |xs| ==> Step(m, x, k) == Some(At(x, xs, k))
    ensures k > |xs| ==> Step(m, x, k) == None
  {
    if k > 0 {
      ChainSteps(m, x, xs, k - 1);
    }
  }

  /** Membership in a walk is reachability in one step or more. */
  lemma ChainReach(m: map<int, int>, x: int, xs: seq<int>, y: int)
    requires Chain(m, x, xs)
    ensures y in xs <==> Reaches(m, x, y)
  {
    if y in xs {
      var i :| 0 <= i < |xs| && xs[i] == y;
      ChainSteps(m, x, xs, i + 1);
    }
    if exists k: nat :: k >= 1 && Step(m, x, k) == Some(y) {
      var k: nat :| k >= 1 && Step(m, x, k) == Some(y);
      ChainSteps(m, x, xs, k);
    }
  }

  /** Reachability along a walk is transitive. */
  lemma ChainTransitive(m: map<int, int>, x: int, xs: seq<int>, ys: seq<int>, y: int, z: int)
    requires Chain(m, x, xs) && y in xs && Chain(m, y, ys) && z in ys
    ensures z in xs
  {
    var i :| 0 <= i < |xs| && xs[i] == y;
    ChainSuffix(m, x, xs, i);
    ChainsAgree(m, y, ys, xs[i + 1..]);
  }

  lemma {:induction false} UpAbove(m: map<int, int>, x: int, y: int)
    requires y in Up(m, x)
    ensures y > x
    decreases |Above(m, x)|
  {
    AboveShrinks(m, x);
    if y != m[x] {
      UpAbove(m, m[x], y);
    }
  }

  lemma {:induction false} DownBelow(m: map<int, int>, x: int, y: int)
    requires y in Down(m, x)
    ensures y < x
    decreases |Below(m, x)|
  {
    BelowShrinks(m, x);
    if y != m[x] {
      DownBelow(m, m[x], y);
    }
  }

  /** Climbing `f` from `x` reaches `y` exactly when descending its inverse from `y` reaches `x`. */
  lemma UpDownMirror(f: map<int, int>, g: map<int, int>, x: int, y: int)
    requires Increasing(f) && Inverse(f, g)
    ensures y in Up(f, x) <==> x in Down(g, y)
  {
    if y in Up(f, x) {
      UpThenDown(f, g, x, y);
    }
    if x in Down(g, y) {
      DownThenUp(f, g, x, y);
    }
  }

  lemma {:induction false} UpThenDown(f: map<int, int>, g: map<int, int>, x: int, y: int)
    requires Increasing(f) && Inverse(f, g) && y in Up(f, x)
    ensures x in Down(g, y)
    decreases |Above(f, x)|
  {
    AboveShrinks(f, x);
    var s := f[x];
    assert s in g && g[s] == x && x < s;
    assert Down(g, s) == [x] + Down(g, x);
    if y != s {
      UpThenDown(f, g, s, y);
      DecreasingInverse(f, g);
      DownChain(g, y);
      DownChain(g, s);
      ChainTransitive(g, y, Down(g, y), Down(g, s), s, x);
    }
  }

  lemma {:induction false} DownThenUp(f: map<int, int>, g: map<int, int>, x: int, y: int)
    requires Increasing(f) && Inverse(f, g) && x in Down(g, y)
    ensures y in Up(f, x)
    decreases |Below(g, y)|
  {
    BelowShrinks(g, y);
    var p := g[y];
    assert p in f && f[p] == y && p < y;
    assert Up(f, p) == [y] + Up(f, y);
    if x != p {
      DownThenUp(f, g, x, p);
      UpChain(f, x);
      UpChain(f, p);
      ChainTransitive(f, x, Up(f, x), Up(f, p), p, y);
    }
  }

  lemma AtAnchor(m: map<int, int>, x: int, xs: seq<int>, i: nat)
    requires Chain(m, x, xs) && i < |xs|
    ensures At(x, xs, i) in m && m[At(x, xs, i)] == xs[i]
  {
  }

  lemma DecreasingInverse(f: map<int, int>, g: map<int, int>)
    requires Increasing(f) && Inverse(f, g)
    ensures Decreasing(g)
  {
    forall y | y in g
      ensures g[y] < y
    {
      assert f[g[y]] == y;
    }
  }
}
