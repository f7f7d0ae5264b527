/** Finite link graphs and reachability by a number of links. */
module Dag {

  // A node that is not a key has no known outgoing links.
  type Graph<N> = map<N, seq<N>>

  function Succ<N>(g: Graph<N>, n: N): seq<N> {
    if n in g then g[n] else []
  }

  // c is at the end of a path of exactly k links that starts in roots.
  ghost predicate ReachIn<N(!new)>(g: Graph<N>, roots: set<N>, c: N, k: nat)
    decreases k
  {
    if k == 0 then c in roots
    else exists b :: ReachIn(g, roots, b, k - 1) && c in Succ(g, b)
  }

  ghost predicate Reachable<N(!new)>(g: Graph<N>, roots: set<N>, c: N) {
    exists k: nat :: ReachIn(g, roots, c, k)
  }

  ghost predicate ClosedUnder<N(!new)>(g: Graph<N>, s: set<N>) {
    forall b, c :: b in s && c in Succ(g, b) ==> c in s
  }

  lemma RootReachable<N(!new)>(g: Graph<N>, roots: set<N>, c: N)
    requires c in roots
    ensures Reachable(g, roots, c)
  {
    assert ReachIn(g, roots, c, 0);
  }

  lemma ReachStep<N(!new)>(g: Graph<N>, roots: set<N>, b: N, c: N)
    requires Reachable(g, roots, b) && c in Succ(g, b)
    ensures Reachable(g, roots, c)
  {
    var k: nat :| ReachIn(g, roots, b, k);
    assert ReachIn(g, roots, c, k + 1);
  }

  // Every closed set that holds the roots holds everything reachable.
  lemma {:induction false} ClosedHoldsReach<N(!new)>(g: Graph<N>, roots: set<N>, s: set<N>, c: N, k: nat)
    requires roots <= s && ClosedUnder(g, s) && ReachIn(g, roots, c, k)
    ensures c in s
    decreases k
  {
    if k > 0 {
      var b :| ReachIn(g, roots, b, k - 1) && c in Succ(g, b);
      ClosedHoldsReach(g, roots, s, b, k - 1);
    }
  }

  lemma ClosedHoldsReachable<N(!new)>(g: Graph<N>, roots: set<N>, s: set<N>)
    requires roots <= s && ClosedUnder(g, s)
    ensures forall c :: Reachable(g, roots, c) ==> c in s
  {
    forall c | Reachable(g, roots, c) ensures c in s {
      var k: nat :| ReachIn(g, roots, c, k);
      ClosedHoldsReach(g, roots, s, c, k);
    }
  }

  ghost predicate SubGraph<N(!new)>(g: Graph<N>, h: Graph<N>) {
    forall b, c :: c in Succ(g, b) ==> c in Succ(h, b)
  }

  lemma {:induction false} ReachInMonotone<N(!new)>(g: Graph<N>, h: Graph<N>, roots: set<N>, more: set<N>, c: N, k: nat)
    requires SubGraph(g, h) && roots <= more && ReachIn(g, roots, c, k)
    ensures ReachIn(h, more, c, k)
    decreases k
  {
    if k > 0 {
      var b :| ReachIn(g, roots, b, k - 1) && c in Succ(g, b);
      ReachInMonotone(g, h, roots, more, b, k - 1);
    }
  }

  lemma ReachableMonotone<N(!new)>(g: Graph<N>, h: Graph<N>, roots: set<N>, more: set<N>)
    requires SubGraph(g, h) && roots <= more
    ensures forall c :: Reachable(g, roots, c) ==> Reachable(h, more, c)
  {
    forall c | Reachable(g, roots, c) ensures Reachable(h, more, c) {
      var k: nat :| ReachIn(g, roots, c, k);
      ReachInMonotone(g, h, roots, more, c, k);
    }
  }

  lemma {:induction false} ReachInTrans<N(!new)>(g: Graph<N>, roots: set<N>, b: N, j: nat, c: N, k: nat)
    requires ReachIn(g, roots, b, j) && ReachIn(g, {b}, c, k)
    ensures ReachIn(g, roots, c, j + k)
    decreases k
  {
    if k > 0 {
      var d :| ReachIn(g, {b}, d, k - 1) && c in Succ(g, d);
      ReachInTrans(g, roots, b, j, d, k - 1);
    }
  }

  lemma ReachTrans<N(!new)>(g: Graph<N>, roots: set<N>, b: N, c: N)
    requires Reachable(g, roots, b) && Reachable(g, {b}, c)
    ensures Reachable(g, roots, c)
  {
    var j: nat :| ReachIn(g, roots, b, j);
    var k: nat :| ReachIn(g, {b}, c, k);
    ReachInTrans(g, roots, b, j, c, k);
  }

  // p is a path from one of the roots to c, link by link.
  ghost predicate IsPath<N(!new)>(g: Graph<N>, roots: set<N>, p: seq<N>, c: N) {
    && p != [] && p[0] in roots && p[|p| - 1] == c
    && forall i :: 0 <= i < |p| - 1 ==> p[i] in g && p[i + 1] in g[p[i]]
  }

  lemma {:induction false} ReachHasPath<N(!new)>(g: Graph<N>, roots: set<N>, c: N, k: nat) returns (p: seq<N>)
    requires ReachIn(g, roots, c, k)
    ensures IsPath(g, roots, p, c) && |p| == k + 1
    decreases k
  {
    if k == 0 {
      p := [c];
    } else {
      var b :| ReachIn(g, roots, b, k - 1) && c in Succ(g, b);
      p := ReachHasPath(g, roots, b, k - 1);
      p := p + [c];
    }
  }

  lemma {:induction false} PathReaches<N(!new)>(g: Graph<N>, roots: set<N>, p: seq<N>, c: N)
    requires IsPath(g, roots, p, c)
    ensures ReachIn(g, roots, c, |p| - 1)
    decreases |p|
  {
    if |p| > 1 {
      var q := p[..|p| - 1];
      PathReaches(g, roots, q, p[|p| - 2]);
      assert p[|p| - 2] in g && c in g[p[|p| - 2]];
      assert c in Succ(g, p[|p| - 2]);
    }
  }

  // Reachability in k links is the existence of a path of k + 1 nodes.
  lemma ReachIsPath<N(!new)>(g: Graph<N>, roots: set<N>, c: N, k: nat)
    ensures ReachIn(g, roots, c, k) <==> exists p :: IsPath(g, roots, p, c) && |p| == k + 1
  {
    if ReachIn(g, roots, c, k) {
      var p := ReachHasPath(g, roots, c, k);
    }
    forall p | IsPath(g, roots, p, c) && |p| == k + 1 ensures ReachIn(g, roots, c, k) {
      PathReaches(g, roots, p, c);
    }
  }
}
