/** The depth-bounded listing of references. A negative maxDepth is no limit. */
module Refs {
  import opened Dag
  import opened Blocks

  datatype Edge = Edge(src: Cid, dst: Cid)

  predicate Beyond(maxDepth: int, depth: int) {
    maxDepth >= 0 && depth > maxDepth
  }

  // c was listed at this depth or higher up (without a limit, at any depth),
  // or is too deep to be listed.
  predicate Covered(maxDepth: int, seen: map<Cid, nat>, c: Cid, depth: nat) {
    Beyond(maxDepth, depth) || (c in seen && (maxDepth < 0 || seen[c] <= depth))
  }

  // All links of a node at this depth are covered.
  ghost predicate Explored(g: Graph<Cid>, maxDepth: int, seen: map<Cid, nat>, c: Cid, depth: nat) {
    forall lc :: lc in Succ(g, c) ==> Covered(maxDepth, seen, lc, depth + 1)
  }

  // Everything listed, except what is still on the call stack, is explored.
  ghost predicate Settled(g: Graph<Cid>, maxDepth: int, seen: map<Cid, nat>, stack: set<Cid>) {
    forall c :: c in seen && c !in stack ==> Explored(g, maxDepth, seen, c, seen[c])
  }

  // Recorded depths only shrink, and not for the nodes on the stack.
  ghost predicate Deeper(before: map<Cid, nat>, seen: map<Cid, nat>, stack: set<Cid>) {
    && before.Keys <= seen.Keys
    && (forall c :: c in before ==> seen[c] <= before[c])
    && (forall c :: c in before && c in stack ==> seen[c] == before[c])
  }

  // Every recorded depth is the length of a path from a root.
  ghost predicate Witnessed(g: Graph<Cid>, maxDepth: int, roots: set<Cid>, seen: map<Cid, nat>) {
    forall c :: c in seen ==> 1 <= seen[c] && !Beyond(maxDepth, seen[c]) && ReachIn(g, roots, c, seen[c])
  }

  // Each identifier is listed at most once, over a real link, and only when seen.
  ghost predicate ListedOnce(g: Graph<Cid>, seen: map<Cid, nat>, out: seq<Edge>) {
    && (forall i, k :: 0 <= i < k < |out| ==> out[i].dst != out[k].dst)
    && (forall e :: e in out ==> e.dst in seen && e.dst in Succ(g, e.src))
  }

  function Targets(out: seq<Edge>): set<Cid> {
    set e | e in out :: e.dst
  }

  ghost predicate AllListed(seen: map<Cid, nat>, out: seq<Edge>) {
    seen.Keys <= Targets(out)
  }

  // What --unique keeps at all times, also after a failed fetch.
  ghost predicate UniqueInv(g: Graph<Cid>, maxDepth: int, roots: set<Cid>, seen: map<Cid, nat>, out: seq<Edge>) {
    Witnessed(g, maxDepth, roots, seen) && ListedOnce(g, seen, out)
  }

  // Everything listed was fetched.
  ghost predicate AllFetched(g: Graph<Cid>, out: seq<Edge>) {
    forall e :: e in out ==> e.dst in g
  }

  // The nodes on the stack are recorded no deeper than the current depth.
  ghost predicate Above(maxDepth: int, seen: map<Cid, nat>, stack: set<Cid>, depth: nat) {
    forall c :: c in stack ==> c in seen && (maxDepth < 0 || seen[c] <= depth)
  }

  ghost function Seeable(g: Graph<Cid>): set<Cid> {
    set b, c | b in g && c in g[b] :: c
  }

  // ---- Steps of the unique listing ----

  // The fixed data of one nested call.
  datatype Call = Call(g: Graph<Cid>, maxDepth: int, roots: set<Cid>, stack: set<Cid>)

  // What any part of the traversal keeps, from (seen0, out0) to (seen, out).
  ghost predicate Progress(k: Call, seen0: map<Cid, nat>, out0: seq<Edge>, seen: map<Cid, nat>, out: seq<Edge>, ok: bool) {
    && UniqueInv(k.g, k.maxDepth, k.roots, seen, out)
    && Deeper(seen0, seen, k.stack)
    && (ok && Settled(k.g, k.maxDepth, seen0, k.stack) ==> Settled(k.g, k.maxDepth, seen, k.stack))
    && (ok && AllListed(seen0, out0) ==> AllListed(seen, out))
  }

  lemma ProgressTrans(k: Call, s0: map<Cid, nat>, o0: seq<Edge>, s1: map<Cid, nat>, o1: seq<Edge>,
                      s2: map<Cid, nat>, o2: seq<Edge>, ok: bool)
    requires Progress(k, s0, o0, s1, o1, true) && Progress(k, s1, o1, s2, o2, ok)
    ensures Progress(k, s0, o0, s2, o2, ok)
  {
  }

  lemma NoProgress(k: Call, seen: map<Cid, nat>, out: seq<Edge>, ok: bool)
    requires UniqueInv(k.g, k.maxDepth, k.roots, seen, out)
    ensures Progress(k, seen, out, seen, out, ok)
  {
  }

  lemma CoveredStays(k: Call, s1: map<Cid, nat>, s2: map<Cid, nat>, c: Cid, depth: nat)
    requires Covered(k.maxDepth, s1, c, depth) && Deeper(s1, s2, k.stack)
    ensures Covered(k.maxDepth, s2, c, depth)
  {
  }

  lemma ExploredStays(k: Call, s1: map<Cid, nat>, s2: map<Cid, nat>, c: Cid, depth: nat)
    requires Explored(k.g, k.maxDepth, s1, c, depth) && Deeper(s1, s2, k.stack)
    ensures Explored(k.g, k.maxDepth, s2, c, depth)
  {
  }

  lemma AboveStays(k: Call, s0: map<Cid, nat>, o0: seq<Edge>, s1: map<Cid, nat>, o1: seq<Edge>, ok: bool, depth: nat)
    requires Progress(k, s0, o0, s1, o1, ok) && Above(k.maxDepth, s0, k.stack, depth)
    ensures Above(k.maxDepth, s1, k.stack, depth)
    ensures s0.Keys <= s1.Keys && UniqueInv(k.g, k.maxDepth, k.roots, s1, o1) && Deeper(s0, s1, k.stack)
  {
  }

  // Recording c at a smaller depth keeps everything covered that was.
  lemma RecordKeeps(k: Call, seen: map<Cid, nat>, c: Cid, depth: nat)
    requires Above(k.maxDepth, seen, k.stack, depth) && !Covered(k.maxDepth, seen, c, depth + 1)
    ensures c !in k.stack
    ensures Deeper(seen, seen[c := depth + 1], k.stack)
    ensures Above(k.maxDepth, seen[c := depth + 1], k.stack + {c}, depth + 1)
    ensures Settled(k.g, k.maxDepth, seen, k.stack) ==> Settled(k.g, k.maxDepth, seen[c := depth + 1], k.stack + {c})
  {
  }

  lemma ListOne(k: Call, seen: map<Cid, nat>, out: seq<Edge>, n: Cid, c: Cid, depth: nat)
    requires UniqueInv(k.g, k.maxDepth, k.roots, seen, out) && ReachIn(k.g, k.roots, n, depth) && c in Succ(k.g, n)
    requires !Covered(k.maxDepth, seen, c, depth + 1)
    ensures UniqueInv(k.g, k.maxDepth, k.roots, seen[c := depth + 1], out)
    ensures c !in seen ==> UniqueInv(k.g, k.maxDepth, k.roots, seen[c := depth + 1], out + [Edge(n, c)])
    ensures AllListed(seen, out) ==> AllListed(seen[c := depth + 1], if c in seen then out else out + [Edge(n, c)])
  {
    assert ReachIn(k.g, k.roots, c, depth + 1);
    assert Targets(out + [Edge(n, c)]) == Targets(out) + {c};
  }

  // A link recorded and then either explored by a nested call or at the limit.
  lemma LinkDone(k: Call, s0: map<Cid, nat>, o0: seq<Edge>, o1: seq<Edge>, c: Cid, depth: nat,
                 s2: map<Cid, nat>, o2: seq<Edge>, ok: bool)
    requires Above(k.maxDepth, s0, k.stack, depth) && !Covered(k.maxDepth, s0, c, depth + 1)
    requires AllListed(s0, o0) ==> AllListed(s0[c := depth + 1], o1)
    requires Progress(k.(stack := k.stack + {c}), s0[c := depth + 1], o1, s2, o2, ok)
    requires ok ==> Explored(k.g, k.maxDepth, s2, c, depth + 1)
    ensures Progress(k, s0, o0, s2, o2, ok)
    ensures ok ==> Covered(k.maxDepth, s2, c, depth + 1)
  {
    RecordKeeps(k, s0, c, depth);
    assert s2[c] == depth + 1;
  }

  lemma ExploredByLinks(g: Graph<Cid>, maxDepth: int, seen: map<Cid, nat>, n: Cid, depth: nat)
    requires forall x :: 0 <= x < |Succ(g, n)| ==> Covered(maxDepth, seen, Succ(g, n)[x], depth + 1)
    ensures Explored(g, maxDepth, seen, n, depth)
  {
  }

  lemma AtLimit(g: Graph<Cid>, maxDepth: int, seen: map<Cid, nat>, c: Cid, depth: nat)
    requires depth == maxDepth
    ensures Explored(g, maxDepth, seen, c, depth)
  {
  }

  // A recorded link whose fetch or output failed.
  lemma StoppedAt(k: Call, seen: map<Cid, nat>, out: seq<Edge>, n: Cid, c: Cid, depth: nat)
    requires UniqueInv(k.g, k.maxDepth, k.roots, seen, out) && ReachIn(k.g, k.roots, n, depth) && c in Succ(k.g, n)
    requires Above(k.maxDepth, seen, k.stack, depth) && !Covered(k.maxDepth, seen, c, depth + 1)
    ensures Progress(k, seen, out, seen[c := depth + 1], out, false)
    ensures c !in seen ==> Progress(k, seen, out, seen[c := depth + 1], out + [Edge(n, c)], false)
    ensures ReachIn(k.g, k.roots, c, depth + 1)
    ensures depth + 1 == k.maxDepth ==> c !in seen
  {
    ListOne(k, seen, out, n, c, depth);
    RecordKeeps(k, seen, c, depth);
  }

  // ---- The listing without --unique ----

  // Every link below n, in preorder, for this many levels.
  ghost function Preorder(g: Graph<Cid>, n: Cid, levels: nat): seq<Edge>
    decreases levels, 1, 0
  {
    if levels == 0 then [] else LinksPreorder(g, n, Succ(g, n), levels)
  }

  ghost function LinksPreorder(g: Graph<Cid>, n: Cid, links: seq<Cid>, levels: nat): seq<Edge>
    requires levels > 0
    decreases levels, 0, |links|
  {
    if links == [] then []
    else
      var k := |links| - 1;
      LinksPreorder(g, n, links[..k], levels) + [Edge(n, links[k])] + Preorder(g, links[k], levels - 1)
  }

  lemma PreorderLinks(g: Graph<Cid>, n: Cid, levels: nat)
    ensures Preorder(g, n, levels) == if levels == 0 then [] else LinksPreorder(g, n, Succ(g, n), levels)
  {
  }

  lemma PreorderNoLinks(g: Graph<Cid>, n: Cid, levels: nat)
    ensures levels > 0 ==> LinksPreorder(g, n, [], levels) == []
  {
  }

  lemma LinksPreorderStep(g: Graph<Cid>, n: Cid, links: seq<Cid>, i: nat, levels: nat)
    requires i < |links|
    ensures levels > 0 ==>
              LinksPreorder(g, n, links[..i + 1], levels)
                 == LinksPreorder(g, n, links[..i], levels) + [Edge(n, links[i])] + Preorder(g, links[i], levels - 1)
  {
    assert links[..i + 1][..i] == links[..i];
  }

  // No path from n has more links than this.
  ghost predicate Shallow(g: Graph<Cid>, n: Cid, levels: nat)
    decreases levels
  {
    forall c :: c in Succ(g, n) ==> levels > 0 && Shallow(g, c, levels - 1)
  }

  // The listing of several objects, one after the other.
  ghost function PreorderAll(g: Graph<Cid>, objs: seq<Cid>, levels: nat): seq<Edge> {
    if objs == [] then []
    else PreorderAll(g, objs[..|objs| - 1], levels) + Preorder(g, objs[|objs| - 1], levels)
  }

  // A path can be split at its first link as well as at its last one.
  lemma {:induction false} FirstLink(g: Graph<Cid>, n: Cid, c: Cid, j: nat)
    ensures ReachIn(g, {n}, c, j + 1) <==> exists m :: m in Succ(g, n) && ReachIn(g, {m}, c, j)
    decreases j
  {
    if j == 0 {
      assert ReachIn(g, {n}, c, 1) <==> exists b :: ReachIn(g, {n}, b, 0) && c in Succ(g, b);
      assert ReachIn(g, {n}, n, 0);
      assert ReachIn(g, {c}, c, 0);
    } else {
      forall b ensures ReachIn(g, {n}, b, j) <==> exists m :: m in Succ(g, n) && ReachIn(g, {m}, b, j - 1) {
        FirstLink(g, n, b, j - 1);
      }
      if ReachIn(g, {n}, c, j + 1) {
        var b :| ReachIn(g, {n}, b, j) && c in Succ(g, b);
        var m :| m in Succ(g, n) && ReachIn(g, {m}, b, j - 1);
        assert ReachIn(g, {m}, c, j);
      }
      forall m | m in Succ(g, n) && ReachIn(g, {m}, c, j) ensures ReachIn(g, {n}, c, j + 1) {
        var b :| ReachIn(g, {m}, b, j - 1) && c in Succ(g, b);
        assert ReachIn(g, {n}, b, j);
      }
    }
  }

  // Without --unique the listing is every link whose source is fewer than
  // levels links below n, and only those.
  lemma {:induction false} PreorderExact(g: Graph<Cid>, n: Cid, levels: nat, e: Edge)
    ensures e in Preorder(g, n, levels) <==>
            exists j: nat :: j < levels && ReachIn(g, {n}, e.src, j) && e.dst in Succ(g, e.src)
    decreases levels, 1, 0
  {
    if levels > 0 {
      LinksPreorderExact(g, n, Succ(g, n), levels, e);
      if e in Preorder(g, n, levels) {
        if e.src == n && e.dst in Succ(g, n) {
          assert ReachIn(g, {n}, n, 0);
        } else {
          var m, j :| m in Succ(g, n) && 0 <= j < levels - 1 && ReachIn(g, {m}, e.src, j) && e.dst in Succ(g, e.src);
          FirstLink(g, n, e.src, j);
        }
      }
      forall j: nat | j < levels && ReachIn(g, {n}, e.src, j) && e.dst in Succ(g, e.src)
        ensures e in Preorder(g, n, levels)
      {
        if j > 0 {
          FirstLink(g, n, e.src, j - 1);
          var m :| m in Succ(g, n) && ReachIn(g, {m}, e.src, j - 1);
        }
      }
    }
  }

  lemma {:induction false} LinksPreorderExact(g: Graph<Cid>, n: Cid, links: seq<Cid>, levels: nat, e: Edge)
    requires levels > 0
    ensures e in LinksPreorder(g, n, links, levels) <==>
            || (e.src == n && e.dst in links)
            || exists m, j :: m in links && 0 <= j < levels - 1 && ReachIn(g, {m}, e.src, j) && e.dst in Succ(g, e.src)
    decreases levels, 0, |links|
  {
    if links != [] {
      var k := |links| - 1;
      LinksPreorderExact(g, n, links[..k], levels, e);
      PreorderExact(g, links[k], levels - 1, e);
      assert links == links[..k] + [links[k]];
    }
  }

  // A path from several roots starts at one of them.
  lemma {:induction false} FromOneRoot(g: Graph<Cid>, roots: set<Cid>, c: Cid, k: nat) returns (r: Cid)
    requires ReachIn(g, roots, c, k)
    ensures r in roots && ReachIn(g, {r}, c, k)
    decreases k
  {
    if k == 0 {
      r := c;
    } else {
      var b :| ReachIn(g, roots, b, k - 1) && c in Succ(g, b);
      r := FromOneRoot(g, roots, b, k - 1);
    }
  }

  lemma {:induction false} ShallowBounds(g: Graph<Cid>, n: Cid, levels: nat, b: Cid, j: nat, c: Cid)
    requires Shallow(g, n, levels) && ReachIn(g, {n}, b, j) && c in Succ(g, b)
    ensures j < levels
    decreases j
  {
    if j > 0 {
      FirstLink(g, n, b, j - 1);
      var m :| m in Succ(g, n) && ReachIn(g, {m}, b, j - 1);
      ShallowBounds(g, m, levels - 1, b, j - 1, c);
    }
  }

  lemma {:induction false} PreorderAllHolds(g: Graph<Cid>, objs: seq<Cid>, levels: nat, o: Cid, e: Edge)
    requires o in objs && e in Preorder(g, o, levels)
    ensures e in PreorderAll(g, objs, levels)
  {
    var k := |objs| - 1;
    if o != objs[k] {
      assert objs == objs[..k] + [objs[k]];
      PreorderAllHolds(g, objs[..k], levels, o, e);
    }
  }

  // The listing without --unique also meets every identifier in range.
  lemma PreorderAllReaches(g: Graph<Cid>, maxDepth: int, objs: seq<Cid>, levels: nat, c: Cid)
    requires if maxDepth >= 0 then levels == maxDepth else forall o :: o in objs ==> Shallow(g, o, levels)
    requires InRange(g, maxDepth, Elements(objs), c)
    ensures exists e :: e in PreorderAll(g, objs, levels) && e.dst == c
  {
    var k: nat :| k >= 1 && !Beyond(maxDepth, k) && ReachIn(g, Elements(objs), c, k);
    var b :| ReachIn(g, Elements(objs), b, k - 1) && c in Succ(g, b);
    var o := FromOneRoot(g, Elements(objs), b, k - 1);
    if maxDepth < 0 { ShallowBounds(g, o, levels, b, k - 1, c); }
    var e, j: nat := Edge(b, c), k - 1;
    assert j < levels && ReachIn(g, {o}, e.src, j) && e.dst in Succ(g, e.src);
    PreorderExact(g, o, levels, e);
    PreorderAllHolds(g, objs, levels, o, e);
  }

  // ---- The unique listing is exact ----

  // Everything on a path of k links from a root that is not too deep is covered.
  lemma {:induction false} SettledCovers(g: Graph<Cid>, maxDepth: int, roots: set<Cid>, seen: map<Cid, nat>, c: Cid, k: nat)
    requires Settled(g, maxDepth, seen, {})
    requires forall r :: r in roots ==> Explored(g, maxDepth, seen, r, 0)
    requires k >= 1 && !Beyond(maxDepth, k) && ReachIn(g, roots, c, k)
    ensures c in seen && (maxDepth >= 0 ==> seen[c] <= k)
    decreases k
  {
    var b :| ReachIn(g, roots, b, k - 1) && c in Succ(g, b);
    if k == 1 {
      assert Covered(maxDepth, seen, c, 1);
    } else {
      SettledCovers(g, maxDepth, roots, seen, b, k - 1);
      assert Explored(g, maxDepth, seen, b, seen[b]);
      assert Covered(maxDepth, seen, c, seen[b] + 1);
    }
  }

  // The identifier is at the end of a path of 1..maxDepth links from a root.
  ghost predicate InRange(g: Graph<Cid>, maxDepth: int, roots: set<Cid>, c: Cid) {
    exists k: nat :: k >= 1 && !Beyond(maxDepth, k) && ReachIn(g, roots, c, k)
  }

  lemma ListedInRange(k: Call, seen: map<Cid, nat>, out: seq<Edge>)
    requires UniqueInv(k.g, k.maxDepth, k.roots, seen, out)
    ensures forall i, j :: 0 <= i < j < |out| ==> out[i].dst != out[j].dst
    ensures forall e :: e in out ==> e.dst in Succ(k.g, e.src) && InRange(k.g, k.maxDepth, k.roots, e.dst)
  {
    forall e | e in out ensures InRange(k.g, k.maxDepth, k.roots, e.dst) {
      assert ReachIn(k.g, k.roots, e.dst, seen[e.dst]);
    }
  }

  lemma NothingListed(k: Call)
    ensures UniqueInv(k.g, k.maxDepth, k.roots, map[], []) && Settled(k.g, k.maxDepth, map[], {}) && AllListed(map[], [])
  {
  }

  // Something the listing has to fetch cannot be fetched.
  ghost predicate SomeMissing(g: Graph<Cid>, maxDepth: int, roots: set<Cid>) {
    exists c :: c !in g && (c in roots || InRange(g, maxDepth, roots, c))
  }

  lemma LinkInRange(g: Graph<Cid>, maxDepth: int, roots: set<Cid>, n: Cid, c: Cid, depth: nat)
    requires ReachIn(g, roots, n, depth) && c in Succ(g, n)
    ensures ReachIn(g, roots, c, depth + 1)
    ensures !Beyond(maxDepth, depth + 1) && c !in g ==> SomeMissing(g, maxDepth, roots)
  {
    assert ReachIn(g, roots, c, depth + 1);
  }

  ghost predicate MinDistance(g: Graph<Cid>, roots: set<Cid>, c: Cid, d: nat) {
    && d >= 1 && ReachIn(g, roots, c, d)
    && forall k: nat :: k >= 1 && ReachIn(g, roots, c, k) ==> d <= k
  }

  lemma UniqueExact(g: Graph<Cid>, maxDepth: int, roots: set<Cid>, seen: map<Cid, nat>, out: seq<Edge>)
    requires UniqueInv(g, maxDepth, roots, seen, out) && AllListed(seen, out)
    requires Settled(g, maxDepth, seen, {})
    requires forall r :: r in roots ==> Explored(g, maxDepth, seen, r, 0)
    ensures forall c :: c in Targets(out) <==> InRange(g, maxDepth, roots, c)
    ensures maxDepth >= 0 ==> forall c :: c in seen ==> MinDistance(g, roots, c, seen[c])
  {
    forall c ensures c in Targets(out) <==> InRange(g, maxDepth, roots, c) {
      if c in Targets(out) {
        assert ReachIn(g, roots, c, seen[c]);
      }
      if InRange(g, maxDepth, roots, c) {
        var k: nat :| k >= 1 && !Beyond(maxDepth, k) && ReachIn(g, roots, c, k);
        SettledCovers(g, maxDepth, roots, seen, c, k);
      }
    }
    if maxDepth >= 0 {
      forall c | c in seen ensures MinDistance(g, roots, c, seen[c]) {
        forall k: nat | k >= 1 && ReachIn(g, roots, c, k) ensures seen[c] <= k {
          if k <= maxDepth { SettledCovers(g, maxDepth, roots, seen, c, k); }
        }
      }
    }
  }

  class RefWriter {
    const unique: bool
    const maxDepth: int
    // Whether the context may be cancelled or the client may go away.
    const faults: bool
    var seen: map<Cid, nat>
    var out: seq<Edge>

    constructor (unique: bool, maxDepth: int, faults: bool)
      ensures this.unique == unique && this.maxDepth == maxDepth && this.faults == faults
      ensures seen == map[] && out == []
    {
      this.unique, this.maxDepth, this.faults := unique, maxDepth, faults;
      seen, out := map[], [];
    }

    // Whether to go below c, and whether to list it.
    method Visit(c: Cid, depth: nat) returns (goDeeper: bool, shouldWrite: bool)
      modifies this`seen
      ensures !unique ==> seen == old(seen) && shouldWrite == !Beyond(maxDepth, depth)
                          && goDeeper == (maxDepth < 0 || depth < maxDepth)
      ensures unique && Covered(maxDepth, old(seen), c, depth) ==> seen == old(seen) && !goDeeper && !shouldWrite
      ensures unique && !Covered(maxDepth, old(seen), c, depth) ==>
                seen == old(seen)[c := depth] && goDeeper == (depth != maxDepth) && shouldWrite == (c !in old(seen))
    {
      var atMaxDepth := maxDepth >= 0 && depth == maxDepth;
      var overMaxDepth := maxDepth >= 0 && depth > maxDepth;
      if overMaxDepth { return false, false; }
      if !unique { return !atMaxDepth, true; }
      if c in seen && (maxDepth < 0 || seen[c] <= depth) { return false, false; }
      goDeeper, shouldWrite := !atMaxDepth, c !in seen;
      seen := seen[c := depth];
    }

    method WriteEdge(src: Cid, dst: Cid) returns (ok: bool)
      modifies this`out
      ensures out == if ok then old(out) + [Edge(src, dst)] else old(out)
      ensures !ok ==> faults
    {
      var failed := Fault(faults);
      if failed { return false; }
      out := out + [Edge(src, dst)];
      ok := true;
    }

    // Lists what is below n, which is fetched and sits at this depth.
    method WriteRefsRecursive(g: Graph<Cid>, n: Cid, depth: nat, ghost k: Call, ghost levels: nat)
      returns (count: nat, ok: bool)
      requires n in g && k.g == g && k.maxDepth == maxDepth
      requires maxDepth >= 0 ==> levels == maxDepth - depth
      requires ReachIn(g, k.roots, n, depth)
      requires unique ==> UniqueInv(g, maxDepth, k.roots, seen, out) && Above(maxDepth, seen, k.stack, depth)
      requires !unique && maxDepth < 0 ==> Shallow(g, n, levels)
      modifies this
      ensures count == |out| - |old(out)|
      ensures unique ==> Progress(k, old(seen), old(out), seen, out, ok)
      ensures unique && ok ==> Explored(g, maxDepth, seen, n, depth)
      ensures !unique && ok ==> out == old(out) + Preorder(g, n, levels)
      ensures !unique ==> seen == old(seen)
      ensures !ok ==> faults || SomeMissing(g, maxDepth, k.roots)
      ensures AllFetched(g, old(out)) ==> AllFetched(g, out)
      decreases if maxDepth >= 0 || !unique then levels else 0, Seeable(g) - seen.Keys, 1
    {
      hide UniqueInv, Settled, Deeper, AllListed, Progress, ReachIn, Above, Preorder, LinksPreorder, Covered, Explored, Seeable, AllFetched;
      count, ok := 0, false;
      var links := g[n];
      if unique { NoProgress(k, seen, out, true); }
      PreorderNoLinks(g, n, levels);
      for i := 0 to |links|
        invariant count == |out| - |old(out)|
        invariant AllFetched(g, old(out)) ==> AllFetched(g, out)
        invariant unique ==> Progress(k, old(seen), old(out), seen, out, true)
        invariant unique ==> UniqueInv(g, maxDepth, k.roots, seen, out) && Above(maxDepth, seen, k.stack, depth)
        invariant old(seen).Keys <= seen.Keys
        invariant unique ==> forall x :: 0 <= x < i ==> Covered(maxDepth, seen, links[x], depth + 1)
        invariant !unique ==> seen == old(seen)
        invariant !unique ==> out == old(out) + if levels == 0 then [] else LinksPreorder(g, n, links[..i], levels)
      {
        assert links[i] in Succ(g, n);
        LinksPreorderStep(g, n, links, i, levels);
        ghost var s1, o1 := seen, out;
        var c, done := WriteLink(g, n, links[i], depth, k, levels);
        count := count + c;
        if unique {
          AboveStays(k, s1, o1, seen, out, done, depth);
          ProgressTrans(k, old(seen), old(out), s1, o1, seen, out, done);
        }
        if !done { return; }
        if unique {
          forall x | 0 <= x < i ensures Covered(maxDepth, seen, links[x], depth + 1) {
            CoveredStays(k, s1, seen, links[x], depth + 1);
          }
        }
      }
      assert links[..|links|] == links && Succ(g, n) == links;
      PreorderLinks(g, n, levels);
      if unique { ExploredByLinks(g, maxDepth, seen, n, depth); }
      ok := true;
    }

    // The loop body: one link of n.
    method WriteLink(g: Graph<Cid>, n: Cid, lc: Cid, depth: nat, ghost k: Call, ghost levels: nat)
      returns (count: nat, ok: bool)
      requires lc in Succ(g, n) && k.g == g && k.maxDepth == maxDepth
      requires maxDepth >= 0 ==> levels == maxDepth - depth
      requires ReachIn(g, k.roots, n, depth)
      requires unique ==> UniqueInv(g, maxDepth, k.roots, seen, out) && Above(maxDepth, seen, k.stack, depth)
      requires !unique && maxDepth < 0 ==> levels > 0 && Shallow(g, lc, levels - 1)
      modifies this
      ensures count == |out| - |old(out)|
      ensures unique ==> Progress(k, old(seen), old(out), seen, out, ok)
      ensures unique && ok ==> Covered(maxDepth, seen, lc, depth + 1)
      ensures !unique && ok ==> out == old(out) + if levels == 0 then [] else [Edge(n, lc)] + Preorder(g, lc, levels - 1)
      ensures !unique ==> seen == old(seen)
      ensures !ok ==> faults || SomeMissing(g, maxDepth, k.roots)
      ensures AllFetched(g, old(out)) ==> AllFetched(g, out)
      decreases if maxDepth >= 0 || !unique then levels else 0, Seeable(g) - seen.Keys, 0
    {
      hide UniqueInv, Settled, Deeper, AllListed, Explored, Progress, LinksPreorder, ReachIn, Shallow, SomeMissing;
      count, ok := 0, false;
      ghost var s0, o0 := seen, out;
      ghost var isNew := unique && !Covered(maxDepth, seen, lc, depth + 1);
      if isNew {
        ListOne(k, seen, out, n, lc, depth);
        RecordKeeps(k, seen, lc, depth);
        StoppedAt(k, seen, out, n, lc, depth);
      } else if unique {
        NoProgress(k, seen, out, true);
      }
      var goDeeper, shouldWrite := Visit(lc, depth + 1);
      if !shouldWrite && !goDeeper { return 0, true; }
      LinkInRange(g, maxDepth, k.roots, n, lc, depth);
      if lc !in g { return; }
      if shouldWrite {
        var written := WriteEdge(n, lc);
        if !written { return; }
        count := 1;
      }
      ok := true;
      ghost var o1 := out;
      if goDeeper {
        var c;
        c, ok := WriteRefsRecursive(g, lc, depth + 1, k.(stack := k.stack + {lc}), if levels > 0 then levels - 1 else 0);
        count := count + c;
      }
      if unique && !goDeeper {
        NoProgress(k.(stack := k.stack + {lc}), seen, out, true);
        AtLimit(g, maxDepth, seen, lc, depth + 1);
      }
      if unique {
        LinkDone(k, s0, o0, o1, lc, depth, seen, out, ok);
      }
    }

    // All requested objects, sharing one record of what was seen.
    method WriteAll(g: Graph<Cid>, objs: seq<Cid>, ghost levels: nat) returns (failed: bool)
      requires seen == map[] && out == []
      requires maxDepth >= 0 ==> levels == maxDepth
      requires !unique && maxDepth < 0 ==> forall o :: o in objs ==> Shallow(g, o, levels)
      modifies this
      ensures unique ==> forall i, j :: 0 <= i < j < |out| ==> out[i].dst != out[j].dst
      ensures unique ==> forall e :: e in out ==> e.dst in Succ(g, e.src) && InRange(g, maxDepth, Elements(objs), e.dst)
      ensures unique && !failed ==> forall c :: c in Targets(out) <==> InRange(g, maxDepth, Elements(objs), c)
      ensures unique && !failed && maxDepth >= 0 ==> forall c :: c in seen ==> MinDistance(g, Elements(objs), c, seen[c])
      ensures !unique && !failed ==> out == PreorderAll(g, objs, levels)
      ensures failed ==> faults || SomeMissing(g, maxDepth, Elements(objs))
      ensures SomeMissing(g, maxDepth, Elements(objs)) ==> failed
    {
      hide UniqueInv, Settled, Explored, Deeper, AllListed, Preorder, Shallow, InRange, MinDistance;
      ghost var k := Call(g, maxDepth, Elements(objs), {});
      failed := false;
      NothingListed(k);
      for i := 0 to |objs|
        invariant unique ==> UniqueInv(g, maxDepth, k.roots, seen, out)
        invariant unique && !failed ==> Settled(g, maxDepth, seen, {}) && AllListed(seen, out)
        invariant unique && !failed ==> forall x :: 0 <= x < i ==> Explored(g, maxDepth, seen, objs[x], 0)
        invariant !unique && !failed ==> out == PreorderAll(g, objs[..i], levels)
        invariant failed ==> faults || SomeMissing(g, maxDepth, k.roots)
        invariant AllFetched(g, out)
        invariant !failed ==> forall x :: 0 <= x < i ==> objs[x] in g
      {
        assert objs[..i + 1][..i] == objs[..i];
        ghost var s1, o1 := seen, out;
        assert objs[i] in k.roots;
        if objs[i] !in g {
          failed := true;
        } else {
          assert ReachIn(g, k.roots, objs[i], 0);
          var count, ok := WriteRefsRecursive(g, objs[i], 0, k, levels);
          failed := failed || !ok;
          if unique && !failed {
            forall x | 0 <= x < i ensures Explored(g, maxDepth, seen, objs[x], 0) {
              ExploredStays(k, s1, seen, objs[x], 0);
            }
          }
        }
      }
      assert objs[..|objs|] == objs;
      if unique {
        ListedInRange(k, seen, out);
        if !failed { UniqueExact(g, maxDepth, k.roots, seen, out); }
      }
      if !failed {
        forall c | c in k.roots || InRange(g, maxDepth, k.roots, c) ensures c in g {
          if c !in k.roots {
            if unique {
              assert c in Targets(out);
            } else {
              PreorderAllReaches(g, maxDepth, objs, levels, c);
            }
          }
        }
      }
    }
  }
}
