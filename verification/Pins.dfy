/** Verifying pins with a memo, and listing pins by type. */
module Pins {
  import opened Dag
  import opened Blocks
  import opened Walks

  // ---- Verification ----

  datatype Status = Status(cid: Cid, ok: bool, badNodes: seq<Cid>)

  // Links point away from their source in some well-founded order, as hash links do.
  ghost predicate Acyclic(g: Graph<Cid>, rank: Cid -> nat) {
    forall b, c :: c in Succ(g, b) ==> rank(c) < rank(b)
  }

  // The check without a memo; an identifier outside g has no fetchable links.
  ghost function Naive(g: Graph<Cid>, rank: Cid -> nat, c: Cid): Status
    requires Acyclic(g, rank)
    decreases rank(c), 1, 0
  {
    if c !in g then Status(c, false, [c]) else Gather(g, rank, c, Succ(g, c))
  }

  ghost function Gather(g: Graph<Cid>, rank: Cid -> nat, c: Cid, links: seq<Cid>): Status
    requires Acyclic(g, rank) && forall l :: l in links ==> rank(l) < rank(c)
    decreases rank(c), 0, |links|
  {
    if links == [] then Status(c, true, [])
    else
      var k := |links| - 1;
      var status, res := Gather(g, rank, c, links[..k]), Naive(g, rank, links[k]);
      if res.ok then status else Status(c, false, status.badNodes + res.badNodes)
  }

  // The status says exactly whether something below is missing, and lists it.
  lemma {:induction false} NaiveExact(g: Graph<Cid>, rank: Cid -> nat, c: Cid, x: Cid)
    requires Acyclic(g, rank)
    ensures x in Naive(g, rank, c).badNodes <==> Reachable(g, {c}, x) && x !in g
    ensures Naive(g, rank, c).ok <==> Naive(g, rank, c).badNodes == []
    decreases rank(c), 1, 0
  {
    RootReachable(g, {c}, c);
    if c in g {
      GatherExact(g, rank, c, Succ(g, c), x);
      forall l | l in Succ(g, c) && Reachable(g, {l}, x) ensures Reachable(g, {c}, x) {
        ReachStep(g, {c}, c, l);
        ReachTrans(g, {c}, l, x);
      }
      if Reachable(g, {c}, x) && x !in g {
        LeavesThroughLink(g, c, x);
      }
    } else if Reachable(g, {c}, x) && x != c {
      LeavesThroughLink(g, c, x);
    }
  }

  lemma {:induction false} GatherExact(g: Graph<Cid>, rank: Cid -> nat, c: Cid, links: seq<Cid>, x: Cid)
    requires Acyclic(g, rank) && forall l :: l in links ==> rank(l) < rank(c)
    ensures x in Gather(g, rank, c, links).badNodes <==> exists l :: l in links && Reachable(g, {l}, x) && x !in g
    ensures Gather(g, rank, c, links).ok <==> Gather(g, rank, c, links).badNodes == []
    decreases rank(c), 0, |links|
  {
    if links != [] {
      var k := |links| - 1;
      GatherExact(g, rank, c, links[..k], x);
      NaiveExact(g, rank, links[k], x);
      assert forall l :: l in links <==> l in links[..k] || l == links[k];
    }
  }

  // A path to another node starts with one of the links.
  lemma LeavesThroughLink(g: Graph<Cid>, c: Cid, x: Cid)
    requires Reachable(g, {c}, x) && x != c
    ensures exists l :: l in Succ(g, c) && Reachable(g, {l}, x)
  {
    var k: nat :| ReachIn(g, {c}, x, k);
    SplitPath(g, c, x, k);
  }

  lemma {:induction false} SplitPath(g: Graph<Cid>, c: Cid, x: Cid, k: nat)
    requires ReachIn(g, {c}, x, k) && k > 0
    ensures exists l :: l in Succ(g, c) && Reachable(g, {l}, x)
    decreases k
  {
    var b :| ReachIn(g, {c}, b, k - 1) && x in Succ(g, b);
    if k == 1 {
      RootReachable(g, {x}, x);
    } else {
      SplitPath(g, c, b, k - 1);
      var l :| l in Succ(g, c) && Reachable(g, {l}, b);
      ReachStep(g, {l}, b, x);
    }
  }

  class Verifier {
    var visited: map<Cid, Status>

    constructor ()
      ensures visited == map[]
    {
      visited := map[];
    }

    method CheckPin(g: Graph<Cid>, root: Cid, ghost rank: Cid -> nat) returns (status: Status)
      requires Acyclic(g, rank)
      requires forall c :: c in visited ==> visited[c] == Naive(g, rank, c)
      modifies this
      ensures forall c :: c in visited ==> visited[c] == Naive(g, rank, c)
      ensures status == Naive(g, rank, root)
      decreases rank(root)
    {
      if root in visited { return visited[root]; }
      if root !in g {
        status := Status(root, false, [root]);
        visited := visited[root := status];
        return;
      }
      var links := g[root];
      assert Succ(g, root) == links;
      status := Status(root, true, []);
      for i := 0 to |links|
        invariant forall c :: c in visited ==> visited[c] == Naive(g, rank, c)
        invariant status.cid == root && status == Gather(g, rank, root, links[..i])
      {
        assert links[i] in Succ(g, root);
        var res := CheckPin(g, links[i], rank);
        assert links[..i + 1][..i] == links[..i];
        if !res.ok {
          status := status.(ok := false, badNodes := status.badNodes + res.badNodes);
        }
      }
      assert links[..|links|] == links;
      visited := visited[root := status];
    }

    // The statuses sent for the recursive pins, sharing one memo.
    method Verify(g: Graph<Cid>, recPins: seq<Cid>, ghost rank: Cid -> nat) returns (out: seq<Status>)
      requires Acyclic(g, rank) && visited == map[]
      modifies this
      ensures |out| == |recPins| && forall i :: 0 <= i < |out| ==> out[i] == Naive(g, rank, recPins[i])
      ensures forall i :: 0 <= i < |out| ==> (out[i].ok <==> forall x :: Reachable(g, {recPins[i]}, x) ==> x in g)
    {
      out := [];
      for i := 0 to |recPins|
        invariant forall c :: c in visited ==> visited[c] == Naive(g, rank, c)
        invariant |out| == i && forall k :: 0 <= k < i ==> out[k] == Naive(g, rank, recPins[k])
      {
        var status := CheckPin(g, recPins[i], rank);
        out := out + [status];
      }
      forall i | 0 <= i < |out| ensures out[i].ok <==> forall x :: Reachable(g, {recPins[i]}, x) ==> x in g {
        OkExact(g, rank, recPins[i]);
      }
    }
  }

  lemma OkExact(g: Graph<Cid>, rank: Cid -> nat, c: Cid)
    requires Acyclic(g, rank)
    ensures Naive(g, rank, c).ok <==> forall x :: Reachable(g, {c}, x) ==> x in g
  {
    NaiveExact(g, rank, c, c);
    var bad := Naive(g, rank, c).badNodes;
    if bad == [] {
      forall x | Reachable(g, {c}, x) ensures x in g { NaiveExact(g, rank, c, x); }
    } else {
      NaiveExact(g, rank, c, bad[0]);
    }
  }

  // ---- Listing ----

  datatype PinType = Recursive | Direct | Indirect
  datatype Listed = Listed(cid: Cid, pinType: PinType)
  datatype Filter = All | OnlyRecursive | OnlyDirect | OnlyIndirect

  // Reachable from a root over at least one link.
  ghost predicate BelowSome(w: World, roots: set<Cid>, c: Cid) {
    exists b :: Reachable(Follows(w, Plain), roots, b) && c in Succ(Follows(w, Plain), b)
  }

  // What each filter lists a pin as, if at all: recursive pins come first,
  // then direct ones, then what is below a recursive pin.
  ghost predicate ListedAs(w: World, filter: Filter, rkeys: set<Cid>, dkeys: set<Cid>, l: Listed) {
    match l.pinType
    case Recursive => (filter.All? || filter.OnlyRecursive?) && l.cid in rkeys
    case Direct => (filter.OnlyDirect? || (filter.All? && l.cid !in rkeys)) && l.cid in dkeys
    case Indirect => (filter.All? || filter.OnlyIndirect?) && BelowSome(w, rkeys, l.cid) && l.cid !in rkeys && l.cid !in dkeys
  }

  // Everything the walks have to fetch is there.
  ghost predicate Complete(w: World, roots: set<Cid>) {
    forall c :: Reachable(Follows(w, Plain), roots, c) ==> w.HasLinks(c)
  }

  // The walks of the first roots: closed, and only what is below some root.
  ghost predicate WalkedBelow(w: World, roots: set<Cid>, done: set<Cid>, below: set<Cid>) {
    && (forall c :: c in below ==> BelowSome(w, roots, c) && w.HasLinks(c))
    && (forall b, c :: (b in below || b in done) && c in Succ(Follows(w, Plain), b) ==> c in below)
    && (forall r :: r in done ==> w.HasLinks(r))
  }

  lemma OneMoreWalk(w: World, roots: set<Cid>, done: set<Cid>, before: set<Cid>, root: Cid, visited: set<Cid>)
    requires WalkedBelow(w, roots, done, before) && root in roots
    requires Walked(NewJob(w, Plain, root, true, before), false, visited, false, false, false)
    ensures WalkedBelow(w, roots, done + {root}, visited)
  {
    hide Follows, BelowSome, Reachable;
    forall c | c in visited && c !in before ensures BelowSome(w, roots, c) && w.HasLinks(c) {
      NewIsBelow(w, roots, before, root, c);
      assert Healthy(w, Plain, c);
    }
  }

  lemma NewIsBelow(w: World, roots: set<Cid>, before: set<Cid>, root: Cid, c: Cid)
    requires root in roots && Reachable(Follows(w, Plain) - before, Start(w, Plain, root, true), c)
    ensures BelowSome(w, roots, c)
  {
    var k: nat :| ReachIn(Follows(w, Plain) - before, Start(w, Plain, root, true), c, k);
    StartedBelow(w, roots, before, root, c, k);
  }

  lemma {:induction false} StartedBelow(w: World, roots: set<Cid>, before: set<Cid>, root: Cid, c: Cid, k: nat)
    requires root in roots && ReachIn(Follows(w, Plain) - before, Start(w, Plain, root, true), c, k)
    ensures BelowSome(w, roots, c)
    decreases k
  {
    hide Follows;
    var g := Follows(w, Plain);
    if k == 0 {
      RootReachable(g, roots, root);
    } else {
      var b :| ReachIn(g - before, Start(w, Plain, root, true), b, k - 1) && c in Succ(g - before, b);
      StartedBelow(w, roots, before, root, b, k - 1);
      var a :| Reachable(g, roots, a) && b in Succ(g, a);
      ReachStep(g, roots, a, b);
    }
  }

  // When every root is walked, the set is exactly what is below them.
  lemma WalkedAll(w: World, roots: set<Cid>, below: set<Cid>)
    requires WalkedBelow(w, roots, roots, below)
    ensures forall c :: c in below <==> BelowSome(w, roots, c)
    ensures Complete(w, roots)
  {
    hide Follows;
    var g := Follows(w, Plain);
    ClosedHoldsReachable(g, roots, roots + below);
  }

  lemma FailureIsMissing(w: World, roots: set<Cid>, before: set<Cid>, root: Cid, visited: set<Cid>)
    requires root in roots && Walked(NewJob(w, Plain, root, true, before), false, visited, false, true, false)
    ensures !Complete(w, roots)
  {
    hide Follows;
    var g := Follows(w, Plain);
    if !w.HasLinks(root) {
      RootReachable(g, roots, root);
    } else {
      var c :| c in visited && c !in before && !Healthy(w, Plain, c);
      NewIsBelow(w, roots, before, root, c);
      var b :| Reachable(g, roots, b) && c in Succ(g, b);
      ReachStep(g, roots, b, c);
    }
  }

  predicate Distinct(out: seq<Listed>) {
    forall i, k :: 0 <= i < k < |out| ==> out[i].cid != out[k].cid
  }

  // keys holds every listed identifier, and perhaps some that are only hidden.
  ghost predicate Keyed(keys: set<Cid>, out: seq<Listed>) {
    Distinct(out) && forall l :: l in out ==> l.cid in keys
  }

  class Lister {
    var keys: set<Cid>
    var out: seq<Listed>

    constructor ()
      ensures keys == {} && out == []
    {
      keys, out := {}, [];
    }

    // Lists the identifiers that are not known yet, unless cancelled.
    method AddToResultKeys(keyList: seq<Cid>, pinType: PinType, faults: bool) returns (ok: bool)
      requires Keyed(keys, out)
      modifies this
      ensures Keyed(keys, out) && (!ok ==> faults)
      ensures ok ==> keys == old(keys) + Elements(keyList)
      ensures forall l :: l in out ==> l in old(out) || (l.pinType == pinType && l.cid in keyList && l.cid !in old(keys))
      ensures forall l :: l in old(out) ==> l in out
      ensures ok ==> forall c :: c in keyList && c !in old(keys) ==> Listed(c, pinType) in out
    {
      for i := 0 to |keyList|
        invariant Keyed(keys, out)
        invariant keys == old(keys) + Elements(keyList[..i])
        invariant forall l :: l in out ==> l in old(out) || (l.pinType == pinType && l.cid in keyList && l.cid !in old(keys))
        invariant forall l :: l in old(out) ==> l in out
        invariant forall k :: 0 <= k < i && keyList[k] !in old(keys) ==> Listed(keyList[k], pinType) in out
      {
        var c := keyList[i];
        assert Elements(keyList[..i + 1]) == Elements(keyList[..i]) + {c};
        if c !in keys {
          var cancelled := Fault(faults);
          if cancelled { return false; }
          keys, out := keys + {c}, out + [Listed(c, pinType)];
        }
      }
      assert keyList[..|keyList|] == keyList;
      ok := true;
    }

    method VisitKeys(keyList: seq<Cid>)
      requires Keyed(keys, out)
      modifies this`keys
      ensures keys == old(keys) + Elements(keyList) && Keyed(keys, out)
    {
      for i := 0 to |keyList|
        invariant keys == old(keys) + Elements(keyList[..i])
      {
        keys := keys + {keyList[i]};
        assert Elements(keyList[..i + 1]) == Elements(keyList[..i]) + {keyList[i]};
      }
      assert keyList[..|keyList|] == keyList;
    }

    // The walks below the recursive pins, sharing one set, in any order.
    method WalkBelow(w: World, rkeys: seq<Cid>, faults: bool) returns (below: seq<Cid>, ok: bool, cancelled: bool)
      ensures ok ==> (forall c :: c in below <==> BelowSome(w, Elements(rkeys), c)) && Complete(w, Elements(rkeys))
      ensures !ok ==> cancelled || !Complete(w, Elements(rkeys))
      ensures cancelled ==> faults
    {
      hide Walked, WalkedBelow, Follows, BelowSome, Complete;
      var walker := new Walker();
      below, ok, cancelled := [], false, false;
      ghost var roots := Elements(rkeys);
      NothingWalked(w, roots);
      assert Elements(rkeys[..0]) == {};
      for i := 0 to |rkeys|
        invariant !walker.errors && !cancelled
        invariant WalkedBelow(w, roots, Elements(rkeys[..i]), walker.visited)
      {
        ghost var before := walker.visited;
        var abort;
        abort, cancelled := walker.Walk(w, Plain, rkeys[i], true, faults);
        WalkNeverFlags(NewJob(w, Plain, rkeys[i], true, before), walker.visited, walker.errors, abort, cancelled);
        if abort {
          if !cancelled { FailureIsMissing(w, roots, before, rkeys[i], walker.visited); }
          return;
        }
        OneMoreWalk(w, roots, Elements(rkeys[..i]), before, rkeys[i], walker.visited);
        assert Elements(rkeys[..i + 1]) == Elements(rkeys[..i]) + {rkeys[i]};
      }
      assert rkeys[..|rkeys|] == rkeys;
      WalkedAll(w, roots, walker.visited);
      ok := true;
      below := KeysOf(walker.visited);
    }

    method PinLsAll(w: World, filter: Filter, rkeys: seq<Cid>, dkeys: seq<Cid>, faults: bool) returns (ok: bool)
      requires keys == {} && out == []
      modifies this
      ensures Distinct(out)
      ensures forall l :: l in out ==> ListedAs(w, filter, Elements(rkeys), Elements(dkeys), l)
      ensures ok ==> forall l :: l in out <==> ListedAs(w, filter, Elements(rkeys), Elements(dkeys), l)
      ensures !ok ==> faults || ((filter.All? || filter.OnlyIndirect?) && !Complete(w, Elements(rkeys)))
    {
      hide BelowSome, Complete;
      ok := false;
      if filter.OnlyRecursive? || filter.All? {
        var sent := AddToResultKeys(rkeys, Recursive, faults);
        if !sent { return; }
      }
      if filter.OnlyDirect? || filter.All? {
        var sent := AddToResultKeys(dkeys, Direct, faults);
        if !sent { return; }
      }
      if filter.OnlyIndirect? {
        VisitKeys(dkeys);
        VisitKeys(rkeys);
      }
      if filter.All? || filter.OnlyIndirect? {
        var below, walked, _ := WalkBelow(w, rkeys, faults);
        if !walked { return; }
        var sent := AddToResultKeys(below, Indirect, faults);
        if !sent { return; }
      }
      ok := true;
    }
  }

  lemma NothingWalked(w: World, roots: set<Cid>)
    ensures WalkedBelow(w, roots, {}, {})
  {
  }

  lemma WalkNeverFlags(j: Job, visited: set<Cid>, errors: bool, abort: bool, interrupted: bool)
    requires j.mode.Plain? && Walked(j, false, visited, errors, abort, interrupted)
    ensures !errors && (!abort ==> !interrupted)
  {
  }

  // The identifiers of a set, in some order.
  method KeysOf(s: set<Cid>) returns (keys: seq<Cid>)
    ensures forall c :: c in keys <==> c in s
  {
    keys := [];
    var todo := s;
    while todo != {}
      invariant todo <= s && forall c :: c in keys <==> c in s - todo
    {
      var c :| c in todo;
      todo, keys := todo - {c}, keys + [c];
    }
  }
}
