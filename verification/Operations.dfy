/** What whole collections, removals, pinned writes and pin changes do in the
    lifetime model: what the extra roots of a collection keep, and which
    operations can be carried out with what result. */
module Operations {
  import opened Dag
  import opened Blocks
  import opened Lifetime
  import opened PinHistory

  // ---- What a collection's own roots keep ----

  // The links of content whose block can be fetched in s.
  ghost function StoredGraph(w: World, s: State): Graph<Cid> {
    map b | b in ContentGraph(w) && Fetchable(w, s, b) :: ContentGraph(w)[b]
  }

  function Rank(p: Phase): nat {
    match p
    case WalkRecursive => 0
    case WalkBestEffort => 1
    case WalkInternal => 2
  }

  // Since the phase began, every link in g of a marked node is marked or
  // waiting, and everything g leads to is marked when the phase is over.
  ghost predicate Covered(g: Graph<Cid>, roots: set<Cid>, phase: Phase, th: Thread) {
    match th
    case Marking(p, marked, todo, failed) =>
      failed || if p == phase then Frontier(g, roots, marked, todo) else Rank(phase) < Rank(p) && ReachMarked(g, roots, marked)
    case Sweeping(marked) => ReachMarked(g, roots, marked)
    case _ => false
  }

  // A best-effort walk may only be asked for what can be fetched.
  ghost predicate Answerable(w: World, s: State, g: Graph<Cid>, phase: Phase) {
    SubGraph(g, ContentGraph(w)) && (phase.WalkBestEffort? ==> forall c :: Succ(g, c) != [] ==> Fetchable(w, s, c))
  }

  lemma CoveredStep(w: World, s: State, t: Tid, act: Action, s': State, g: Graph<Cid>, roots: set<Cid>, phase: Phase)
    requires t in s.threads && Covered(g, roots, phase, s.threads[t]) && GcAct(w, s, t, s.threads[t], act, s')
    requires s.threads[t].Marking? ==> Answerable(w, s, g, phase)
    ensures t in s'.threads && Covered(g, roots, phase, s'.threads[t])
  {
    hide Follows, Reachable, Fetchable;
    var th := s.threads[t];
    if th.Marking? && !th.failed {
      if act.Visit? && th.phase == phase {
        VisitKeepsFrontier(w, s, g, roots, th.marked, th.todo, act.c);
        assert Fetchable(w, s, ToCidV1(act.c)) <==> Fetchable(w, s, act.c) by { SameFetch(w, s, act.c); }
      } else if !act.Visit? && th.phase == phase && th.todo == {} {
        WalkedAll(g, roots, th.marked);
      }
    }
  }

  lemma SameFetch(w: World, s: State, c: Cid)
    ensures Fetchable(w, s, ToCidV1(c)) <==> Fetchable(w, s, c)
  {
  }

  lemma {:induction false} CoverLasts(w: World, r: Run, t: Tid, i: nat, j: nat, g: Graph<Cid>, roots: set<Cid>, phase: Phase)
    requires IsRun(w, r) && i < j <= |r.steps|
    requires t in r.states[i + 1].threads && Covered(g, roots, phase, r.states[i + 1].threads[t])
    requires Answerable(w, r.states[i + 1], g, phase)
    requires forall k :: i < k < j ==> r.steps[k] != Finish(t)
    ensures t in r.states[j].threads && Covered(g, roots, phase, r.states[j].threads[t])
    ensures r.states[j].threads[t].Marking? ==> r.states[i + 1].store <= r.states[j].store
    decreases j
  {
    hide Follows, Reachable, GcAct, PinAct, Pinned, Frontier, ReachMarked;
    if i + 1 < j {
      CoverLasts(w, r, t, i, j - 1, g, roots, phase);
      Lifetime.RunInv(w, r, j - 1);
      var s, a, s' := r.states[j - 1], r.steps[j - 1], r.states[j];
      assert Next(w, s, a, s');
      HolderIsAlone(s, t);
      if a.Act? {
        CoveredStep(w, s, t, a.act, s', g, roots, phase);
        MarkingKeepsStore(w, s, t, a.act, s');
      }
    }
  }

  lemma MarkingKeepsStore(w: World, s: State, t: Tid, act: Action, s': State)
    requires t in s.threads && GcAct(w, s, t, s.threads[t], act, s')
    ensures t in s'.threads && (s'.threads[t].Marking? ==> (s.threads[t].Marking? || s.threads[t].Begun?) && s'.store == s.store)
    ensures s'.recursive == s.recursive && s'.direct == s.direct
  {
    hide Follows, Reachable, Pinned;
  }

  // What the best-effort roots of a collection lead to through blocks that
  // could be fetched when they were read is not deleted by it.
  lemma BestEffortSpared(w: World, r: Run, t: Tid, i: nat, j: nat, roots: set<Cid>, h: Multihash)
    requires IsRun(w, r) && i < j < |r.steps| && (forall k :: i < k < j ==> r.steps[k] != Finish(t))
    requires r.steps[i] == Act(t, ReadBestEffort(roots)) && r.steps[j] == Act(t, SweepDelete(h))
    ensures forall c :: Reachable(StoredGraph(w, r.states[i]), V1(roots), c) ==> c.hash != h
  {
    hide Follows, Reachable, Healthy;
    var s, s', g := r.states[i], r.states[i + 1], StoredGraph(w, r.states[i]);
    assert Next(w, s, r.steps[i], s');
    Lifetime.RunInv(w, r, i);
    var th := s'.threads[t];
    if !th.failed {
      assert Frontier(ContentGraph(w), V1(s.recursive), th.marked, {});
      assert Frontier(g, V1(roots), th.marked, roots);
    }
    CoverLasts(w, r, t, i, j, g, V1(roots), WalkBestEffort);
    assert Next(w, r.states[j], r.steps[j], r.states[j + 1]);
  }

  // What its internal roots lead to, without passing through nodes that were
  // marked before, is not deleted either.
  lemma InternalSpared(w: World, r: Run, t: Tid, i: nat, j: nat, roots: set<Cid>, before: set<Cid>, h: Multihash)
    requires IsRun(w, r) && i < j < |r.steps| && (forall k :: i < k < j ==> r.steps[k] != Finish(t))
    requires r.steps[i] == Act(t, ReadDirectAndInternal(roots)) && r.steps[j] == Act(t, SweepDelete(h))
    requires t in r.states[i].threads && r.states[i].threads[t].Marking? && r.states[i].threads[t].marked == before
    ensures forall c :: Reachable(ContentGraph(w) - (before + V1(r.states[i].direct)), V1(roots), c) ==> c.hash != h
  {
    hide Follows, Reachable, Fetchable;
    var s, s' := r.states[i], r.states[i + 1];
    assert Next(w, s, r.steps[i], s');
    var th := s'.threads[t];
    var g := ContentGraph(w) - th.marked;
    assert Frontier(g, V1(roots), th.marked, roots);
    CoverLasts(w, r, t, i, j, g, V1(roots), WalkInternal);
    assert Next(w, r.states[j], r.steps[j], r.states[j + 1]);
  }

  // ---- What a collection deletes, and when it can ----

  // Thread t alone takes these actions.
  ghost predicate Does(w: World, s: State, t: Tid, acts: seq<Action>, s': State)
    decreases |acts|
  {
    if acts == [] then s' == s else exists m :: Next(w, s, Act(t, acts[0]), m) && Does(w, m, t, acts[1..], s')
  }

  // Thread t starts like this and takes these actions.
  ghost predicate Continues(w: World, s: State, t: Tid, first: Thread, acts: seq<Action>, s': State) {
    exists m :: Next(w, s, Start(t, first), m) && Does(w, m, t, acts, s')
  }

  // The block of everything below a recursive pin is stored, and its links are
  // readable.
  ghost predicate Complete(w: World, s: State) {
    forall c :: Reachable(ContentGraph(w), V1(s.recursive), c) ==>
      c.hash in s.store && c in w.fetch && w.fetch[c].Links? && c.hash !in w.insecure
  }

  lemma CompleteIsFetchable(w: World, s: State)
    ensures Complete(w, s) <==> forall c :: Reachable(ContentGraph(w), V1(s.recursive), c) ==> Fetchable(w, s, c)
  {
    ReachedIsV1(w.(insecure := {}), s.recursive);
    hide Follows, Reachable;
  }

  lemma DoesOne(w: World, s: State, t: Tid, act: Action, m: State, acts: seq<Action>, s': State)
    requires Next(w, s, Act(t, act), m) && Does(w, m, t, acts, s')
    ensures Does(w, s, t, [act] + acts, s')
  {
    hide Next;
    assert ([act] + acts)[1..] == acts;
  }

  lemma {:induction false} DoesThen(w: World, s: State, t: Tid, acts: seq<Action>, m: State, more: seq<Action>, s': State)
    requires Does(w, s, t, acts, m) && Does(w, m, t, more, s')
    ensures Does(w, s, t, acts + more, s')
    decreases |acts|
  {
    hide Next;
    if acts == [] {
      assert acts + more == more;
    } else {
      var n :| Next(w, s, Act(t, acts[0]), n) && Does(w, n, t, acts[1..], m);
      DoesThen(w, n, t, acts[1..], m, more, s');
      DoesOne(w, s, t, acts[0], n, acts[1..] + more, s');
      assert [acts[0]] + (acts[1..] + more) == acts + more;
    }
  }

  // The recursive walk can be carried to its end.
  lemma {:induction false} VisitAll(w: World, s: State, t: Tid, marked: set<Cid>, todo: set<Cid>)
    returns (acts: seq<Action>, s': State, all: set<Cid>)
    requires t in s.threads && s.threads[t] == Marking(WalkRecursive, marked, todo, false)
    requires Complete(w, s) && ReachedOnly(w, s, marked + V1(todo))
    requires todo <= AllLinks(w) + s.recursive && marked <= V1(AllLinks(w) + s.recursive)
    ensures Does(w, s, t, acts, s') && s' == Set(s, t, Marking(WalkRecursive, all, {}, false))
    ensures ReachedOnly(w, s, all)
    decreases V1(AllLinks(w) + s.recursive) - marked, todo
  {
    hide Follows, Reachable, Next, AllLinks, Fetchable, Visited;
    if todo == {} {
      acts, s', all := [], s, marked;
    } else {
      var c :| c in todo;
      var m := Set(s, t, Visited(w, s, WalkRecursive, marked, todo, false, c));
      assert Next(w, s, Act(t, Visit(c)), m) by { VisitIsStep(w, s, t, c, m); }
      VisitReaches(w, s, marked, todo, c);
      var th := m.threads[t];
      assert ReachedOnly(w, s, marked + {ToCidV1(c)});
      assert ToCidV1(c) in V1(AllLinks(w) + s.recursive);
      acts, s', all := VisitAll(w, m, t, th.marked, th.todo);
      DoesOne(w, s, t, Visit(c), m, acts, s');
      acts := [Visit(c)] + acts;
    }
  }

  ghost predicate ReachedOnly(w: World, s: State, cs: set<Cid>) {
    forall c :: c in cs ==> Reachable(ContentGraph(w), V1(s.recursive), c)
  }

  lemma VisitIsStep(w: World, s: State, t: Tid, c: Cid, m: State)
    requires t in s.threads && s.threads[t].Marking? && c in s.threads[t].todo
    requires m == Set(s, t, Visited(w, s, s.threads[t].phase, s.threads[t].marked, s.threads[t].todo, s.threads[t].failed, c))
    ensures Next(w, s, Act(t, Visit(c)), m)
  {
    hide Follows, Visited;
  }

  lemma VisitReaches(w: World, s: State, marked: set<Cid>, todo: set<Cid>, c: Cid)
    requires Complete(w, s) && ReachedOnly(w, s, marked + V1(todo)) && c in todo
    requires todo <= AllLinks(w) + s.recursive
    ensures var th := Visited(w, s, WalkRecursive, marked, todo, false, c);
            && th.Marking? && th.phase.WalkRecursive? && !th.failed && ReachedOnly(w, s, th.marked + V1(th.todo))
            && th.todo <= AllLinks(w) + s.recursive
            && if ToCidV1(c) in marked then th.marked == marked && th.todo == todo - {c} else th.marked == marked + {ToCidV1(c)}
  {
    hide Follows, Reachable, AllLinks;
    var n, ls := ToCidV1(c), Elements(w.LinksOf(c));
    assert n in V1(todo);
    if n !in marked {
      CompleteIsFetchable(w, s);
      SameFetch(w, s, c);
      assert Fetchable(w, s, c);
      FollowsLinks(w.(insecure := {}), Strict, c);
      FollowsLinks(w, Strict, c);
      forall x | x in V1(ls) ensures Reachable(ContentGraph(w), V1(s.recursive), x) {
        assert x in Succ(ContentGraph(w), n);
        ReachStep(ContentGraph(w), V1(s.recursive), n, x);
      }
      NormSetUnion(todo - {c}, ls);
    }
  }

  lemma NormSetUnion(a: set<Cid>, b: set<Cid>)
    ensures V1(a + b) == V1(a) + V1(b)
  {
  }

  // The rest of a collection without extra roots, up to one deletion.
  lemma FinishCollection(w: World, s: State, t: Tid, all: set<Cid>, h: Multihash) returns (acts: seq<Action>, s': State)
    requires t in s.threads && s.threads[t] == Marking(WalkRecursive, all, {}, false)
    requires h !in Hashes(all + V1(s.direct))
    ensures Does(w, s, t, acts, s') && h !in s'.store
  {
    hide Follows, Reachable, Pinned, Hashes, V1;
    var s1 := Set(s, t, Marking(WalkBestEffort, all, {}, false));
    var s2 := Set(s1, t, Marking(WalkInternal, all + V1(s.direct), {}, false));
    var s3 := Set(s2, t, Sweeping(all + V1(s.direct)));
    s' := s3.(store := s3.store - {h});
    DoesOne(w, s3, t, SweepDelete(h), s', [], s');
    DoesOne(w, s2, t, BeginSweep, s3, [SweepDelete(h)], s');
    DoesOne(w, s1, t, ReadDirectAndInternal({}), s2, [BeginSweep] + [SweepDelete(h)], s');
    acts := [ReadBestEffort({})] + ([ReadDirectAndInternal({})] + ([BeginSweep] + [SweepDelete(h)]));
    DoesOne(w, s, t, ReadBestEffort({}), s1, [ReadDirectAndInternal({})] + ([BeginSweep] + [SweepDelete(h)]), s');
  }

  lemma CanCollect(w: World, s: State, t: Tid, h: Multihash) returns (acts: seq<Action>, s': State)
    requires t !in s.threads && s.lock == Shared({}) && Complete(w, s) && !Protected(w, s, h)
    ensures Continues(w, s, t, Begun, acts, s') && h !in s'.store
  {
    hide Follows, Reachable, Fetchable, AllLinks, Pinned, Does;
    var s1 := Set(s, t, Begun).(lock := Exclusive(t));
    var s2 := Set(s1, t, Marking(WalkRecursive, {}, s.recursive, false));
    assert ReachedOnly(w, s2, {} + V1(s.recursive)) by {
      forall c | c in V1(s.recursive) ensures Reachable(ContentGraph(w), V1(s.recursive), c) {
        RootReachable(ContentGraph(w), V1(s.recursive), c);
      }
    }
    var visits, s3, all := VisitAll(w, s2, t, {}, s.recursive);
    assert h !in Hashes(all + V1(s.direct)) by {
      assert forall c :: c in all + V1(s.direct) ==> InUse(w, s, c);
    }
    var more;
    more, s' := FinishCollection(w, s3, t, all, h);
    DoesThen(w, s2, t, visits, s3, more, s');
    DoesOne(w, s1, t, ReadRecursive, s2, visits + more, s');
    acts := [ReadRecursive] + (visits + more);
    assert Next(w, s, Start(t, Begun), s1);
  }

  // What holds of a collection that runs alone since s0.
  ghost predicate Stage(w: World, s0: State, s: State, th: Thread) {
    s.recursive == s0.recursive && s.direct == s0.direct &&
    match th
    case Begun => s.store == s0.store
    case Marking(phase, marked, _, failed) =>
      && s.store == s0.store
      && (failed || if phase.WalkRecursive? then forall c :: c in marked ==> Fetchable(w, s0, c) else Complete(w, s0))
    case Sweeping(_) => Complete(w, s0)
    case _ => false
  }

  lemma StageStep(w: World, s0: State, s: State, t: Tid, act: Action, s': State)
    requires Inv(w, s) && t in s.threads && Stage(w, s0, s, s.threads[t]) && GcAct(w, s, t, s.threads[t], act, s')
    ensures t in s'.threads && Stage(w, s0, s', s'.threads[t])
    ensures forall h :: h in s.store && h !in s'.store ==> !Protected(w, s0, h) && Complete(w, s0)
  {
    hide Follows, Reachable, Pinned, LockHeld, Durable, Protected, Complete, Fetchable;
    var th := s.threads[t];
    if act.ReadBestEffort? && !th.failed {
      WalkedAll(ContentGraph(w), V1(s.recursive), th.marked);
      CompleteIsFetchable(w, s0);
    } else if act.Visit? {
      SameFetch(w, s, act.c);
      SameStoreSameFetch(w, s, s0, act.c);
    } else if act.SweepDelete? {
      SweepSpares(w, s, th.marked, act.h);
      SamePinsSameProtection(w, s, s0, act.h);
    }
  }

  lemma SameStoreSameFetch(w: World, s: State, s0: State, c: Cid)
    ensures s.store == s0.store ==> (Fetchable(w, s, ToCidV1(c)) <==> Fetchable(w, s0, ToCidV1(c)))
  {
  }

  lemma SamePinsSameProtection(w: World, s: State, s0: State, h: Multihash)
    requires s.recursive == s0.recursive && s.direct == s0.direct
    ensures Protected(w, s, h) <==> Protected(w, s0, h)
  {
    hide Follows, Reachable;
    forall c ensures InUse(w, s, c) <==> InUse(w, s0, c) {
    }
  }

  lemma {:induction false} CollectsOnly(w: World, s0: State, s: State, t: Tid, acts: seq<Action>, s': State, h: Multihash)
    requires Inv(w, s) && t in s.threads && Stage(w, s0, s, s.threads[t])
    requires Does(w, s, t, acts, s') && h in s.store && h !in s'.store
    ensures !Protected(w, s0, h) && Complete(w, s0)
    decreases |acts|
  {
    hide Follows, Reachable, Inv, GcAct, PinAct, Protected, Complete;
    if acts != [] {
      var m :| Next(w, s, Act(t, acts[0]), m) && Does(w, m, t, acts[1..], s');
      StageStep(w, s0, s, t, acts[0], m);
      NextKeeps(w, s, Act(t, acts[0]), m);
      if h in m.store { CollectsOnly(w, s0, m, t, acts[1..], s', h); }
    }
  }

  // From a state without any thread, some collection deletes a stored block
  // exactly when the block is not in use and everything below the recursive
  // pins is there to be walked.
  lemma CollectableIff(w: World, s: State, t: Tid, h: Multihash)
    requires Inv(w, s) && s.threads == map[] && h in s.store
    ensures (exists acts, s' :: Continues(w, s, t, Begun, acts, s') && h !in s'.store) <==> !Protected(w, s, h) && Complete(w, s)
  {
    hide Follows, Reachable, Protected, Complete, Does, GcAct, PinAct, ThreadInv;
    if !Protected(w, s, h) && Complete(w, s) {
      var acts, s' := CanCollect(w, s, t, h);
    }
    forall acts, s' | Continues(w, s, t, Begun, acts, s') && h !in s'.store ensures !Protected(w, s, h) && Complete(w, s) {
      var m :| Next(w, s, Start(t, Begun), m) && Does(w, m, t, acts, s');
      NextKeeps(w, s, Start(t, Begun), m);
      CollectsOnly(w, s, m, t, acts, s', h);
    }
  }

  // ---- Removals ----

  ghost predicate OnlyUnpinned(w: World, s0: State, s: State, th: Thread, c: Cid) {
    s.recursive == s0.recursive && s.direct == s0.direct && s.store == s0.store &&
    match th
    case Filtering(cids) => cids == {c}
    case Deleting(cids) => cids <= {c} && (c in cids ==> !Pinned(w, s0, c))
    case _ => false
  }

  lemma {:induction false} RemovesOnly(w: World, s0: State, s: State, t: Tid, acts: seq<Action>, s': State, c: Cid, h: Multihash)
    requires t in s.threads && OnlyUnpinned(w, s0, s, s.threads[t], c)
    requires Does(w, s, t, acts, s') && h in s.store && h !in s'.store
    ensures !Pinned(w, s0, c) && h == c.hash
    decreases |acts|
  {
    hide Follows, Reachable;
    if acts != [] {
      var m :| Next(w, s, Act(t, acts[0]), m) && Does(w, m, t, acts[1..], s');
      if m.store == s.store { RemovesOnly(w, s0, m, t, acts[1..], s', c, h); }
    }
  }

  // From a state without any thread, a removal of c deletes a stored block
  // exactly when it is c's and c is not pinned.
  lemma RemovableIff(w: World, s: State, t: Tid, c: Cid, h: Multihash)
    requires s.threads == map[] && s.lock == Shared({}) && h in s.store
    ensures (exists acts, s' :: Continues(w, s, t, Filtering({c}), acts, s') && h !in s'.store) <==> !Pinned(w, s, c) && h == c.hash
  {
    hide Follows, Reachable;
    var s1 := Set(s, t, Filtering({c})).(lock := Exclusive(t));
    assert Next(w, s, Start(t, Filtering({c})), s1);
    if !Pinned(w, s, c) && h == c.hash {
      var s2 := Set(s1, t, Deleting({c}));
      var s3 := Set(s2, t, Deleting({c} - {c})).(store := s2.store - {h}, removed := s2.removed + {h} * s2.store);
      DoesOne(w, s2, t, RmDelete(c), s3, [], s3);
      DoesOne(w, s1, t, Filter({c}), s2, [RmDelete(c)], s3);
      assert Continues(w, s, t, Filtering({c}), [Filter({c})] + [RmDelete(c)], s3);
    }
    forall acts, s' | Continues(w, s, t, Filtering({c}), acts, s') && h !in s'.store ensures !Pinned(w, s, c) && h == c.hash {
      var m :| Next(w, s, Start(t, Filtering({c})), m) && Does(w, m, t, acts, s');
      RemovesOnly(w, s, m, t, acts, s', c, h);
    }
  }

  // ---- Pinned writes and pin changes ----

  lemma {:induction false} AddAll(w: World, s: State, t: Tid, todo: set<Cid>, nodes: set<Cid>) returns (acts: seq<Action>, s': State)
    requires t in s.threads && s.threads[t] == Adding(todo, nodes)
    ensures Does(w, s, t, acts, s') && t in s'.threads && s'.threads[t] == Adding({}, nodes)
    ensures s'.store == s.store + Hashes(todo) && s'.recursive == s.recursive && s'.direct == s.direct
    decreases todo
  {
    hide GcAct;
    if todo == {} {
      acts, s' := [], s;
    } else {
      var c :| c in todo;
      var m := Set(s, t, Adding(todo - {c}, nodes)).(store := s.store + {c.hash}, removed := s.removed - {c.hash});
      acts, s' := AddAll(w, m, t, todo - {c}, nodes);
      DoesOne(w, s, t, AddNode(c), m, acts, s');
      acts := [AddNode(c)] + acts;
      assert Hashes(todo) == Hashes(todo - {c}) + {c.hash} by { assert todo == (todo - {c}) + {c}; }
    }
  }

  lemma {:induction false} PinAll(w: World, s: State, t: Tid, nodes: set<Cid>) returns (acts: seq<Action>, s': State)
    requires t in s.threads && s.threads[t] == Pinning(nodes)
    ensures Does(w, s, t, acts, s')
    ensures s'.store == s.store && s'.recursive == s.recursive + nodes && s'.direct == s.direct
    decreases nodes
  {
    hide GcAct;
    if nodes == {} {
      acts, s' := [], s;
    } else {
      var c :| c in nodes;
      var m := Set(s, t, Pinning(nodes - {c})).(recursive := s.recursive + {c}, landed := s.landed + {c});
      acts, s' := PinAll(w, m, t, nodes - {c});
      DoesOne(w, s, t, PinNode(c), m, acts, s');
      acts := [PinNode(c)] + acts;
    }
  }

  // Beside any other holders of the PinLock, a pinned write can store and pin
  // all its nodes.
  lemma WriteRuns(w: World, s: State, t: Tid, nodes: set<Cid>)
    requires s.lock.Shared? && t !in s.threads
    ensures exists acts, s' :: Continues(w, s, t, Adding(nodes, nodes), acts, s')
              && s'.store == s.store + Hashes(nodes) && s'.recursive == s.recursive + nodes && s'.direct == s.direct
  {
    hide Does, GcAct;
    var s1 := Set(s, t, Adding(nodes, nodes)).(lock := Shared(s.lock.holders + {t}));
    assert Next(w, s, Start(t, Adding(nodes, nodes)), s1);
    var adds, s2 := AddAll(w, s1, t, nodes, nodes);
    var s3 := Set(s2, t, Pinning(nodes));
    var pins, s4 := PinAll(w, s3, t, nodes);
    DoesOne(w, s2, t, BeginPinning, s3, pins, s4);
    DoesThen(w, s1, t, adds, s2, [BeginPinning] + pins, s4);
    assert Continues(w, s, t, Adding(nodes, nodes), adds + ([BeginPinning] + pins), s4);
  }

  // So can a pin change; what it does is PinHistory.PinStep.
  lemma PinChangeRuns(w: World, s: State, t: Tid, op: PinOp)
    requires s.lock.Shared? && t !in s.threads
    ensures exists m, s' :: Next(w, s, Start(t, ChangingPins(op)), m) && Next(w, m, Act(t, CommitPins), s') && Commits(m, Act(t, CommitPins))
  {
    hide GcAct;
    var m := Set(s, t, ChangingPins(op)).(lock := Shared(s.lock.holders + {t}));
    var s' := m.(recursive := RecursiveAfter(m.recursive, op), direct := DirectAfter(m.direct, op),
                 landed := m.landed * RecursiveAfter(m.recursive, op));
    assert Next(w, s, Start(t, ChangingPins(op)), m);
    assert Next(w, m, Act(t, CommitPins), s');
  }
}
