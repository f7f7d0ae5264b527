/** Block lifetime: every interleaving of garbage collections, explicit
    removals, pinned writes and pin changes, under the shared PinLock and the
    exclusive GCLock. Every step is one action of one thread; blocks may be
    added without a lock at any time. */
module Lifetime {
  import opened Dag
  import opened Blocks

  type Tid = nat

  datatype Lock = Shared(holders: set<Tid>) | Exclusive(holder: Tid)

  // The four stages of marking, in order.
  datatype Phase = WalkRecursive | WalkBestEffort | WalkInternal

  datatype PinOp = PinAdd(cid: Cid, recursive: bool) | PinRm(cid: Cid) | PinUpdate(from: Cid, to: Cid, unpin: bool)

  datatype Thread =
    // holding the GCLock
    | Begun
    | Marking(phase: Phase, marked: set<Cid>, todo: set<Cid>, failed: bool)
    | Sweeping(marked: set<Cid>)
    | Filtering(cids: set<Cid>)
    | Deleting(cids: set<Cid>)
    // holding the PinLock
    | Adding(todo: set<Cid>, nodes: set<Cid>)
    | Pinning(nodes: set<Cid>)
    | ChangingPins(op: PinOp)

  predicate NeedsGCLock(t: Thread) {
    t.Begun? || t.Marking? || t.Sweeping? || t.Filtering? || t.Deleting?
  }

  // landed: recursive pins made by a pinned write whose block that write added.
  // removed: the multihashes RmBlocks deleted and nobody added again since.
  datatype State = State(store: set<Multihash>, recursive: set<Cid>, direct: set<Cid>, lock: Lock,
                         threads: map<Tid, Thread>, landed: set<Cid>, removed: set<Multihash>)

  // What each identifier's content links to is fixed by content addressing.
  // w.fetch holds the content of every decodable block, stored or not.

  // The links of all content, including identifiers the collector's walk
  // refuses to expand because their hash is insecure.
  function ContentGraph(w: World): Graph<Cid> {
    Follows(w.(insecure := {}), Strict)
  }

  // Links can be fetched now: the block is stored, decodable and not insecure.
  predicate Fetchable(w: World, s: State, c: Cid) {
    c.hash in s.store && Healthy(w, Strict, c)
  }

  function V1(cs: set<Cid>): set<Cid> {
    NormSet(Strict, cs)
  }

  // In use: reachable from a recursive pin, or pinned directly.
  ghost predicate InUse(w: World, s: State, c: Cid) {
    Reachable(ContentGraph(w), V1(s.recursive), c) || c in V1(s.direct)
  }

  ghost predicate Protected(w: World, s: State, h: Multihash) {
    exists c :: InUse(w, s, c) && c.hash == h
  }

  // The check of RmBlocks, on identifiers as given: pinned directly,
  // recursively, or below a recursive pin.
  ghost predicate Pinned(w: World, s: State, c: Cid) {
    c in s.direct || Reachable(Follows(w, Plain), s.recursive, c)
  }

  ghost predicate NonePinned(w: World, s: State, cids: set<Cid>) {
    forall c :: c in cids ==> !Pinned(w, s, c)
  }

  // Starting takes the lock; finishing, failing or being cancelled releases it.
  datatype Step = Start(t: Tid, first: Thread) | Act(t: Tid, act: Action) | Finish(t: Tid) | AddUnlocked(h: Multihash)

  datatype Action =
    | ReadRecursive | Visit(c: Cid) | AbortWalk | ReadBestEffort(roots: set<Cid>) | ReadDirectAndInternal(roots: set<Cid>)
    | BeginSweep | SweepDelete(h: Multihash)
    | Filter(kept: set<Cid>) | RmDelete(c: Cid)
    | AddNode(c: Cid) | BeginPinning | PinNode(c: Cid) | CommitPins

  ghost function Set(s: State, t: Tid, th: Thread): State {
    s.(threads := s.threads[t := th])
  }

  function Hashes(cs: set<Cid>): set<Multihash> {
    set c | c in cs :: c.hash
  }

  // One visit of a walk. A strict walk records every fetch error; the
  // best-effort walk ignores blocks that are not stored.
  function Visited(w: World, s: State, phase: Phase, marked: set<Cid>, todo: set<Cid>, failed: bool, c: Cid): Thread {
    var n, rest := ToCidV1(c), todo - {c};
    if n in marked then Marking(phase, marked, rest, failed)
    else if Fetchable(w, s, c) then Marking(phase, marked + {n}, rest + Elements(w.LinksOf(c)), failed)
    else
      var ignored := phase.WalkBestEffort? && c.hash !in s.store && c.hash !in w.insecure;
      Marking(phase, marked + {n}, rest, failed || !ignored)
  }

  function RecursiveAfter(recursive: set<Cid>, op: PinOp): set<Cid> {
    match op
    case PinAdd(c, r) => if r then recursive + {c} else recursive
    case PinRm(c) => recursive - {c}
    case PinUpdate(from, to, unpin) => if unpin && from != to then (recursive - {from}) + {to} else recursive + {to}
  }

  function DirectAfter(direct: set<Cid>, op: PinOp): set<Cid> {
    match op
    case PinAdd(c, r) => if r then direct - {c} else direct + {c}
    case PinRm(c) => direct - {c}
    case PinUpdate(_, _, _) => direct
  }

  predicate IsFirst(t: Thread) {
    t.Begun? || t.Filtering? || t.ChangingPins? || (t.Adding? && t.todo == t.nodes)
  }

  ghost predicate Next(w: World, s: State, a: Step, s': State) {
    match a
    case Start(t, first) =>
      && t !in s.threads && IsFirst(first)
      && (if NeedsGCLock(first)
          then s.lock == Shared({}) && s' == Set(s, t, first).(lock := Exclusive(t))
          else s.lock.Shared? && s' == Set(s, t, first).(lock := Shared(s.lock.holders + {t})))
    case Act(t, act) =>
      t in s.threads && if NeedsGCLock(s.threads[t]) then GcAct(w, s, t, s.threads[t], act, s') else PinAct(s, t, s.threads[t], act, s')
    case Finish(t) =>
      && t in s.threads
      && s' == s.(threads := s.threads - {t},
                  lock := if s.lock.Shared? then Shared(s.lock.holders - {t}) else Shared({}))
    case AddUnlocked(h) => s' == s.(store := s.store + {h}, removed := s.removed - {h})
  }

  // Steps of a collection or a removal.
  ghost predicate GcAct(w: World, s: State, t: Tid, th: Thread, act: Action, s': State) {
    match act
    case ReadRecursive => th.Begun? && s' == Set(s, t, Marking(WalkRecursive, {}, s.recursive, false))
    case Visit(c) =>
      th.Marking? && c in th.todo && s' == Set(s, t, Visited(w, s, th.phase, th.marked, th.todo, th.failed, c))
    case AbortWalk => th.Marking? && s' == Set(s, t, Marking(th.phase, th.marked, {}, true))
    case ReadBestEffort(roots) =>
      th.Marking? && th.phase.WalkRecursive? && th.todo == {} && s' == Set(s, t, Marking(WalkBestEffort, th.marked, roots, th.failed))
    case ReadDirectAndInternal(roots) =>
      && th.Marking? && th.phase.WalkBestEffort? && th.todo == {}
      && s' == Set(s, t, Marking(WalkInternal, th.marked + V1(s.direct), roots, th.failed))
    case BeginSweep =>
      th.Marking? && th.phase.WalkInternal? && th.todo == {} && !th.failed && s' == Set(s, t, Sweeping(th.marked))
    case SweepDelete(h) => th.Sweeping? && h !in Hashes(th.marked) && s' == s.(store := s.store - {h})
    // a failed pin check keeps nothing
    case Filter(kept) => th.Filtering? && kept <= th.cids && NonePinned(w, s, kept) && s' == Set(s, t, Deleting(kept))
    case RmDelete(c) =>
      && th.Deleting? && c in th.cids
      && s' == Set(s, t, Deleting(th.cids - {c})).(store := s.store - {c.hash}, removed := s.removed + {c.hash} * s.store)
    case _ => false
  }

  // Steps of a pinned write or a pin change.
  ghost predicate PinAct(s: State, t: Tid, th: Thread, act: Action, s': State) {
    match act
    case AddNode(c) =>
      th.Adding? && c in th.todo && s' == Set(s, t, Adding(th.todo - {c}, th.nodes)).(store := s.store + {c.hash}, removed := s.removed - {c.hash})
    case BeginPinning => th.Adding? && th.todo == {} && s' == Set(s, t, Pinning(th.nodes))
    case PinNode(c) =>
      && th.Pinning? && c in th.nodes
      && s' == Set(s, t, Pinning(th.nodes - {c})).(recursive := s.recursive + {c}, landed := s.landed + {c})
    case CommitPins =>
      && th.ChangingPins?
      && s' == s.(recursive := RecursiveAfter(s.recursive, th.op), direct := DirectAfter(s.direct, th.op),
                  landed := s.landed * RecursiveAfter(s.recursive, th.op))
    case _ => false
  }

  ghost predicate Init(s: State) {
    s.threads == map[] && s.lock == Shared({}) && s.landed == {} && s.removed == {}
  }

  // ---- The invariant ----

  // The lock is held by exactly the threads there are, in their mode.
  ghost predicate LockHeld(s: State) {
    match s.lock
    case Shared(holders) => holders == s.threads.Keys && forall t :: t in s.threads ==> !NeedsGCLock(s.threads[t])
    case Exclusive(t) => s.threads.Keys == {t} && NeedsGCLock(s.threads[t])
  }

  // Everything reachable is marked.
  ghost predicate ReachMarked(g: Graph<Cid>, roots: set<Cid>, marked: set<Cid>) {
    forall c :: Reachable(g, roots, c) ==> c in marked
  }

  ghost predicate RecursiveMarked(w: World, s: State, marked: set<Cid>) {
    ReachMarked(ContentGraph(w), V1(s.recursive), marked)
  }

  // The roots and every link of a marked node are marked or waiting.
  ghost predicate Frontier(g: Graph<Cid>, roots: set<Cid>, marked: set<Cid>, todo: set<Cid>) {
    && roots <= marked + V1(todo)
    && forall b, c :: b in marked && c in Succ(g, b) ==> c in marked || c in V1(todo)
  }

  ghost predicate MarkInv(w: World, s: State, phase: Phase, marked: set<Cid>, todo: set<Cid>) {
    match phase
    case WalkRecursive => Frontier(ContentGraph(w), V1(s.recursive), marked, todo)
    case WalkBestEffort => RecursiveMarked(w, s, marked)
    case WalkInternal => RecursiveMarked(w, s, marked) && V1(s.direct) <= marked
  }

  ghost predicate ThreadInv(w: World, s: State, th: Thread) {
    match th
    case Marking(phase, marked, todo, failed) => failed || MarkInv(w, s, phase, marked, todo)
    case Sweeping(marked) => RecursiveMarked(w, s, marked) && V1(s.direct) <= marked
    case Deleting(cids) => NonePinned(w, s, cids)
    case Adding(todo, nodes) => todo <= nodes && Hashes(nodes - todo) <= s.store
    case Pinning(nodes) => Hashes(nodes) <= s.store
    case _ => true
  }

  // A pinned write's block is stored for as long as the pin exists, unless
  // RmBlocks deleted it and it was not added again.
  ghost predicate Durable(s: State) {
    s.landed <= s.recursive && s.removed !! s.store && forall c :: c in s.landed ==> c.hash in s.store || c.hash in s.removed
  }

  ghost predicate Inv(w: World, s: State) {
    && LockHeld(s)
    && Durable(s)
    && forall t :: t in s.threads ==> ThreadInv(w, s, s.threads[t])
  }

  // ---- Every step keeps it ----

  // A visit that finds the node marked, or fetches its links, moves the
  // frontier on; so does one of a node without links in the graph.
  lemma VisitKeepsFrontier(w: World, s: State, g: Graph<Cid>, roots: set<Cid>, marked: set<Cid>, todo: set<Cid>, c: Cid)
    requires Frontier(g, roots, marked, todo) && c in todo && SubGraph(g, ContentGraph(w))
    ensures ToCidV1(c) in marked ==> Frontier(g, roots, marked, todo - {c})
    ensures Fetchable(w, s, c) ==> Frontier(g, roots, marked + {ToCidV1(c)}, todo - {c} + Elements(w.LinksOf(c)))
    ensures Succ(g, ToCidV1(c)) == [] ==> Frontier(g, roots, marked + {ToCidV1(c)}, todo - {c})
  {
    hide Follows;
    var n := ToCidV1(c);
    assert forall x :: x in V1(todo) ==> x == n || x in V1(todo - {c});
    if Fetchable(w, s, c) {
      FollowsLinks(w.(insecure := {}), Strict, c);
      assert V1(todo - {c} + Elements(w.LinksOf(c))) == V1(todo - {c}) + V1(Elements(w.LinksOf(c)));
    }
  }

  lemma WalkedAll(g: Graph<Cid>, roots: set<Cid>, marked: set<Cid>)
    requires Frontier(g, roots, marked, {})
    ensures ReachMarked(g, roots, marked)
  {
    ClosedHoldsReachable(g, roots, marked);
  }

  // The collector's own state after one of its steps.
  lemma MarkStep(w: World, s: State, t: Tid, act: Action, s': State)
    requires Inv(w, s) && t in s.threads && s.threads[t].Marking?
    requires GcAct(w, s, t, s.threads[t], act, s')
    ensures ThreadInv(w, s', s'.threads[t])
  {
    hide Follows, Reachable, LockHeld, Durable, Fetchable;
    var th := s.threads[t];
    if !th.failed && !act.AbortWalk? {
      match act {
        case Visit(c) =>
          if th.phase.WalkRecursive? { VisitKeepsFrontier(w, s, ContentGraph(w), V1(s.recursive), th.marked, th.todo, c); }
        case ReadBestEffort(_) => WalkedAll(ContentGraph(w), V1(s.recursive), th.marked);
        case _ =>
      }
    }
  }

  // The holder of the GCLock is alone.
  lemma HolderIsAlone(s: State, t: Tid)
    requires LockHeld(s) && t in s.threads && NeedsGCLock(s.threads[t])
    ensures s.threads.Keys == {t}
  {
  }

  // Another thread's invariant survives a larger store, and any pin change if
  // it holds the PinLock itself.
  lemma OthersKeep(w: World, s: State, s': State, th: Thread)
    requires ThreadInv(w, s, th) && s.store <= s'.store
    requires (s'.recursive == s.recursive && s'.direct == s.direct) || !NeedsGCLock(th)
    ensures ThreadInv(w, s', th)
  {
    hide Follows;
  }

  // No pinned block's hash is outside a finished marked set.
  lemma SweepSpares(w: World, s: State, marked: set<Cid>, h: Multihash)
    requires ThreadInv(w, s, Sweeping(marked)) && h !in Hashes(marked)
    ensures !Protected(w, s, h)
  {
    hide Follows, Reachable;
  }

  lemma RecursiveIsProtected(w: World, s: State, c: Cid)
    requires c in s.recursive
    ensures Protected(w, s, c.hash)
  {
    hide Follows;
    assert ToCidV1(c) in V1(s.recursive);
    RootReachable(ContentGraph(w), V1(s.recursive), ToCidV1(c));
    assert InUse(w, s, ToCidV1(c));
  }

  lemma GcActKeeps(w: World, s: State, t: Tid, act: Action, s': State)
    requires Inv(w, s) && t in s.threads && NeedsGCLock(s.threads[t]) && GcAct(w, s, t, s.threads[t], act, s')
    ensures Inv(w, s')
  {
    hide Follows, Reachable, Protected;
    HolderIsAlone(s, t);
    assert s'.threads.Keys == {t};
    var th := s.threads[t];
    if th.Marking? {
      MarkStep(w, s, t, act, s');
    } else if act.SweepDelete? {
      SweepSpares(w, s, th.marked, act.h);
      forall c | c in s'.landed ensures c.hash in s'.store || c.hash in s'.removed {
        RecursiveIsProtected(w, s, c);
      }
    }
  }

  lemma PinActKeeps(w: World, s: State, t: Tid, act: Action, s': State)
    requires Inv(w, s) && t in s.threads && !NeedsGCLock(s.threads[t]) && PinAct(s, t, s.threads[t], act, s')
    ensures Inv(w, s')
  {
    hide Follows, Reachable;
    forall x | x in s'.threads ensures ThreadInv(w, s', s'.threads[x]) {
      if x != t { OthersKeep(w, s, s', s.threads[x]); }
    }
  }

  lemma NextKeeps(w: World, s: State, a: Step, s': State)
    requires Inv(w, s) && Next(w, s, a, s')
    ensures Inv(w, s')
  {
    hide Follows, Reachable, Pinned, MarkInv, RecursiveMarked, GcAct, PinAct;
    match a {
      case Act(t, act) =>
        if NeedsGCLock(s.threads[t]) { GcActKeeps(w, s, t, act, s'); } else { PinActKeeps(w, s, t, act, s'); }
      case _ =>
        forall x | x in s'.threads ensures ThreadInv(w, s', s'.threads[x]) {
          if x in s.threads { OthersKeep(w, s, s', s.threads[x]); }
        }
    }
  }

  // ---- Safety over whole runs ----

  datatype Run = Run(states: seq<State>, steps: seq<Step>)

  ghost predicate IsRun(w: World, r: Run) {
    && |r.states| == |r.steps| + 1 && Init(r.states[0])
    && forall i :: 0 <= i < |r.steps| ==> Next(w, r.states[i], r.steps[i], r.states[i + 1])
  }

  lemma {:induction false} RunInv(w: World, r: Run, i: nat)
    requires IsRun(w, r) && i < |r.states|
    ensures Inv(w, r.states[i])
    decreases i
  {
    hide Next, ThreadInv;
    if i > 0 {
      RunInv(w, r, i - 1);
      NextKeeps(w, r.states[i - 1], r.steps[i - 1], r.states[i]);
    }
  }

  // In every run: a collection never deletes a block in use at that moment, a
  // removal is never applied to an identifier pinned at that moment, and the
  // block of a pinned write outlives every collection.
  lemma Safety(w: World, r: Run, i: nat)
    requires IsRun(w, r) && i < |r.steps|
    ensures r.steps[i].Act? && r.steps[i].act.SweepDelete? ==> !Protected(w, r.states[i], r.steps[i].act.h)
    ensures r.steps[i].Act? && r.steps[i].act.RmDelete? ==> !Pinned(w, r.states[i], r.steps[i].act.c)
    ensures forall c :: c in r.states[i].landed ==>
              c in r.states[i].recursive && (c.hash in r.states[i].store <==> c.hash !in r.states[i].removed)
  {
    hide Follows, Reachable, Pinned, MarkInv, Protected;
    RunInv(w, r, i);
    var s, a := r.states[i], r.steps[i];
    assert Next(w, s, a, r.states[i + 1]);
    if a.Act? && a.act.SweepDelete? {
      SweepSpares(w, s, s.threads[a.t].marked, a.act.h);
    }
  }

  // ---- What a removal spares ----

  // The links of one identifier, in the two graphs.
  lemma SameLinks(w: World, q: Cid)
    requires w.HasLinks(q)
    ensures forall p :: p in w.LinksOf(q) ==> p in Succ(Follows(w, Plain), q) && ToCidV1(p) in Succ(ContentGraph(w), ToCidV1(q))
    ensures forall c :: c in Succ(ContentGraph(w), ToCidV1(q)) ==> exists p :: p in w.LinksOf(q) && ToCidV1(p) == c
    ensures forall p :: p in Succ(Follows(w, Plain), q) ==> p in w.LinksOf(q)
  {
    var u := w.(insecure := {});
    FollowsLinks(u, Strict, q);
    FollowsLinks(w, Plain, q);
    hide Follows;
    var ls := Elements(w.LinksOf(q));
    assert u.LinksOf(q) == w.LinksOf(q);
    forall p | p in w.LinksOf(q) ensures p in Succ(Follows(w, Plain), q) && ToCidV1(p) in Succ(ContentGraph(w), ToCidV1(q)) {
      assert Norm(Plain, p) in NormSet(Plain, ls) && Norm(Strict, p) in NormSet(Strict, ls);
      assert p in Elements(Succ(Follows(w, Plain), q));
      assert ToCidV1(p) in Elements(Succ(ContentGraph(w), ToCidV1(q)));
    }
    forall c | c in Succ(ContentGraph(w), ToCidV1(q)) ensures exists p :: p in w.LinksOf(q) && ToCidV1(p) == c {
      assert c in Elements(Succ(ContentGraph(w), ToCidV1(q)));
    }
    forall p | p in Succ(Follows(w, Plain), q) ensures p in w.LinksOf(q) {
      assert p in Elements(Succ(Follows(w, Plain), q));
    }
  }

  lemma NoLinksNoSuccessors(w: World, q: Cid)
    requires !w.HasLinks(q)
    ensures Succ(Follows(w, Plain), q) == [] && Succ(ContentGraph(w), ToCidV1(q)) == []
  {
    assert ContentGraph(w) == Follows(w.(insecure := {}), Strict);
    if ToCidV1(q) in ContentGraph(w) {
      assert NormSeq(Strict, w.LinksOf(ToCidV1(q))) == [];
    }
  }

  // Content in use is reached by identifiers as they are pinned and linked.
  lemma {:induction false} InUseIsPinned(w: World, roots: set<Cid>, c: Cid, k: nat) returns (p: Cid)
    requires ReachIn(ContentGraph(w), V1(roots), c, k)
    ensures ToCidV1(p) == c && Reachable(Follows(w, Plain), roots, p)
    decreases k
  {
    hide Follows;
    if k == 0 {
      p :| p in roots && ToCidV1(p) == c;
      RootReachable(Follows(w, Plain), roots, p);
    } else {
      var b :| ReachIn(ContentGraph(w), V1(roots), b, k - 1) && c in Succ(ContentGraph(w), b);
      var q := InUseIsPinned(w, roots, b, k - 1);
      if w.HasLinks(q) {
        SameLinks(w, q);
        p :| p in w.LinksOf(q) && ToCidV1(p) == c;
        ReachStep(Follows(w, Plain), roots, q, p);
      } else {
        NoLinksNoSuccessors(w, q);
        p := q;
      }
    }
  }

  lemma {:induction false} PinnedIsInUse(w: World, roots: set<Cid>, p: Cid, k: nat)
    requires ReachIn(Follows(w, Plain), roots, p, k)
    ensures Reachable(ContentGraph(w), V1(roots), ToCidV1(p))
    decreases k
  {
    hide Follows;
    if k == 0 {
      assert ToCidV1(p) in V1(roots);
      RootReachable(ContentGraph(w), V1(roots), ToCidV1(p));
    } else {
      var q :| ReachIn(Follows(w, Plain), roots, q, k - 1) && p in Succ(Follows(w, Plain), q);
      PinnedIsInUse(w, roots, q, k - 1);
      if w.HasLinks(q) { SameLinks(w, q); } else { NoLinksNoSuccessors(w, q); }
      ReachStep(ContentGraph(w), V1(roots), ToCidV1(q), ToCidV1(p));
    }
  }

  // A multihash is in use exactly when a pin listing shows an identifier with it.
  lemma ProtectedIffPinned(w: World, s: State, h: Multihash)
    ensures Protected(w, s, h) <==> exists p :: Pinned(w, s, p) && p.hash == h
  {
    hide Follows;
    if Protected(w, s, h) {
      var c :| InUse(w, s, c) && c.hash == h;
      if c in V1(s.direct) {
        var p :| p in s.direct && ToCidV1(p) == c;
        assert Pinned(w, s, p);
      } else {
        var k: nat :| ReachIn(ContentGraph(w), V1(s.recursive), c, k);
        var p := InUseIsPinned(w, s.recursive, c, k);
        assert Pinned(w, s, p) && p.hash == h;
      }
    }
    forall p | Pinned(w, s, p) && p.hash == h ensures Protected(w, s, h) {
      if p in s.direct {
        assert ToCidV1(p) in V1(s.direct);
      } else {
        var k: nat :| ReachIn(Follows(w, Plain), s.recursive, p, k);
        PinnedIsInUse(w, s.recursive, p, k);
      }
      assert InUse(w, s, ToCidV1(p));
    }
  }

  // In every run a removal step deletes a stored block in use exactly when
  // another pinned identifier has the removed identifier's multihash.
  lemma RemovalHitsInUseIff(w: World, r: Run, i: nat)
    requires IsRun(w, r) && i < |r.steps| && r.steps[i].Act? && r.steps[i].act.RmDelete?
    ensures var s, s', c := r.states[i], r.states[i + 1], r.steps[i].act.c;
            (exists h :: Protected(w, s, h) && h in s.store && h !in s'.store)
            <==> c.hash in s.store && exists p :: p != c && p.hash == c.hash && Pinned(w, s, p)
  {
    hide Follows, Pinned, Protected;
    var s, s', c := r.states[i], r.states[i + 1], r.steps[i].act.c;
    Safety(w, r, i);
    assert Next(w, s, r.steps[i], s');
    RemovedHash(w, s, r.steps[i].t, c, s');
    ProtectedIffPinned(w, s, c.hash);
  }

  lemma RemovedHash(w: World, s: State, t: Tid, c: Cid, s': State)
    requires Next(w, s, Act(t, RmDelete(c)), s')
    ensures s'.store == s.store - {c.hash}
  {
    hide Follows, Pinned;
  }

  // RmBlocks compares identifiers, the store keys blocks by multihash: it may
  // delete a pinned block when asked for its other identifier version.
  lemma RemovalIsPerIdentifier() returns (w: World, r: Run)
    ensures IsRun(w, r) && |r.steps| == 3 && r.steps[2].Act? && r.steps[2].act.RmDelete?
    ensures Protected(w, r.states[2], r.steps[2].act.c.hash)
  {
    hide Follows;
    var h: Multihash := [1];
    var c, p := CidV0(h), CidV1(DAG_PROTOBUF, h);
    w := World(map[], {});
    var s0 := State({h}, {p}, {}, Shared({}), map[], {}, {});
    var s1 := Set(s0, 0, Filtering({c})).(lock := Exclusive(0));
    var s2 := Set(s1, 0, Deleting({c}));
    var s3 := Set(s2, 0, Deleting({})).(store := {}, removed := {h});
    r := Run([s0, s1, s2, s3], [Start(0, Filtering({c})), Act(0, Filter({c})), Act(0, RmDelete(c))]);
    assert !Pinned(w, s1, c) by { NoLinksNoReach(w, {p}, c); }
    assert Deleting({c}).cids - {c} == {};
    assert Next(w, s0, r.steps[0], s1);
    assert Next(w, s1, r.steps[1], s2);
    assert Next(w, s2, r.steps[2], s3);
    RecursiveIsProtected(w, s2, p);
  }

  lemma NoLinksNoReach(w: World, roots: set<Cid>, c: Cid)
    requires w.fetch == map[] && c !in roots
    ensures !Reachable(Follows(w, Plain), roots, c)
  {
    assert Follows(w, Plain) == map[];
    ClosedHoldsReachable(Follows(w, Plain), roots, roots);
  }
}
