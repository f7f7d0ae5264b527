/** Which pins exist in a run, read off its steps: what each pin operation does,
    how long a pin lasts, and what it keeps stored meanwhile. */
module PinHistory {
  import opened Dag
  import opened Blocks
  import opened Lifetime

  // The step is a commit of a pin operation.
  ghost predicate Commits(s: State, a: Step) {
    a.Act? && a.act.CommitPins? && a.t in s.threads && s.threads[a.t].ChangingPins?
  }

  ghost predicate PinsRecursively(s: State, a: Step, c: Cid) {
    || (a.Act? && a.act == PinNode(c))
    || (Commits(s, a) && var op := s.threads[a.t].op; op == PinAdd(c, true) || (op.PinUpdate? && op.to == c))
  }

  ghost predicate UnpinsRecursive(s: State, a: Step, c: Cid) {
    Commits(s, a) && var op := s.threads[a.t].op; op == PinRm(c) || (op.PinUpdate? && op.from == c && op.unpin && op.to != c)
  }

  ghost predicate PinsDirectly(s: State, a: Step, c: Cid) {
    Commits(s, a) && s.threads[a.t].op == PinAdd(c, false)
  }

  ghost predicate UnpinsDirect(s: State, a: Step, c: Cid) {
    Commits(s, a) && var op := s.threads[a.t].op; op == PinRm(c) || op == PinAdd(c, true)
  }

  // One step pins and unpins just what it is asked to.
  lemma PinStep(w: World, s: State, a: Step, s': State)
    requires Next(w, s, a, s')
    ensures forall c :: c in s'.recursive <==> PinsRecursively(s, a, c) || (c in s.recursive && !UnpinsRecursive(s, a, c))
    ensures forall c :: c in s'.direct <==> PinsDirectly(s, a, c) || (c in s.direct && !UnpinsDirect(s, a, c))
  {
    hide Follows, Reachable, Pinned;
    if Commits(s, a) {
      var op := s.threads[a.t].op;
      assert s'.recursive == RecursiveAfter(s.recursive, op) && s'.direct == DirectAfter(s.direct, op);
    }
  }

  // One step stores and deletes just what it is asked to.
  lemma StoreStep(w: World, s: State, a: Step, s': State)
    requires Next(w, s, a, s')
    ensures forall h :: h in s'.store <==> Adds(s, a, h) || (h in s.store && !Removes(s, a, h) && !(a.Act? && a.act == SweepDelete(h)))
  {
    hide Follows, Reachable, Pinned;
  }

  // A visit marks its identifier; unless that was marked before, it asks for
  // all the links it can fetch, and records an error if it could not fetch
  // them, except that a best-effort walk ignores a secure block not stored.
  lemma VisitStep(w: World, s: State, t: Tid, c: Cid, s': State)
    requires Next(w, s, Act(t, Visit(c)), s')
    ensures t in s.threads && s.threads[t].Marking? && t in s'.threads && s'.threads[t].Marking?
    ensures var th, th', n := s.threads[t], s'.threads[t], ToCidV1(c);
            var fetched := n in w.fetch && w.fetch[n].Links? && c.hash in s.store && c.hash !in w.insecure;
            && th'.phase == th.phase && th'.marked == th.marked + {n}
            && (forall l :: l in th'.todo <==> (l in th.todo && l != c) || (n !in th.marked && fetched && l in w.fetch[n].cids))
            && (th'.failed <==> || th.failed
                                || (n !in th.marked && !fetched
                                    && (th.phase != WalkBestEffort || c.hash in s.store || c.hash in w.insecure)))
  {
    hide Follows;
  }

  // Between two moments of a run nothing unpins c.
  ghost predicate NotUnpinned(r: Run, i: nat, j: nat, c: Cid)
    requires j <= |r.steps| < |r.states|
  {
    forall k :: i <= k < j ==> !UnpinsRecursive(r.states[k], r.steps[k], c)
  }

  ghost predicate NotUnpinnedDirectly(r: Run, i: nat, j: nat, c: Cid)
    requires j <= |r.steps| < |r.states|
  {
    forall k :: i <= k < j ==> !UnpinsDirect(r.states[k], r.steps[k], c)
  }

  // c is pinned recursively exactly when it was at the start or some step
  // pinned it, and no later step unpinned it.
  lemma {:induction false} RecursiveIff(w: World, r: Run, j: nat, c: Cid)
    requires IsRun(w, r) && j <= |r.steps|
    ensures c in r.states[j].recursive <==>
              || (c in r.states[0].recursive && NotUnpinned(r, 0, j, c))
              || exists i :: 0 <= i < j && PinsRecursively(r.states[i], r.steps[i], c) && NotUnpinned(r, i + 1, j, c)
    decreases j
  {
    hide Next, PinsRecursively, UnpinsRecursive, Init;
    if j > 0 {
      RecursiveIff(w, r, j - 1, c);
      PinStep(w, r.states[j - 1], r.steps[j - 1], r.states[j]);
      if PinsRecursively(r.states[j - 1], r.steps[j - 1], c) {
        assert NotUnpinned(r, j - 1 + 1, j, c);
      } else if c in r.states[j].recursive && !(c in r.states[0].recursive && NotUnpinned(r, 0, j - 1, c)) {
        var i :| 0 <= i < j - 1 && PinsRecursively(r.states[i], r.steps[i], c) && NotUnpinned(r, i + 1, j - 1, c);
        assert NotUnpinned(r, i + 1, j, c);
      }
    }
  }

  lemma {:induction false} DirectIff(w: World, r: Run, j: nat, c: Cid)
    requires IsRun(w, r) && j <= |r.steps|
    ensures c in r.states[j].direct <==>
              || (c in r.states[0].direct && NotUnpinnedDirectly(r, 0, j, c))
              || exists i :: 0 <= i < j && PinsDirectly(r.states[i], r.steps[i], c) && NotUnpinnedDirectly(r, i + 1, j, c)
    decreases j
  {
    hide Next, PinsDirectly, UnpinsDirect, Init;
    if j > 0 {
      DirectIff(w, r, j - 1, c);
      PinStep(w, r.states[j - 1], r.steps[j - 1], r.states[j]);
      if PinsDirectly(r.states[j - 1], r.steps[j - 1], c) {
        assert NotUnpinnedDirectly(r, j - 1 + 1, j, c);
      } else if c in r.states[j].direct && !(c in r.states[0].direct && NotUnpinnedDirectly(r, 0, j - 1, c)) {
        var i :| 0 <= i < j - 1 && PinsDirectly(r.states[i], r.steps[i], c) && NotUnpinnedDirectly(r, i + 1, j - 1, c);
        assert NotUnpinnedDirectly(r, i + 1, j, c);
      }
    }
  }

  // Once pinned recursively, c stays so until unpinned. Meanwhile no collection
  // deletes content c leads to, and no removal hits an identifier below it.
  lemma PinLasts(w: World, r: Run, i: nat, j: nat, c: Cid)
    requires IsRun(w, r) && i < j <= |r.steps|
    requires PinsRecursively(r.states[i], r.steps[i], c) && NotUnpinned(r, i + 1, j, c)
    ensures c in r.states[j].recursive && Pinned(w, r.states[j], c)
    ensures j < |r.steps| && r.steps[j].Act? && r.steps[j].act.SweepDelete? ==>
              forall d :: Reachable(ContentGraph(w), {ToCidV1(c)}, d) ==> d.hash != r.steps[j].act.h
    ensures j < |r.steps| && r.steps[j].Act? && r.steps[j].act.RmDelete? ==>
              !Reachable(Follows(w, Plain), {c}, r.steps[j].act.c)
  {
    hide Next, PinsRecursively, Follows;
    RecursiveIff(w, r, j, c);
    var s := r.states[j];
    RootReachable(Follows(w, Plain), s.recursive, c);
    if j < |r.steps| {
      Safety(w, r, j);
      assert ToCidV1(c) in V1(s.recursive);
      ReachableMonotone(ContentGraph(w), ContentGraph(w), {ToCidV1(c)}, V1(s.recursive));
      ReachableMonotone(Follows(w, Plain), Follows(w, Plain), {c}, s.recursive);
      forall d | Reachable(ContentGraph(w), {ToCidV1(c)}, d) ensures Protected(w, s, d.hash) {
        assert InUse(w, s, d);
      }
    }
  }

  // A direct pin keeps its own block.
  lemma DirectPinLasts(w: World, r: Run, i: nat, j: nat, c: Cid)
    requires IsRun(w, r) && i < j <= |r.steps|
    requires PinsDirectly(r.states[i], r.steps[i], c) && NotUnpinnedDirectly(r, i + 1, j, c)
    ensures c in r.states[j].direct && Pinned(w, r.states[j], c)
    ensures j < |r.steps| ==> r.steps[j].Act? ==> r.steps[j].act != SweepDelete(c.hash) && r.steps[j].act != RmDelete(c)
  {
    hide Next, PinsDirectly, Follows, Reachable;
    DirectIff(w, r, j, c);
    if j < |r.steps| {
      Safety(w, r, j);
      assert ToCidV1(c) in V1(r.states[j].direct);
      assert InUse(w, r.states[j], ToCidV1(c));
    }
  }

  ghost predicate Adds(s: State, a: Step, h: Multihash) {
    a == AddUnlocked(h) || (a.Act? && a.act.AddNode? && a.act.c.hash == h)
  }

  ghost predicate Removes(s: State, a: Step, h: Multihash) {
    a.Act? && a.act.RmDelete? && a.act.c.hash == h && h in s.store
  }

  ghost predicate NotAdded(r: Run, i: nat, j: nat, h: Multihash)
    requires j <= |r.steps| < |r.states|
  {
    forall k :: i <= k < j ==> !Adds(r.states[k], r.steps[k], h)
  }

  lemma RecordStep(w: World, s: State, a: Step, s': State)
    requires Next(w, s, a, s')
    ensures forall h :: h in s'.removed <==> Removes(s, a, h) || (h in s.removed && !Adds(s, a, h))
    ensures forall c :: c in s.landed && !UnpinsRecursive(s, a, c) && c in s.recursive ==> c in s'.landed
    ensures forall c :: a.Act? && a.act == PinNode(c) ==> c in s'.landed
  {
    hide Follows, Reachable, Pinned;
    PinStep(w, s, a, s');
    hide Adds, Removes;
    forall h ensures h in s'.removed <==> Removes(s, a, h) || (h in s.removed && !Adds(s, a, h)) {
      RemovedStep(w, s, a, s', h);
    }
  }

  lemma RemovedStep(w: World, s: State, a: Step, s': State, h: Multihash)
    requires Next(w, s, a, s')
    ensures h in s'.removed <==> Removes(s, a, h) || (h in s.removed && !Adds(s, a, h))
  {
    hide Follows, Reachable, Pinned;
  }

  lemma {:induction false} RemovedIff(w: World, r: Run, j: nat, h: Multihash)
    requires IsRun(w, r) && j <= |r.steps|
    ensures h in r.states[j].removed <==>
              exists i :: 0 <= i < j && Removes(r.states[i], r.steps[i], h) && NotAdded(r, i + 1, j, h)
    decreases j
  {
    hide Next, Adds, Removes;
    if j > 0 {
      RemovedIff(w, r, j - 1, h);
      RecordStep(w, r.states[j - 1], r.steps[j - 1], r.states[j]);
      if Removes(r.states[j - 1], r.steps[j - 1], h) {
        assert NotAdded(r, j - 1 + 1, j, h);
      } else if h in r.states[j].removed {
        var i :| 0 <= i < j - 1 && Removes(r.states[i], r.steps[i], h) && NotAdded(r, i + 1, j - 1, h);
        assert NotAdded(r, i + 1, j, h);
      }
    }
  }

  lemma {:induction false} LandedStays(w: World, r: Run, i: nat, j: nat, c: Cid)
    requires IsRun(w, r) && i < j <= |r.steps|
    requires r.steps[i].Act? && r.steps[i].act == PinNode(c) && NotUnpinned(r, i + 1, j, c)
    ensures c in r.states[j].landed
    decreases j
  {
    hide Next, UnpinsRecursive;
    RecordStep(w, r.states[j - 1], r.steps[j - 1], r.states[j]);
    if i < j - 1 {
      LandedStays(w, r, i, j - 1, c);
      Lifetime.RunInv(w, r, j - 1);
    }
  }

  // A block written with a pin is stored until the pin goes, unless a removal
  // deleted its hash and nothing added it again.
  lemma WriteLasts(w: World, r: Run, i: nat, j: nat, c: Cid)
    requires IsRun(w, r) && i < j <= |r.steps|
    requires r.steps[i].Act? && r.steps[i].act == PinNode(c) && NotUnpinned(r, i + 1, j, c)
    ensures c.hash !in r.states[j].store <==>
              exists k :: 0 <= k < j && Removes(r.states[k], r.steps[k], c.hash) && NotAdded(r, k + 1, j, c.hash)
  {
    hide Next;
    LandedStays(w, r, i, j, c);
    RemovedIff(w, r, j, c.hash);
    Lifetime.RunInv(w, r, j);
  }
}
