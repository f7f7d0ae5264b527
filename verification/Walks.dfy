/** The visit-gated worklist walk that the collector and the pin listing share. */
module Walks {
  import opened Dag
  import opened Blocks

  // Everything a walk may ever reach from root.
  function Universe(w: World, mode: Mode, root: Cid): set<Cid> {
    NormSet(mode, AllLinks(w) + {root})
  }

  // The nodes a walk from root enters first.
  function Start(w: World, mode: Mode, root: Cid, skipRoot: bool): set<Cid> {
    if skipRoot then Elements(Succ(Follows(w, mode), Norm(mode, root))) else {Norm(mode, root)}
  }

  // Nothing outside the nodes newly reachable from start is entered.
  ghost predicate OnlyReachable(g: Graph<Cid>, start: set<Cid>, before: set<Cid>, visited: set<Cid>) {
    before <= visited && forall c :: c in visited && c !in before ==> Reachable(g - before, start, c)
  }

  // Every newly entered node has all its links entered or waiting.
  ghost predicate Expanded(g: Graph<Cid>, before: set<Cid>, visited: set<Cid>, waiting: set<Cid>) {
    forall b, c :: b in visited && b !in before && c in Succ(g, b) ==> c in visited || c in waiting
  }

  ghost predicate SomeBad(w: World, mode: Mode, before: set<Cid>, visited: set<Cid>) {
    exists c :: c in visited && c !in before && !Healthy(w, mode, c)
  }

  ghost predicate AllHealthy(w: World, mode: Mode, before: set<Cid>, visited: set<Cid>) {
    forall c :: c in visited && c !in before ==> Healthy(w, mode, c)
  }

  lemma NormSetUnion(mode: Mode, a: set<Cid>, b: set<Cid>)
    ensures NormSet(mode, a + b) == NormSet(mode, a) + NormSet(mode, b)
  {
  }

  // The fixed data of one walk: the graph it follows, the nodes it enters
  // first and what was marked before it.
  datatype Job = Job(w: World, mode: Mode, root: Cid, skipRoot: bool, g: Graph<Cid>, first: set<Cid>, before: set<Cid>) {

    ghost predicate Valid() {
      g == Follows(w, mode) && first == Start(w, mode, root, skipRoot)
    }

    ghost predicate RootIsBad() {
      skipRoot && !Healthy(w, mode, Norm(mode, root))
    }
  }

  ghost function NewJob(w: World, mode: Mode, root: Cid, skipRoot: bool, before: set<Cid>): Job {
    Job(w, mode, root, skipRoot, Follows(w, mode), Start(w, mode, root, skipRoot), before)
  }

  // What every step of a walk keeps. A node in flight is marked but its links
  // are not fetched yet; a skipped root is in flight without being marked.
  ghost predicate Reaching(j: Job, visited: set<Cid>, pending: set<Cid>, inflight: set<Cid>) {
    && OnlyReachable(j.g, j.first, j.before, visited)
    && (forall k :: k in pending ==> Reachable(j.g - j.before, j.first, Norm(j.mode, k)))
    && (forall k :: k in inflight ==> Norm(j.mode, k) in visited - j.before || (j.skipRoot && k == j.root))
  }

  ghost predicate Covering(j: Job, visited: set<Cid>, pending: set<Cid>, inflight: set<Cid>) {
    var fetching, waiting := NormSet(j.mode, inflight), NormSet(j.mode, pending);
    && (j.first <= visited + waiting || (j.skipRoot && j.root in inflight))
    && Expanded(j.g, j.before + fetching, visited, waiting)
  }

  ghost predicate Judging(j: Job, visited: set<Cid>, inflight: set<Cid>, flagged: bool) {
    if flagged then j.RootIsBad() || SomeBad(j.w, j.mode, j.before, visited)
    else
      && (j.skipRoot && j.root !in inflight ==> !j.RootIsBad())
      && AllHealthy(j.w, j.mode, j.before + NormSet(j.mode, inflight), visited)
  }

  ghost predicate Bounded(j: Job, visited: set<Cid>, pending: set<Cid>) {
    && pending <= AllLinks(j.w) + {j.root}
    && visited - j.before <= Universe(j.w, j.mode, j.root)
  }

  ghost predicate WalkInv(j: Job, visited: set<Cid>, pending: set<Cid>, inflight: set<Cid>, flagged: bool) {
    && Reaching(j, visited, pending, inflight)
    && Covering(j, visited, pending, inflight)
    && Judging(j, visited, inflight, flagged)
    && Bounded(j, visited, pending)
  }

  lemma WalkBegins(j: Job)
    requires j.Valid()
    ensures WalkInv(j, j.before, if j.skipRoot then {} else {j.root}, if j.skipRoot then {j.root} else {}, false)
  {
    if !j.skipRoot {
      RootReachable(j.g - j.before, j.first, Norm(j.mode, j.root));
    }
  }

  lemma VisitOld(j: Job, visited: set<Cid>, pending: set<Cid>, inflight: set<Cid>, flagged: bool, k: Cid)
    requires WalkInv(j, visited, pending, inflight, flagged) && k in pending
    requires Norm(j.mode, k) in visited
    ensures WalkInv(j, visited, pending - {k}, inflight, flagged)
  {
    NormSetUnion(j.mode, pending - {k}, {k});
    assert (pending - {k}) + {k} == pending;
    assert NormSet(j.mode, pending) == NormSet(j.mode, pending - {k}) + {Norm(j.mode, k)};
  }

  lemma PendingInUniverse(j: Job, visited: set<Cid>, pending: set<Cid>, k: Cid)
    requires Bounded(j, visited, pending) && k in pending
    ensures Bounded(j, visited + {Norm(j.mode, k)}, pending - {k})
  {
    hide AllLinks, Norm;
  }

  lemma VisitNew(j: Job, visited: set<Cid>, pending: set<Cid>, inflight: set<Cid>, flagged: bool, k: Cid)
    requires WalkInv(j, visited, pending, inflight, flagged) && k in pending
    requires Norm(j.mode, k) !in visited
    ensures WalkInv(j, visited + {Norm(j.mode, k)}, pending - {k}, inflight + {k}, flagged)
  {
    hide Reachable, Healthy, Universe, AllLinks;
    var n := Norm(j.mode, k);
    PendingInUniverse(j, visited, pending, k);
    assert NormSet(j.mode, pending) == NormSet(j.mode, pending - {k}) + {n} by {
      NormSetUnion(j.mode, pending - {k}, {k});
      assert (pending - {k}) + {k} == pending;
    }
    assert NormSet(j.mode, inflight + {k}) == NormSet(j.mode, inflight) + {n} by {
      NormSetUnion(j.mode, inflight, {k});
    }
    assert Covering(j, visited + {n}, pending - {k}, inflight + {k});
    assert Judging(j, visited + {n}, inflight + {k}, flagged);
  }

  lemma FetchKeeps(j: Job, visited: set<Cid>, pending: set<Cid>, inflight: set<Cid>, flagged: bool, k: Cid)
    requires j.Valid()
    requires WalkInv(j, visited, pending, inflight, flagged) && k in inflight && !Aborts(j.w, j.mode, k)
    ensures WalkInv(j, visited, pending + Elements(j.w.LinksOf(k)), inflight - {k}, flagged || Flags(j.w, j.mode, k))
  {
    hide Reachable, Universe, AllLinks, Follows;
    var n, ls := Norm(j.mode, k), Elements(j.w.LinksOf(k));
    FollowsLinks(j.w, j.mode, k);
    NormSetUnion(j.mode, pending, ls);
    NormSetUnion(j.mode, inflight - {k}, {k});
    assert (inflight - {k}) + {k} == inflight;
    assert NormSet(j.mode, inflight) == NormSet(j.mode, inflight - {k}) + {n};
    FetchReaches(j, visited, pending, inflight, k);
  }

  lemma FetchReaches(j: Job, visited: set<Cid>, pending: set<Cid>, inflight: set<Cid>, k: Cid)
    requires j.Valid()
    requires Reaching(j, visited, pending, inflight) && k in inflight && !Aborts(j.w, j.mode, k)
    ensures Reaching(j, visited, pending + Elements(j.w.LinksOf(k)), inflight - {k})
  {
    var g, n := j.g - j.before, Norm(j.mode, k);
    FollowsLinks(j.w, j.mode, k);
    forall c | c in j.w.LinksOf(k) ensures Reachable(g, j.first, Norm(j.mode, c)) {
      assert Norm(j.mode, c) in NormSet(j.mode, Elements(j.w.LinksOf(k)));
      assert Norm(j.mode, c) in Succ(j.g, n);
      if n in visited - j.before {
        ReachStep(g, j.first, n, Norm(j.mode, c));
      } else {
        RootReachable(g, j.first, Norm(j.mode, c));
      }
    }
  }

  lemma AbortIsBad(j: Job, visited: set<Cid>, pending: set<Cid>, inflight: set<Cid>, k: Cid)
    requires Reaching(j, visited, pending, inflight) && k in inflight && Aborts(j.w, j.mode, k)
    ensures j.RootIsBad() || SomeBad(j.w, j.mode, j.before, visited)
  {
    assert !Healthy(j.w, j.mode, Norm(j.mode, k));
  }

  // What a finished walk guarantees, whether it completed or not.
  ghost predicate Walked(j: Job, errors0: bool, visited: set<Cid>, errors: bool, abort: bool, interrupted: bool) {
    && OnlyReachable(j.g, j.first, j.before, visited)
    && (!abort ==> j.first <= visited && Expanded(j.g, j.before, visited, {}))
    && (!abort && !errors ==> !errors0 && !j.RootIsBad() && AllHealthy(j.w, j.mode, j.before, visited))
    && ((abort || errors) && !interrupted && !errors0 ==> j.RootIsBad() || SomeBad(j.w, j.mode, j.before, visited))
    && (interrupted ==> abort)
    && (errors0 ==> errors)
    && (j.mode.Plain? ==> errors == errors0)
  }

  lemma WalkEnds(j: Job, visited: set<Cid>, flagged: bool, errors0: bool)
    requires WalkInv(j, visited, {}, {}, flagged) && (j.mode.Plain? ==> !flagged)
    ensures Walked(j, errors0, visited, errors0 || flagged, false, false)
  {
  }

  lemma WalkStops(j: Job, visited: set<Cid>, pending: set<Cid>, inflight: set<Cid>, flagged: bool,
                  errors0: bool, interrupted: bool)
    requires WalkInv(j, visited, pending, inflight, flagged) && (j.mode.Plain? ==> !flagged)
    requires interrupted || j.RootIsBad() || SomeBad(j.w, j.mode, j.before, visited)
    ensures Walked(j, errors0, visited, errors0 || flagged, true, interrupted)
  {
  }

  // A set of identifiers shared by several walks, with the flag their
  // link fetchers raise.
  class Walker {
    var visited: set<Cid>
    var errors: bool

    constructor ()
      ensures visited == {} && !errors
    {
      visited, errors := {}, false;
    }

    // Walks from root, entering it unless skipRoot. Without faults the context
    // is never cancelled.
    method Walk(w: World, mode: Mode, root: Cid, skipRoot: bool, faults: bool) returns (abort: bool, interrupted: bool)
      modifies this
      ensures interrupted ==> faults
      ensures Walked(NewJob(w, mode, root, skipRoot, old(visited)), old(errors), visited, errors, abort, interrupted)
    {
      ghost var j := NewJob(w, mode, root, skipRoot, visited);
      WalkBegins(j);
      if skipRoot {
        abort, interrupted := Work(j, w, mode, {}, {root}, faults);
      } else {
        abort, interrupted := Work(j, w, mode, {root}, {}, faults);
      }
    }

    // Any interleaving of workers: a pending identifier is tested against the
    // set by one worker at a time, links are fetched later, in any order.
    method Work(ghost j: Job, w: World, mode: Mode, pending0: set<Cid>, inflight0: set<Cid>, faults: bool)
      returns (abort: bool, interrupted: bool)
      requires j.Valid() && j.before == visited && j.w == w && j.mode == mode
      requires WalkInv(j, visited, pending0, inflight0, false)
      modifies this
      ensures interrupted ==> faults
      ensures Walked(j, old(errors), visited, errors, abort, interrupted)
    {
      hide Walked, Reaching, Covering, Judging, OnlyReachable, Expanded, AllHealthy, SomeBad, Follows, Start;
      var pending, inflight := pending0, inflight0;
      ghost var flagged := false;
      abort, interrupted := false, false;
      while pending != {} || inflight != {}
        invariant WalkInv(j, visited, pending, inflight, flagged)
        invariant errors == (old(errors) || flagged)
        invariant mode.Plain? ==> !flagged
        decreases Universe(w, mode, j.root) - visited, inflight, pending
      {
        if
        case faults => // the context is cancelled
          abort, interrupted := true, true;
          WalkStops(j, visited, pending, inflight, flagged, old(errors), true);
          return;
        case pending != {} =>
          var k :| k in pending;
          if Norm(mode, k) in visited {
            VisitOld(j, visited, pending, inflight, flagged, k);
            pending := pending - {k};
          } else {
            VisitNew(j, visited, pending, inflight, flagged, k);
            visited, pending, inflight := visited + {Norm(mode, k)}, pending - {k}, inflight + {k};
          }
        case inflight != {} =>
          var k :| k in inflight;
          if Aborts(w, mode, k) {
            abort := true;
            AbortIsBad(j, visited, pending, inflight, k);
            WalkStops(j, visited, pending, inflight, flagged, old(errors), false);
            return;
          }
          FetchKeeps(j, visited, pending, inflight, flagged, k);
          if Flags(w, mode, k) { errors, flagged := true, true; }
          pending, inflight := pending + Elements(w.LinksOf(k)), inflight - {k};
      }
      WalkEnds(j, visited, flagged, old(errors));
    }
  }
}
