/** The mark and sweep collector: which identifiers it marks, when marking
    succeeds, and what the sweep deletes and reports. */
module Gc {
  import opened Dag
  import opened Blocks
  import opened Walks

  // What the pinner and the caller hand to the collector.
  datatype Roots = Roots(recursive: seq<Cid>, bestEffort: seq<Cid>, direct: seq<Cid>, internal: seq<Cid>)

  function V1Set(cs: seq<Cid>): set<Cid> {
    NormSet(Strict, Elements(cs))
  }

  // Held by a recursive pin, or by a best-effort root through links that are there.
  ghost predicate Held(w: World, r: Roots, c: Cid) {
    Reachable(LinkGraph(w), V1Set(r.recursive), c) || Reachable(LinkGraph(w), V1Set(r.bestEffort), c)
  }

  // Pinned directly and held by nothing else: never expanded.
  ghost function DirectOnly(w: World, r: Roots): set<Cid> {
    set c | c in V1Set(r.direct) && !Held(w, r, c)
  }

  ghost predicate HeldInternally(w: World, r: Roots, c: Cid) {
    Reachable(LinkGraph(w) - DirectOnly(w, r), V1Set(r.internal), c)
  }

  ghost predicate Live(w: World, r: Roots, c: Cid) {
    Held(w, r, c) || c in V1Set(r.direct) || HeldInternally(w, r, c)
  }

  // The links behind c were fetched.
  predicate Expandable(w: World, c: Cid) {
    c in w.fetch && w.fetch[c].Links? && c.hash !in w.insecure
  }

  // Marking can succeed: what recursive pins reach, and what internal pins reach
  // beyond what is held or pinned directly, can be expanded; what only
  // best-effort roots hold may be missing, but not fail otherwise.
  ghost predicate Markable(w: World, r: Roots) {
    && (forall c :: Reachable(LinkGraph(w), V1Set(r.recursive), c) ==> Expandable(w, c))
    && (forall c :: Held(w, r, c) && !Reachable(LinkGraph(w), V1Set(r.recursive), c) ==>
          c.hash !in w.insecure && !(c in w.fetch && w.fetch[c].Failed?))
    && (forall c :: HeldInternally(w, r, c) && !Held(w, r, c) && c !in V1Set(r.direct) ==> Expandable(w, c))
  }

  // The same in terms of the three walks: none of them records an error.
  ghost predicate WalksHealthy(w: World, r: Roots) {
    && (forall c :: Reachable(LinkGraph(w), V1Set(r.recursive), c) ==> Healthy(w, Strict, c))
    && (forall c :: Held(w, r, c) && !Reachable(LinkGraph(w), V1Set(r.recursive), c) ==> Healthy(w, BestEffort, c))
    && (forall c :: HeldInternally(w, r, c) && !Held(w, r, c) && c !in V1Set(r.direct) ==> Healthy(w, Strict, c))
  }

  lemma MarkableIffWalksHealthy(w: World, r: Roots)
    ensures Markable(w, r) <==> WalksHealthy(w, r)
  {
    hide Follows, Healthy;
    assert SubGraph(LinkGraph(w) - DirectOnly(w, r), LinkGraph(w));
    ReachableMonotone(LinkGraph(w) - DirectOnly(w, r), LinkGraph(w), V1Set(r.internal), V1Set(r.internal));
    forall c: Cid ensures c.CidV1? ==> (Healthy(w, Strict, c) <==> Expandable(w, c)) {
      if c.CidV1? { StrictHealth(w, c); }
    }
    forall c: Cid ensures c.CidV1? ==> (Healthy(w, BestEffort, c) <==> c.hash !in w.insecure && !(c in w.fetch && w.fetch[c].Failed?)) {
      if c.CidV1? { BestEffortHealth(w, c); }
    }
    ReachedIsV1(w, Elements(r.recursive));
    ReachedIsV1(w, Elements(r.bestEffort));
    ReachedIsV1(w, Elements(r.internal));
    hide Expandable, Reachable;
  }

  // A whole list of roots walked one after the other is one walk of them all.
  ghost function ListJob(w: World, mode: Mode, roots: set<Cid>, before: set<Cid>): Job {
    Job(w, mode, CidV0([]), false, Follows(w, mode), NormSet(mode, roots), before)
  }

  lemma OneMoreRoot(w: World, mode: Mode, roots: set<Cid>, root: Cid, before: set<Cid>,
                    e0: bool, v1: set<Cid>, e1: bool, v2: set<Cid>, e2: bool, abort: bool, interrupted: bool)
    requires Walked(ListJob(w, mode, roots, before), e0, v1, e1, false, false)
    requires Walked(NewJob(w, mode, root, false, v1), e1, v2, e2, abort, interrupted)
    ensures Walked(ListJob(w, mode, roots + {root}, before), e0, v2, e2, abort, interrupted)
  {
    var g, first := Follows(w, mode), NormSet(mode, roots);
    var more := NormSet(mode, roots + {root});
    NormSetUnion(mode, roots, {root});
    assert more == first + {Norm(mode, root)};
    ReachableMonotone(g - v1, g - before, {Norm(mode, root)}, more);
    ReachableMonotone(g - before, g - before, first, more);
    assert OnlyReachable(g, more, before, v2);
    if SomeBad(w, mode, v1, v2) {
      var c :| c in v2 && c !in v1 && !Healthy(w, mode, c);
      assert c !in before;
    }
  }

  lemma StoppedEarly(w: World, mode: Mode, some: set<Cid>, roots: set<Cid>, before: set<Cid>,
                     e0: bool, v: set<Cid>, e: bool, interrupted: bool)
    requires Walked(ListJob(w, mode, some, before), e0, v, e, true, interrupted) && some <= roots
    ensures Walked(ListJob(w, mode, roots, before), e0, v, e, true, interrupted)
  {
    var g := Follows(w, mode) - before;
    ReachableMonotone(g, g, NormSet(mode, some), NormSet(mode, roots));
  }

  lemma SameGraph(w: World)
    ensures Follows(w, BestEffort) == Follows(w, Strict)
  {
    assert forall c :: NormSeq(BestEffort, w.LinksOf(c)) == NormSeq(Strict, w.LinksOf(c));
  }

  class Marker {
    var gcs: Walker

    constructor ()
      ensures fresh(gcs) && gcs.visited == {} && !gcs.errors
    {
      gcs := new Walker();
    }

    method Descendants(w: World, mode: Mode, roots: seq<Cid>, faults: bool) returns (abort: bool, interrupted: bool)
      modifies gcs
      ensures interrupted ==> faults
      ensures Walked(ListJob(w, mode, Elements(roots), old(gcs.visited)), old(gcs.errors),
                     gcs.visited, gcs.errors, abort, interrupted)
    {
      abort, interrupted := false, false;
      ghost var before, e0 := gcs.visited, gcs.errors;
      assert NormSet(mode, Elements(roots[..0])) == {};
      for i := 0 to |roots|
        invariant !abort && !interrupted
        invariant Walked(ListJob(w, mode, Elements(roots[..i]), before), e0, gcs.visited, gcs.errors, false, false)
      {
        ghost var v1, e1 := gcs.visited, gcs.errors;
        abort, interrupted := gcs.Walk(w, mode, roots[i], false, faults);
        OneMoreRoot(w, mode, Elements(roots[..i]), roots[i], before, e0, v1, e1, gcs.visited, gcs.errors, abort, interrupted);
        assert roots[..i + 1] == roots[..i] + [roots[i]];
        assert Elements(roots[..i + 1]) == Elements(roots[..i]) + {roots[i]};
        if abort {
          StoppedEarly(w, mode, Elements(roots[..i + 1]), Elements(roots), before, e0, gcs.visited, gcs.errors, interrupted);
          return;
        }
      }
      assert roots[..|roots|] == roots;
    }

    // The three walks and the direct pins, in the source's order. ok is false
    // exactly when some link could not be fetched, or, with faults, when the
    // pinner failed or the context was cancelled.
    method ColoredSet(w: World, r: Roots, faults: bool) returns (ok: bool, interrupted: bool)
      requires gcs.visited == {} && !gcs.errors
      modifies gcs
      ensures ok ==> MarkedExactly(w, r, gcs.visited) && Markable(w, r)
      ensures !ok ==> interrupted || !Markable(w, r)
      ensures interrupted ==> faults
    {
      ok, interrupted := false, false;
      MarkableIffWalksHealthy(w, r);
      interrupted := Fault(faults);
      if interrupted { return; } // the pinner fails to list its pins
      var abort;
      abort, interrupted := Descendants(w, Strict, r.recursive, faults);
      FirstPhase(w, r, gcs.visited, gcs.errors, abort, interrupted);
      if abort { gcs.errors := true; }
      if interrupted { return; }

      ghost var v1, e1 := gcs.visited, gcs.errors;
      abort, interrupted := Descendants(w, BestEffort, r.bestEffort, faults);
      SecondPhase(w, r, v1, e1, gcs.visited, gcs.errors, abort, interrupted);
      if abort { gcs.errors := true; }
      if interrupted { return; }

      interrupted := Fault(faults);
      if interrupted { return; }
      ghost var v2, e2 := gcs.visited, gcs.errors;
      AddDirect(r.direct);

      interrupted := Fault(faults);
      if interrupted { return; }
      abort, interrupted := Descendants(w, Strict, r.internal, faults);
      ThirdPhase(w, r, v2, e2, gcs.visited, gcs.errors, abort, interrupted);
      if abort { gcs.errors := true; }
      if interrupted { return; }
      ok := !gcs.errors;
    }

    // Direct pins are marked without being expanded.
    method AddDirect(dkeys: seq<Cid>)
      modifies gcs
      ensures gcs.visited == old(gcs.visited) + V1Set(dkeys) && gcs.errors == old(gcs.errors)
    {
      for i := 0 to |dkeys|
        invariant gcs.visited == old(gcs.visited) + V1Set(dkeys[..i]) && gcs.errors == old(gcs.errors)
      {
        gcs.visited := gcs.visited + {ToCidV1(dkeys[i])};
        assert Elements(dkeys[..i + 1]) == Elements(dkeys[..i]) + {dkeys[i]};
        NormSetUnion(Strict, Elements(dkeys[..i]), {dkeys[i]});
      }
      assert dkeys[..|dkeys|] == dkeys;
    }
  }

  ghost predicate MarkedExactly(w: World, r: Roots, marked: set<Cid>) {
    forall c :: c in marked <==> Live(w, r, c)
  }

  // The state between two walks: either an error is recorded and marking
  // cannot succeed, or the set is exact so far and healthy.
  ghost predicate AfterRecursive(w: World, r: Roots, v: set<Cid>, e: bool) {
    if e then !WalksHealthy(w, r) else
      && ClosedUnder(LinkGraph(w), v)
      && (forall c :: c in v <==> Reachable(LinkGraph(w), V1Set(r.recursive), c))
      && (forall c :: c in v ==> Healthy(w, Strict, c))
  }

  ghost predicate AfterBestEffort(w: World, r: Roots, v: set<Cid>, e: bool) {
    if e then !WalksHealthy(w, r) else
      && ClosedUnder(LinkGraph(w), v)
      && (forall c :: c in v <==> Held(w, r, c))
      && (forall c :: Reachable(LinkGraph(w), V1Set(r.recursive), c) ==> Healthy(w, Strict, c))
      && (forall c :: Held(w, r, c) && !Reachable(LinkGraph(w), V1Set(r.recursive), c) ==> Healthy(w, BestEffort, c))
  }

  // A completed walk adds exactly what its roots reach, when the only earlier
  // nodes with links outside the set are the blocked ones.
  lemma WalkAddsReach(g: Graph<Cid>, first: set<Cid>, before: set<Cid>, blocked: set<Cid>, visited: set<Cid>)
    requires OnlyReachable(g, first, before, visited) && first <= visited && Expanded(g, before, visited, {})
    requires blocked <= before && ClosedUnder(g - blocked, before)
    ensures ClosedUnder(g - blocked, visited)
    ensures forall c :: c in visited <==> c in before || Reachable(g - blocked, first, c)
  {
    var h := g - blocked;
    assert SubGraph(g - before, h);
    assert ClosedUnder(h, visited) by {
      forall b, c | b in visited && c in Succ(h, b) ensures c in visited {
        assert c in Succ(g, b);
      }
    }
    ReachableMonotone(g - before, h, first, first);
    ClosedHoldsReachable(h, first, visited);
  }

  lemma DirectOnlyUnexpanded(g: Graph<Cid>, held: set<Cid>, direct: set<Cid>, blocked: set<Cid>)
    requires ClosedUnder(g, held) && direct <= held + blocked
    ensures ClosedUnder(g - blocked, held + direct)
  {
    forall b, c | b in held + direct && c in Succ(g - blocked, b) ensures c in held {
      assert c in Succ(g, b);
    }
  }

  lemma FirstPhase(w: World, r: Roots, v: set<Cid>, e: bool, abort: bool, interrupted: bool)
    requires Walked(ListJob(w, Strict, Elements(r.recursive), {}), false, v, e, abort, interrupted)
    ensures !interrupted ==> AfterRecursive(w, r, v, e || abort)
  {
    var g, roots := LinkGraph(w), V1Set(r.recursive);
    assert g - {} == g;
    if !abort && !e {
      WalkAddsReach(g, roots, {}, {}, v);
    } else if !interrupted {
      var c :| c in v && !Healthy(w, Strict, c);
      assert Reachable(g, roots, c);
    }
  }

  lemma SecondPhase(w: World, r: Roots, v1: set<Cid>, e1: bool, v2: set<Cid>, e2: bool, abort: bool, interrupted: bool)
    requires AfterRecursive(w, r, v1, e1)
    requires Walked(ListJob(w, BestEffort, Elements(r.bestEffort), v1), e1, v2, e2, abort, interrupted)
    ensures !interrupted ==> AfterBestEffort(w, r, v2, e2 || abort)
  {
    var g, roots := LinkGraph(w), V1Set(r.bestEffort);
    SameGraph(w);
    assert NormSet(BestEffort, Elements(r.bestEffort)) == roots;
    assert g - {} == g;
    if !abort && !e2 {
      WalkAddsReach(g, roots, v1, {}, v2);
    } else if !interrupted && !e1 {
      ReachableMonotone(g - v1, g, roots, roots);
      var c :| c in v2 && c !in v1 && !Healthy(w, BestEffort, c);
      assert Held(w, r, c);
    }
  }

  lemma ThirdPhase(w: World, r: Roots, v2: set<Cid>, e2: bool, v4: set<Cid>, e4: bool, abort: bool, interrupted: bool)
    requires AfterBestEffort(w, r, v2, e2)
    requires Walked(ListJob(w, Strict, Elements(r.internal), v2 + V1Set(r.direct)), e2, v4, e4, abort, interrupted)
    ensures !interrupted ==> if e4 || abort then !WalksHealthy(w, r) else MarkedExactly(w, r, v4) && WalksHealthy(w, r)
  {
    var g, roots, v3 := LinkGraph(w), V1Set(r.internal), v2 + V1Set(r.direct);
    var blocked := DirectOnly(w, r);
    if !abort && !e4 {
      DirectOnlyUnexpanded(g, v2, V1Set(r.direct), blocked);
      WalkAddsReach(g, roots, v3, blocked, v4);
      forall c ensures c in v4 <==> Live(w, r, c) {
        assert c in v4 <==> c in v3 || HeldInternally(w, r, c);
      }
    } else if !interrupted && !e2 {
      ReachableMonotone(g - v3, g - blocked, roots, roots);
      var c :| c in v4 && c !in v3 && !Healthy(w, Strict, c);
      assert HeldInternally(w, r, c);
    }
  }

  // ---- Sweep ----

  datatype Result = KeyRemoved(key: Cid) | CannotDelete(key: Cid) | CannotDeleteSome | Failure

  // How a run ended: marking failed, the context was cancelled during the
  // sweep, or every key was seen (with or without failed deletions).
  datatype Ending = MarkFailed | Cancelled | Swept(failures: bool)

  ghost predicate Wanted(w: World, r: Roots, h: Multihash) {
    exists c :: Live(w, r, c) && c.hash == h
  }

  // The hashes a run reports as removed, none of them twice.
  ghost predicate Reports(output: seq<Result>, removed: set<Multihash>) {
    && (forall h :: h in removed <==> KeyRemoved(RawCid(h)) in output)
    && (forall i, k :: 0 <= i < k < |output| && output[i].KeyRemoved? ==> output[i] != output[k])
  }

  lemma NothingReported()
    ensures Reports([], {})
  {
  }

  lemma ReportRemoval(output: seq<Result>, removed: set<Multihash>, h: Multihash)
    requires Reports(output, removed) && h !in removed
    ensures Reports(output + [KeyRemoved(RawCid(h))], removed + {h})
  {
  }

  lemma ReportOther(output: seq<Result>, removed: set<Multihash>, r: Result)
    requires Reports(output, removed) && !r.KeyRemoved?
    ensures Reports(output + [r], removed)
  {
  }

  method ToRawCids(marked: set<Cid>) returns (raw: set<Cid>)
    ensures forall h :: RawCid(h) in raw <==> exists c :: c in marked && c.hash == h
  {
    raw := {};
    var todo := marked;
    while todo != {}
      invariant todo <= marked
      invariant forall h :: RawCid(h) in raw <==> exists c :: c in marked - todo && c.hash == h
    {
      var c :| c in todo;
      todo, raw := todo - {c}, raw + {RawCid(c.hash)};
    }
  }

  class Blockstore {
    var blocks: set<Multihash>

    constructor (bs: set<Multihash>)
      ensures blocks == bs
    {
      blocks := bs;
    }

    method GC(w: World, r: Roots, faults: bool) returns (output: seq<Result>, ending: Ending, ghost removed: set<Multihash>)
      modifies this
      ensures blocks <= old(blocks)
      ensures forall h :: h in old(blocks) && Wanted(w, r, h) ==> h in blocks
      ensures ending == Swept(false) ==> forall h :: h in blocks <==> h in old(blocks) && Wanted(w, r, h)
      ensures !Markable(w, r) ==> ending.MarkFailed?
      ensures (exists c :: Reachable(LinkGraph(w), V1Set(r.recursive), c) && !(c in w.fetch && w.fetch[c].Links?)) ==> ending.MarkFailed?
      ensures Markable(w, r) && !faults ==> ending == Swept(false)
      ensures ending.MarkFailed? ==> blocks == old(blocks)
      ensures Reports(output, removed) && removed <= old(blocks) - blocks
      ensures if ending.Cancelled? then |(old(blocks) - blocks) - removed| <= 1 else removed == old(blocks) - blocks
      ensures ending.Swept? ==> (ending.failures <==> CannotDeleteSome in output)
    {
      hide Reachable, LinkGraph, V1Set, Reports;
      output, removed, ending := [], {}, MarkFailed;
      NothingReported();
      ReportOther(output, removed, Failure);
      var marker := new Marker();
      var ok, interrupted := marker.ColoredSet(w, r, faults);
      if !ok {
        output := output + [Failure];
        return;
      }
      var raw := ToRawCids(marker.gcs.visited);
      assert forall h :: RawCid(h) in raw <==> Wanted(w, r, h);
      var failed := Fault(faults);
      if failed { output := output + [Failure]; return; } // the key listing fails
      output, ending, removed := Sweep(raw, faults);
      ReportOther(output, removed, Failure);
      failed := Fault(faults);
      if failed && ending.Swept? { output := output + [Failure]; } // the datastore's own collection fails
    }

    // Deletes every listed key that is not in the marked set.
    method Sweep(raw: set<Cid>, faults: bool)
      returns (output: seq<Result>, ending: Ending, ghost removed: set<Multihash>)
      modifies this
      ensures !ending.MarkFailed? && blocks <= old(blocks)
      ensures forall h :: h in old(blocks) && RawCid(h) in raw ==> h in blocks
      ensures ending == Swept(false) ==> forall h :: h in blocks ==> RawCid(h) in raw
      ensures Reports(output, removed) && removed <= old(blocks) - blocks
      ensures if ending.Cancelled? then |(old(blocks) - blocks) - removed| <= 1 else removed == old(blocks) - blocks
      ensures !faults ==> ending == Swept(false)
      ensures ending.Swept? ==> (ending.failures <==> CannotDeleteSome in output)
    {
      hide Reports;
      output, removed, ending := [], {}, Cancelled;
      NothingReported();
      var keychan, errors := blocks, false;
      while keychan != {}
        invariant keychan <= blocks <= old(blocks) && removed == old(blocks) - blocks
        invariant forall h :: h in old(blocks) && RawCid(h) in raw ==> h in blocks
        invariant !errors ==> forall h :: h in blocks && h !in keychan ==> RawCid(h) in raw
        invariant Reports(output, removed)
        invariant CannotDeleteSome !in output
        invariant errors ==> faults
      {
        var cancelled := Fault(faults);
        if cancelled { return; }
        var h :| h in keychan;
        keychan := keychan - {h};
        if RawCid(h) !in raw {
          var failed := Fault(faults);
          cancelled := Fault(faults);
          if failed {
            errors := true;
            if cancelled { return; }
            ReportOther(output, removed, CannotDelete(RawCid(h)));
            output := output + [CannotDelete(RawCid(h))];
          } else {
            blocks := blocks - {h};
            if cancelled {
              assert (old(blocks) - blocks) - removed == {h};
              return;
            }
            ReportRemoval(output, removed, h);
            output, removed := output + [KeyRemoved(RawCid(h))], removed + {h};
          }
        }
      }
      if errors {
        var cancelled := Fault(faults);
        if cancelled { return; }
        ReportOther(output, removed, CannotDeleteSome);
        output := output + [CannotDeleteSome];
      }
      ending := Swept(errors);
    }
  }
}
