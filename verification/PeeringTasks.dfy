/** The peering service's books: in every run each notification, start and dial
    is pending until it is handled, and the peers are those added and not
    removed since. */
module PeeringTasks {
  import opened Backoff
  import opened Peering

  function One(b: bool): nat {
    if b then 1 else 0
  }

  // The step delivers this notification for handler h's peer.
  predicate Hears(s: State, a: Step, h: Hid, connected: bool) {
    && a.Deliver? && (if connected then a.task.Connected? else a.task.Disconnected?)
    && a.task.p in s.peers && s.peers[a.task.p] == h
  }

  predicate Spawns(s: State, a: Step, h: Hid) {
    || Hears(s, a, h, false)
    || (a.StartService? && s.phase.Init? && h in s.peers.Values)
    || (a.AddPeer? && a.h == h && a.p !in s.peers && s.phase.Running?)
  }

  predicate Begins(a: Step, h: Hid) {
    a.RunStart? && a.h == h
  }

  lemma NotificationStep(s: State, a: Step, s': State, p: Peer)
    requires Next(s, a, s')
    ensures s'.tasks[Connected(p)] + One(a == Deliver(Connected(p))) == s.tasks[Connected(p)] + One(a == Connect(p) && s.notifying)
    ensures s'.tasks[Disconnected(p)] + One(a == Deliver(Disconnected(p))) == s.tasks[Disconnected(p)] + One(a == Disconnect(p) && s.notifying)
  {
    hide NetStep, HandlerStep, ServiceStep;
    if HandlerStep(s, a, s') {
      OwnTasks(s, a, s');
      HandlerIsNoNet(s, a, s');
    } else if NetStep(s, a, s') {
      NetNotifications(s, a, s', p);
    } else {
      ServiceNotifications(s, a, s', p);
    }
  }

  lemma HandlerIsNoNet(s: State, a: Step, s': State)
    requires HandlerStep(s, a, s')
    ensures !a.Connect? && !a.Disconnect? && !a.Deliver? && !a.StartService? && !a.AddPeer?
  {
  }

  lemma NetNotifications(s: State, a: Step, s': State, p: Peer)
    requires NetStep(s, a, s')
    ensures s'.tasks[Connected(p)] + One(a == Deliver(Connected(p))) == s.tasks[Connected(p)] + One(a == Connect(p) && s.notifying)
    ensures s'.tasks[Disconnected(p)] + One(a == Deliver(Disconnected(p))) == s.tasks[Disconnected(p)] + One(a == Disconnect(p) && s.notifying)
  {
    NetTask(s, a, s', Connected(p));
    NetTask(s, a, s', Disconnected(p));
    NetEvents(s, a, s');
    hide NetStep;
  }

  lemma ServiceNotifications(s: State, a: Step, s': State, p: Peer)
    requires ServiceStep(s, a, s')
    ensures !a.Connect? && !a.Disconnect? && !a.Deliver?
    ensures s'.tasks[Connected(p)] == s.tasks[Connected(p)] && s'.tasks[Disconnected(p)] == s.tasks[Disconnected(p)]
  {
    hide CancelAll;
    assert Connected(p) !in StartAll(s) && Disconnected(p) !in StartAll(s);
  }

  lemma StartStep(s: State, a: Step, s': State, h: Hid)
    requires Next(s, a, s')
    ensures s'.tasks[StartTask(h)] + One(Begins(a, h)) == s.tasks[StartTask(h)] + One(Spawns(s, a, h))
  {
    hide NetStep, HandlerStep, ServiceStep;
    if HandlerStep(s, a, s') {
      HandlerIsNoNet(s, a, s');
      HandlerStarts(s, a, s', h);
    } else if NetStep(s, a, s') {
      NetStarts(s, a, s', h);
    } else {
      ServiceStarts(s, a, s', h);
    }
  }

  lemma HandlerStarts(s: State, a: Step, s': State, h: Hid)
    requires HandlerStep(s, a, s')
    ensures s'.tasks[StartTask(h)] + One(Begins(a, h)) == s.tasks[StartTask(h)]
  {
    HandlerTask(s, a, s', StartTask(h));
    HandlerTasks(s, a, s');
    hide HandlerStep;
  }

  lemma NetStarts(s: State, a: Step, s': State, h: Hid)
    requires NetStep(s, a, s')
    ensures !Begins(a, h) && s'.tasks[StartTask(h)] == s.tasks[StartTask(h)] + One(Spawns(s, a, h))
  {
    NetTask(s, a, s', StartTask(h));
    NetEvents(s, a, s');
    hide NetStep;
  }

  lemma ServiceStarts(s: State, a: Step, s': State, h: Hid)
    requires ServiceStep(s, a, s')
    ensures !Begins(a, h) && s'.tasks[StartTask(h)] == s.tasks[StartTask(h)] + One(Spawns(s, a, h))
  {
    hide CancelAll;
    StartAllCount(s, h);
    hide StartAll;
  }

  lemma StartAllCount(s: State, h: Hid)
    ensures StartAll(s)[StartTask(h)] == One(h in s.peers.Values)
  {
    var starts := set p | p in s.peers :: StartTask(s.peers[p]);
    assert StartTask(h) in starts <==> h in s.peers.Values;
  }

  // A dial under way, its failure, and the check at its end.
  function Attempts(s: State, h: Hid): nat {
    s.tasks[Dialing(h)] + s.tasks[Failing(h)] + s.tasks[StopTask(h)]
  }

  lemma DialStep(s: State, a: Step, s': State, h: Hid)
    requires Next(s, a, s')
    ensures s'.tasks[Dialing(h)] + One(a == DialOk(h) || a == DialFail(h)) == s.tasks[Dialing(h)] + One(a == Fire(h))
    ensures s'.tasks[Failing(h)] + One(a.HandleFail? && a.h == h) == s.tasks[Failing(h)] + One(a == DialFail(h))
    ensures s'.tasks[StopTask(h)] + One(a == RunStop(h)) ==
            s.tasks[StopTask(h)] + One(a == DialOk(h)) + One(a.HandleFail? && a.h == h) + One(Hears(s, a, h, true))
  {
    hide NetStep, HandlerStep, ServiceStep;
    if HandlerStep(s, a, s') {
      HandlerIsNoNet(s, a, s');
      HandlerDials(s, a, s', h);
    } else if NetStep(s, a, s') {
      NetDials(s, a, s', h);
    } else {
      ServiceDials(s, a, s', h);
    }
  }

  lemma HandlerDials(s: State, a: Step, s': State, h: Hid)
    requires HandlerStep(s, a, s')
    ensures s'.tasks[Dialing(h)] + One(a == DialOk(h) || a == DialFail(h)) == s.tasks[Dialing(h)] + One(a == Fire(h))
    ensures s'.tasks[Failing(h)] + One(a.HandleFail? && a.h == h) == s.tasks[Failing(h)] + One(a == DialFail(h))
    ensures s'.tasks[StopTask(h)] + One(a == RunStop(h)) == s.tasks[StopTask(h)] + One(a == DialOk(h)) + One(a.HandleFail? && a.h == h)
  {
    HandlerTask(s, a, s', Dialing(h));
    HandlerTask(s, a, s', Failing(h));
    HandlerTask(s, a, s', StopTask(h));
    HandlerTasks(s, a, s');
    hide HandlerStep;
  }

  lemma NetDials(s: State, a: Step, s': State, h: Hid)
    requires NetStep(s, a, s')
    ensures a.Connect? || a.Disconnect? || a.Deliver?
    ensures s'.tasks[Dialing(h)] == s.tasks[Dialing(h)] && s'.tasks[Failing(h)] == s.tasks[Failing(h)]
    ensures s'.tasks[StopTask(h)] == s.tasks[StopTask(h)] + One(Hears(s, a, h, true))
  {
    NetTask(s, a, s', Dialing(h));
    NetTask(s, a, s', Failing(h));
    NetTask(s, a, s', StopTask(h));
    NetEvents(s, a, s');
    hide NetStep;
  }

  lemma ServiceDials(s: State, a: Step, s': State, h: Hid)
    requires ServiceStep(s, a, s')
    ensures a.StartService? || a.StopNotify? || a.StopLocked? || a.AddPeer? || a.RemovePeer?
    ensures s'.tasks[Dialing(h)] == s.tasks[Dialing(h)] && s'.tasks[Failing(h)] == s.tasks[Failing(h)]
    ensures s'.tasks[StopTask(h)] == s.tasks[StopTask(h)]
  {
    hide CancelAll;
    assert Dialing(h) !in StartAll(s) && Failing(h) !in StartAll(s) && StopTask(h) !in StartAll(s);
  }

  // ---- Over whole runs ----

  // How many of the first k steps did something.
  ghost function Times(r: Run, k: nat, did: (State, Step) -> bool): nat
    requires k <= |r.steps| < |r.states|
  {
    if k == 0 then 0 else Times(r, k - 1, did) + One(did(r.states[k - 1], r.steps[k - 1]))
  }

  // Each firing of the timer and each Connected notification ends in one
  // check of the connection, or is still on its way to it.
  lemma {:induction false} AttemptsAreChecked(r: Run, k: nat, h: Hid)
    requires IsRun(r) && k <= |r.steps|
    ensures Times(r, k, (s, a) => a == Fire(h)) + Times(r, k, (s, a) => Hears(s, a, h, true))
            == Times(r, k, (s, a) => a == RunStop(h)) + Attempts(r.states[k], h)
    decreases k
  {
    hide Next, Hears;
    if k > 0 {
      AttemptsAreChecked(r, k - 1, h);
      DialStep(r.states[k - 1], r.steps[k - 1], r.states[k], h);
    }
  }

  // Each start that was called for has been run or is pending.
  lemma {:induction false} StartsAreRun(r: Run, k: nat, h: Hid)
    requires IsRun(r) && k <= |r.steps|
    ensures Times(r, k, (s, a) => Spawns(s, a, h)) == Times(r, k, (s, a) => Begins(a, h)) + r.states[k].tasks[StartTask(h)]
    decreases k
  {
    hide Next, Spawns, Begins;
    if k > 0 {
      StartsAreRun(r, k - 1, h);
      StartStep(r.states[k - 1], r.steps[k - 1], r.states[k], h);
    }
  }

  lemma RegistryStep(s: State, a: Step, s': State, p: Peer, h: Hid)
    requires Next(s, a, s')
    ensures p in s'.peers && s'.peers[p] == h <==>
              (a == AddPeer(p, h) && p !in s.peers) || (p in s.peers && s.peers[p] == h && a != RemovePeer(p))
  {
    hide NetStep, HandlerStep, ServiceStep;
    if HandlerStep(s, a, s') {
      HandlerKeepsRegistry(s, a, s');
    } else if NetStep(s, a, s') {
      NetChangesNothingElse(s, a, s');
      NetDials(s, a, s', h);
    } else {
      ServiceRegistry(s, a, s', p, h);
    }
  }

  lemma HandlerKeepsRegistry(s: State, a: Step, s': State)
    requires HandlerStep(s, a, s')
    ensures s'.peers == s.peers && !a.AddPeer? && !a.RemovePeer?
  {
    hide ValidDraw, AfterStart, AfterDialFailed, AfterStopIfConnected;
  }

  lemma ServiceRegistry(s: State, a: Step, s': State, p: Peer, h: Hid)
    requires ServiceStep(s, a, s')
    ensures p in s'.peers && s'.peers[p] == h <==>
              (a == AddPeer(p, h) && p !in s.peers) || (p in s.peers && s.peers[p] == h && a != RemovePeer(p))
  {
    hide CancelAll, StartAll;
  }

  // Handler h serves p exactly when some step registered it, adding a peer
  // that was not there, and no later step removed the peer.
  lemma {:induction false} ServesIff(r: Run, k: nat, p: Peer, h: Hid)
    requires IsRun(r) && k <= |r.steps|
    ensures p in r.states[k].peers && r.states[k].peers[p] == h <==>
              exists i :: 0 <= i < k && r.steps[i] == AddPeer(p, h) && p !in r.states[i].peers && NotRemoved(r, i + 1, k, p)
    decreases k
  {
    hide Next;
    if k > 0 {
      ServesIff(r, k - 1, p, h);
      RegistryStep(r.states[k - 1], r.steps[k - 1], r.states[k], p, h);
      if r.steps[k - 1] == AddPeer(p, h) && p !in r.states[k - 1].peers {
        assert NotRemoved(r, k - 1 + 1, k, p);
      } else if p in r.states[k].peers && r.states[k].peers[p] == h {
        var i :| 0 <= i < k - 1 && r.steps[i] == AddPeer(p, h) && p !in r.states[i].peers && NotRemoved(r, i + 1, k - 1, p);
        assert NotRemoved(r, i + 1, k, p);
      }
    }
  }

  ghost predicate NotRemoved(r: Run, i: nat, k: nat, p: Peer)
    requires k <= |r.steps|
  {
    forall j :: i <= j < k ==> r.steps[j] != RemovePeer(p)
  }
}
