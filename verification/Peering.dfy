/** The peering service as a step system: every step is one critical section
    of the service or of a handler, a network event, a timer firing or a dial
    ending. Goroutines and undelivered notifications are pending tasks. */
module Peering {
  import opened Backoff

  type Peer = nat
  type Hid = nat

  datatype Phase = Init | Running | Stopped

  datatype Task =
    | StartTask(h: Hid)       // go handler.startIfDisconnected()
    | StopTask(h: Hid)        // stopIfConnected, spawned or as the end of reconnect
    | Dialing(h: Hid)         // reconnect, inside Connect
    | Failing(h: Hid)         // reconnect, after Connect failed
    | Connected(p: Peer)      // a Connected notification on its way
    | Disconnected(p: Peer)   // a Disconnected notification on its way
    | StopCall                // Stop, between StopNotify and taking the lock

  datatype State = State(conn: set<Peer>, phase: Phase, notifying: bool, peers: map<Peer, Hid>,
                         handlers: map<Hid, Handler>, tasks: multiset<Task>)

  datatype Step =
    | Connect(p: Peer) | Disconnect(p: Peer)
    | Deliver(task: Task)
    | RunStart(h: Hid, r: Draw) | RunStop(h: Hid)
    | Fire(h: Hid) | DialOk(h: Hid) | DialFail(h: Hid) | HandleFail(h: Hid, r: Draw)
    | StartService | StopNotify | StopLocked
    | AddPeer(p: Peer, h: Hid) | RemovePeer(p: Peer)

  ghost predicate InitState(s: State) {
    s.phase.Init? && !s.notifying && s.peers == map[] && s.handlers == map[] && s.tasks == multiset{}
  }

  function SetHandler(s: State, h: Hid, v: Handler): State {
    s.(handlers := s.handlers[h := v])
  }

  function Add(s: State, t: Task): State {
    s.(tasks := s.tasks + multiset{t})
  }

  function Take(s: State, t: Task): State {
    s.(tasks := s.tasks - multiset{t})
  }

  function Notify(s: State, t: Task): State {
    if s.notifying then Add(s, t) else s
  }

  function StartAll(s: State): multiset<Task> {
    multiset(set p | p in s.peers :: StartTask(s.peers[p]))
  }

  // The handler is the one in the peers map for its peer.
  predicate Registered(s: State, h: Hid) {
    h in s.handlers && s.handlers[h].peer in s.peers && s.peers[s.handlers[h].peer] == h
  }

  function CancelAll(s: State): map<Hid, Handler> {
    map h | h in s.handlers :: if Registered(s, h) then AfterStop(s.handlers[h]) else s.handlers[h]
  }

  predicate IsConnected(s: State, h: Hid)
    requires h in s.handlers
  {
    s.handlers[h].peer in s.conn
  }

  ghost predicate Next(s: State, a: Step, s': State) {
    NetStep(s, a, s') || HandlerStep(s, a, s') || ServiceStep(s, a, s')
  }

  // The network, and the delivery of its notifications.
  ghost predicate NetStep(s: State, a: Step, s': State) {
    match a
    case Connect(p) => p !in s.conn && s' == Notify(s.(conn := s.conn + {p}), Connected(p))
    case Disconnect(p) => p in s.conn && s' == Notify(s.(conn := s.conn - {p}), Disconnected(p))
    case Deliver(task) =>
      && task in s.tasks && (task.Connected? || task.Disconnected?)
      && s' == if task.p !in s.peers then Take(s, task)
               else Add(Take(s, task), if task.Connected? then StopTask(s.peers[task.p]) else StartTask(s.peers[task.p]))
    case _ => false
  }

  // One handler's timer, dial or critical section.
  ghost predicate HandlerStep(s: State, a: Step, s': State) {
    match a
    case RunStart(h, r) =>
      && StartTask(h) in s.tasks && h in s.handlers && ValidDraw(s.handlers[h].nextDelay, r)
      && s' == SetHandler(Take(s, StartTask(h)), h, AfterStart(s.handlers[h], IsConnected(s, h), r))
    case RunStop(h) =>
      && StopTask(h) in s.tasks && h in s.handlers
      && s' == SetHandler(Take(s, StopTask(h)), h, AfterStopIfConnected(s.handlers[h], IsConnected(s, h)))
    case Fire(h) =>
      && h in s.handlers && s.handlers[h].timer.Armed?
      && s' == Add(SetHandler(s, h, s.handlers[h].(timer := Fired)), Dialing(h))
    case DialOk(h) => // the moment in Connect at which it finds the peer connected
      && Dialing(h) in s.tasks && h in s.handlers && IsConnected(s, h)
      && s' == Add(Take(s, Dialing(h)), StopTask(h))
    case DialFail(h) => Dialing(h) in s.tasks && s' == Add(Take(s, Dialing(h)), Failing(h))
    case HandleFail(h, r) =>
      && Failing(h) in s.tasks && h in s.handlers && ValidDraw(s.handlers[h].nextDelay, r)
      && s' == Add(SetHandler(Take(s, Failing(h)), h, AfterDialFailed(s.handlers[h], r)), StopTask(h))
    case _ => false
  }

  ghost predicate ServiceStep(s: State, a: Step, s': State) {
    match a
    case StartService => // no effect once running, an error once stopped
      s' == if s.phase.Init? then s.(phase := Running, notifying := true, tasks := s.tasks + StartAll(s)) else s
    case StopNotify => s' == Add(s.(notifying := false), StopCall)
    case StopLocked =>
      && StopCall in s.tasks
      && s' == if s.phase.Stopped? then Take(s, StopCall) else Take(s, StopCall).(phase := Stopped, handlers := CancelAll(s))
    case AddPeer(p, h) => // an existing peer only gets new addresses
      if p in s.peers then s' == s
      else
        && h !in s.handlers
        && var added := SetHandler(s.(peers := s.peers[p := h]), h, Handler(p, s.phase.Stopped?, NoTimer, INITIAL_DELAY));
        s' == if s.phase.Running? then Add(added, StartTask(h)) else added
    case RemovePeer(p) =>
      if p !in s.peers then s' == s
      else
        && s.peers[p] in s.handlers
        && s' == SetHandler(s.(peers := s.peers - {p}), s.peers[p], AfterStop(s.handlers[s.peers[p]]))
    case _ => false
  }

  // ---- Invariants ----

  ghost predicate WellFormed(s: State) {
    && (forall p :: p in s.peers ==> HasHandler(s, p))
    && (forall h :: h in s.handlers ==> InRange(s.handlers[h].nextDelay))
    && (s.phase.Init? ==>
          && !s.notifying
          && (forall t :: t in s.tasks ==> t.StopCall?)
          && (forall h :: h in s.handlers ==> s.handlers[h].timer.NoTimer?))
  }

  predicate HasHandler(s: State, p: Peer) {
    p in s.peers && s.peers[p] in s.handlers && s.handlers[s.peers[p]].peer == p
  }

  // A disconnected peer has a timer, or its start is on the way.
  ghost predicate Watched(s: State, p: Peer)
    requires HasHandler(s, p)
  {
    p !in s.conn ==>
      !s.handlers[s.peers[p]].timer.NoTimer? || StartTask(s.peers[p]) in s.tasks || Disconnected(p) in s.tasks
  }

  // A connected peer has no timer, or the clearing of its timer is on the way.
  ghost predicate Cleared(s: State, p: Peer)
    requires HasHandler(s, p)
  {
    p in s.conn ==>
      s.handlers[s.peers[p]].timer.NoTimer? || StopTask(s.peers[p]) in s.tasks || Connected(p) in s.tasks
  }

  ghost predicate AllWatched(s: State)
    requires WellFormed(s)
  {
    s.phase.Running? && s.notifying ==> forall p :: p in s.peers ==> Watched(s, p) && Cleared(s, p)
  }

  // Handlers that left the map are cancelled, and all of them once stopped.
  ghost predicate Cancelled(s: State) {
    forall h :: h in s.handlers && (!Registered(s, h) || s.phase.Stopped?) ==> s.handlers[h].cancelled
  }

  // A live handler without a timer starts again from the initial delay.
  ghost predicate DelayReset(s: State) {
    forall h :: h in s.handlers ==> StartsAnew(s.handlers[h])
  }

  ghost predicate Inv(s: State) {
    WellFormed(s) && AllWatched(s) && Cancelled(s) && DelayReset(s)
  }

  lemma DelayInRange(s: State, h: Hid, r: Draw)
    requires WellFormed(s) && h in s.handlers && ValidDraw(s.handlers[h].nextDelay, r)
    ensures InRange(NextDelay(s.handlers[h].nextDelay, r))
  {
    NextDelayBounds(s.handlers[h].nextDelay, r);
  }

  lemma NetKeepsForm(s: State, a: Step, s': State)
    requires WellFormed(s) && NetStep(s, a, s')
    ensures WellFormed(s')
  {
    NetChangesNothingElse(s, a, s');
    NetEvents(s, a, s');
    NetTasks(s, a, s');
    hide InRange, NetStep;
  }

  lemma NetKeeps(s: State, a: Step, s': State)
    requires Inv(s) && NetStep(s, a, s')
    ensures Inv(s')
  {
    hide Registered, InRange, Watched, Cleared, NetStep;
    NetKeepsForm(s, a, s');
    NetChangesNothingElse(s, a, s');
    SameRegistered(s, s');
    if s.phase.Running? && s.notifying {
      forall p | p in s'.peers ensures Watched(s', p) && Cleared(s', p) {
        NetKeepsWatched(s, a, s', p);
      }
    }
  }

  lemma NetChangesNothingElse(s: State, a: Step, s': State)
    requires NetStep(s, a, s')
    ensures s'.handlers == s.handlers && s'.peers == s.peers && s'.phase == s.phase && s'.notifying == s.notifying
  {
  }

  // The tasks a network step takes, and those it leaves.
  function NetTakes(a: Step): multiset<Task> {
    if a.Deliver? then multiset{a.task} else multiset{}
  }

  function NetLeaves(s: State, a: Step): multiset<Task> {
    match a
    case Connect(p) => if s.notifying then multiset{Connected(p)} else multiset{}
    case Disconnect(p) => if s.notifying then multiset{Disconnected(p)} else multiset{}
    case Deliver(Connected(p)) => if p in s.peers then multiset{StopTask(s.peers[p])} else multiset{}
    case Deliver(Disconnected(p)) => if p in s.peers then multiset{StartTask(s.peers[p])} else multiset{}
    case _ => multiset{}
  }

  lemma NetTasks(s: State, a: Step, s': State)
    requires NetStep(s, a, s')
    ensures NetTakes(a) <= s.tasks && s'.tasks == s.tasks - NetTakes(a) + NetLeaves(s, a)
  {
    if a.Deliver? { DeliverTasks(s, a.task, s'); }
  }

  lemma DeliverTasks(s: State, task: Task, s': State)
    requires NetStep(s, Deliver(task), s')
    ensures multiset{task} <= s.tasks && s'.tasks == s.tasks - multiset{task} + NetLeaves(s, Deliver(task))
  {
  }

  lemma NetEvents(s: State, a: Step, s': State)
    requires NetStep(s, a, s')
    ensures a.Connect? || a.Disconnect? || (a.Deliver? && a.task in s.tasks && (a.task.Connected? || a.task.Disconnected?))
    ensures s'.conn == if a.Connect? then s.conn + {a.p} else if a.Disconnect? then s.conn - {a.p} else s.conn
  {
  }

  lemma NetTask(s: State, a: Step, s': State, t: Task)
    requires NetStep(s, a, s')
    ensures s'.tasks[t] + NetTakes(a)[t] == s.tasks[t] + NetLeaves(s, a)[t]
  {
    NetTasks(s, a, s');
    hide NetStep, NetTakes, NetLeaves;
  }

  lemma NetKeepsWatched(s: State, a: Step, s': State, p: Peer)
    requires HasHandler(s, p) && NetStep(s, a, s') && s.notifying && Watched(s, p) && Cleared(s, p)
    ensures HasHandler(s', p) && Watched(s', p) && Cleared(s', p)
  {
    NetChangesNothingElse(s, a, s');
    NetEvents(s, a, s');
    NetTask(s, a, s', StartTask(s.peers[p]));
    NetTask(s, a, s', StopTask(s.peers[p]));
    NetTask(s, a, s', Connected(p));
    NetTask(s, a, s', Disconnected(p));
    hide NetStep;
  }

  lemma SameRegistered(s: State, s': State)
    requires s'.handlers == s.handlers && s'.peers == s.peers
    ensures forall h :: Registered(s', h) == Registered(s, h)
  {
  }

  lemma HandlerKeepsForm(s: State, a: Step, s': State)
    requires WellFormed(s) && HandlerStep(s, a, s')
    ensures WellFormed(s')
  {
    hide AfterStop, ValidDraw, NextDelay;
    match a {
      case RunStart(h, r) => DelayInRange(s, h, r);
      case HandleFail(h, r) => DelayInRange(s, h, r);
      case _ =>
    }
  }

  // What matters about one handler: its record and its tasks.
  ghost predicate SameView(s: State, s': State, h: Hid) {
    && s'.conn == s.conn && s'.phase == s.phase && s'.notifying == s.notifying && s'.peers == s.peers
    && (h in s.handlers <==> h in s'.handlers) && (h in s.handlers ==> s'.handlers[h] == s.handlers[h])
    && s'.tasks[StartTask(h)] == s.tasks[StartTask(h)]
    && s'.tasks[Dialing(h)] == s.tasks[Dialing(h)] && s'.tasks[Failing(h)] == s.tasks[Failing(h)]
    && s'.tasks[StopTask(h)] == s.tasks[StopTask(h)]
    && forall p :: s'.tasks[Disconnected(p)] == s.tasks[Disconnected(p)] && s'.tasks[Connected(p)] == s.tasks[Connected(p)]
  }

  // The tasks a handler's step takes, and those it leaves.
  function Takes(a: Step): multiset<Task> {
    match a
    case RunStart(h, _) => multiset{StartTask(h)}
    case RunStop(h) => multiset{StopTask(h)}
    case DialOk(h) => multiset{Dialing(h)}
    case DialFail(h) => multiset{Dialing(h)}
    case HandleFail(h, _) => multiset{Failing(h)}
    case _ => multiset{}
  }

  function Leaves(a: Step): multiset<Task> {
    match a
    case Fire(h) => multiset{Dialing(h)}
    case DialOk(h) => multiset{StopTask(h)}
    case DialFail(h) => multiset{Failing(h)}
    case HandleFail(h, _) => multiset{StopTask(h)}
    case _ => multiset{}
  }

  lemma HandlerTasks(s: State, a: Step, s': State)
    requires HandlerStep(s, a, s')
    ensures Takes(a) <= s.tasks && s'.tasks == s.tasks - Takes(a) + Leaves(a)
    ensures a.RunStart? || a.RunStop? || a.Fire? || a.DialOk? || a.DialFail? || a.HandleFail?
  {
    hide AfterStart, AfterStopIfConnected, AfterDialFailed, ValidDraw;
  }

  lemma HandlerTask(s: State, a: Step, s': State, t: Task)
    requires HandlerStep(s, a, s')
    ensures s'.tasks[t] + Takes(a)[t] == s.tasks[t] + Leaves(a)[t]
  {
    HandlerTasks(s, a, s');
    hide HandlerStep, Takes, Leaves;
  }

  lemma OthersTasks(s: State, a: Step, s': State, h: Hid)
    requires HandlerStep(s, a, s') && a.h != h
    ensures s'.tasks[StartTask(h)] == s.tasks[StartTask(h)]
    ensures s'.tasks[Dialing(h)] == s.tasks[Dialing(h)]
    ensures s'.tasks[Failing(h)] == s.tasks[Failing(h)]
    ensures s'.tasks[StopTask(h)] == s.tasks[StopTask(h)]
  {
    HandlerTasks(s, a, s');
    hide HandlerStep;
    HandlerTask(s, a, s', StartTask(h));
    HandlerTask(s, a, s', Dialing(h));
    HandlerTask(s, a, s', Failing(h));
    HandlerTask(s, a, s', StopTask(h));
  }

  lemma OthersRecord(s: State, a: Step, s': State, h: Hid)
    requires HandlerStep(s, a, s') && a.h != h
    ensures s'.conn == s.conn && s'.phase == s.phase && s'.notifying == s.notifying && s'.peers == s.peers
    ensures (h in s.handlers <==> h in s'.handlers) && (h in s.handlers ==> s'.handlers[h] == s.handlers[h])
  {
    hide AfterStart, AfterStopIfConnected, AfterDialFailed, ValidDraw;
  }

  lemma OthersUntouched(s: State, a: Step, s': State, h: Hid)
    requires HandlerStep(s, a, s') && a.h != h
    ensures SameView(s, s', h)
  {
    hide HandlerStep;
    OthersRecord(s, a, s', h);
    OthersTasks(s, a, s', h);
    OwnTasks(s, a, s');
  }

  // A step's effect on the tasks of its own handler, as far as dials go.
  lemma OwnTasks(s: State, a: Step, s': State)
    requires HandlerStep(s, a, s')
    ensures forall p :: s'.tasks[Disconnected(p)] == s.tasks[Disconnected(p)] && s'.tasks[Connected(p)] == s.tasks[Connected(p)]
    ensures !a.RunStop? ==> s'.tasks[StopTask(a.h)] >= s.tasks[StopTask(a.h)]
    ensures !a.RunStart? ==> s'.tasks[StartTask(a.h)] == s.tasks[StartTask(a.h)]
    ensures a.RunStart? || a.RunStop? ==>
              s'.tasks[Dialing(a.h)] == s.tasks[Dialing(a.h)] && s'.tasks[Failing(a.h)] == s.tasks[Failing(a.h)]
    ensures a.Fire? ==> Dialing(a.h) in s'.tasks
    ensures a.DialFail? ==> Failing(a.h) in s'.tasks
  {
    HandlerTasks(s, a, s');
    hide HandlerStep;
    HandlerTask(s, a, s', StartTask(a.h));
    HandlerTask(s, a, s', Dialing(a.h));
    HandlerTask(s, a, s', Failing(a.h));
    HandlerTask(s, a, s', StopTask(a.h));
    forall p ensures s'.tasks[Disconnected(p)] == s.tasks[Disconnected(p)] && s'.tasks[Connected(p)] == s.tasks[Connected(p)] {
      HandlerTask(s, a, s', Disconnected(p));
      HandlerTask(s, a, s', Connected(p));
    }
  }

  lemma OwnRecord(s: State, a: Step, s': State)
    requires HandlerStep(s, a, s')
    ensures s'.conn == s.conn && s'.phase == s.phase && s'.notifying == s.notifying && s'.peers == s.peers
    ensures a.h in s.handlers ==> a.h in s'.handlers && s'.handlers[a.h].peer == s.handlers[a.h].peer
                                  && s'.handlers[a.h].cancelled == s.handlers[a.h].cancelled
  {
    hide NextDelay, ValidDraw;
  }

  lemma HandlerKeepsWatched(s: State, a: Step, s': State, p: Peer)
    requires HasHandler(s, p) && HandlerStep(s, a, s') && Watched(s, p) && Cleared(s, p)
    ensures HasHandler(s', p) && Watched(s', p) && Cleared(s', p)
  {
    hide NextDelay, ValidDraw, InRange;
    if a.h != s.peers[p] { OthersUntouched(s, a, s', s.peers[p]); } else { OwnTasks(s, a, s'); OwnRecord(s, a, s'); }
  }

  lemma HandlerKeepsCancelled(s: State, a: Step, s': State)
    requires Cancelled(s) && HandlerStep(s, a, s')
    ensures Cancelled(s')
  {
    hide NextDelay, ValidDraw, InRange;
  }

  lemma HandlerKeepsDelayReset(s: State, a: Step, s': State)
    requires DelayReset(s) && HandlerStep(s, a, s')
    ensures DelayReset(s')
  {
    hide NextDelay, ValidDraw, InRange;
  }

  lemma HandlerKeeps(s: State, a: Step, s': State)
    requires Inv(s) && HandlerStep(s, a, s')
    ensures Inv(s')
  {
    hide Cancelled, DelayReset, Watched, Cleared, InRange;
    HandlerKeepsForm(s, a, s');
    HandlerKeepsCancelled(s, a, s');
    HandlerKeepsDelayReset(s, a, s');
    assert s'.phase == s.phase && s'.notifying == s.notifying && s'.peers == s.peers;
    if s.phase.Running? && s.notifying {
      forall p | p in s'.peers ensures Watched(s', p) && Cleared(s', p) {
        HandlerKeepsWatched(s, a, s', p);
      }
    }
  }

  lemma StartKeeps(s: State, s': State)
    requires Inv(s) && ServiceStep(s, StartService, s')
    ensures Inv(s')
  {
    hide InRange;
    forall p | p in s.peers ensures StartTask(s.peers[p]) in StartAll(s) {
    }
  }

  lemma StopKeeps(s: State, a: Step, s': State)
    requires Inv(s) && ServiceStep(s, a, s') && (a.StopNotify? || a.StopLocked?)
    ensures Inv(s')
  {
    hide InRange, StartAll;
  }

  lemma AddKeepsForm(s: State, p: Peer, h: Hid, s': State)
    requires WellFormed(s) && ServiceStep(s, AddPeer(p, h), s')
    ensures WellFormed(s') && s'.phase == s.phase && s'.notifying == s.notifying
  {
    hide StartAll, CancelAll;
  }

  lemma RemoveKeepsForm(s: State, p: Peer, s': State)
    requires WellFormed(s) && ServiceStep(s, RemovePeer(p), s')
    ensures WellFormed(s') && s'.phase == s.phase && s'.notifying == s.notifying
  {
    hide StartAll, CancelAll, InRange;
  }

  lemma RegistryKeepsRest(s: State, a: Step, s': State)
    requires WellFormed(s) && Cancelled(s) && DelayReset(s) && ServiceStep(s, a, s') && (a.AddPeer? || a.RemovePeer?)
    ensures Cancelled(s') && DelayReset(s')
  {
    hide StartAll, CancelAll, InRange;
  }

  lemma RegistryKeepsWatched(s: State, a: Step, s': State, p: Peer)
    requires WellFormed(s) && ServiceStep(s, a, s') && (a.AddPeer? || a.RemovePeer?) && s.phase.Running?
    requires WellFormed(s') && p in s'.peers && (p in s.peers ==> Watched(s, p) && Cleared(s, p))
    ensures Watched(s', p) && Cleared(s', p)
  {
    hide StartAll, CancelAll, InRange;
  }

  lemma RegistryKeeps(s: State, a: Step, s': State)
    requires Inv(s) && ServiceStep(s, a, s') && (a.AddPeer? || a.RemovePeer?)
    ensures Inv(s')
  {
    hide Cancelled, DelayReset, Watched, Cleared, ServiceStep;
    if a.AddPeer? { AddKeepsForm(s, a.p, a.h, s'); } else { RemoveKeepsForm(s, a.p, s'); }
    RegistryKeepsRest(s, a, s');
    if s.phase.Running? && s.notifying {
      forall p | p in s'.peers ensures Watched(s', p) && Cleared(s', p) {
        RegistryKeepsWatched(s, a, s', p);
      }
    }
  }

  lemma ServiceKeeps(s: State, a: Step, s': State)
    requires Inv(s) && ServiceStep(s, a, s')
    ensures Inv(s')
  {
    hide Inv;
    match a {
      case StartService => StartKeeps(s, s');
      case StopNotify => StopKeeps(s, a, s');
      case StopLocked => StopKeeps(s, a, s');
      case AddPeer(_, _) => RegistryKeeps(s, a, s');
      case RemovePeer(_) => RegistryKeeps(s, a, s');
    }
  }

  lemma NextKeeps(s: State, a: Step, s': State)
    requires Inv(s) && Next(s, a, s')
    ensures Inv(s')
  {
    hide NetStep, HandlerStep, ServiceStep, Inv;
    if NetStep(s, a, s') { NetKeeps(s, a, s'); }
    else if HandlerStep(s, a, s') { HandlerKeeps(s, a, s'); }
    else { ServiceKeeps(s, a, s'); }
  }

  // ---- Runs ----

  datatype Run = Run(states: seq<State>, steps: seq<Step>)

  // A piece of a run, from any state.
  ghost predicate IsPath(r: Run) {
    && |r.states| == |r.steps| + 1
    && forall i :: 0 <= i < |r.steps| ==> Next(r.states[i], r.steps[i], r.states[i + 1])
  }

  ghost predicate IsRun(r: Run) {
    IsPath(r) && InitState(r.states[0])
  }

  lemma {:induction false} RunInv(r: Run, i: nat)
    requires IsRun(r) && i < |r.states|
    ensures Inv(r.states[i])
    decreases i
  {
    hide Next;
    if i > 0 {
      RunInv(r, i - 1);
      NextKeeps(r.states[i - 1], r.steps[i - 1], r.states[i]);
    }
  }

  // In every run of a running service: once no notification and no clearing of
  // the timer is on the way, a connected peer's handler is as good as new.
  lemma ConnectedSettles(r: Run, i: nat, p: Peer)
    requires IsRun(r) && i < |r.states|
    requires var s := r.states[i]; s.phase.Running? && s.notifying && p in s.peers && p in s.conn
    ensures var s := r.states[i];
            && s.peers[p] in s.handlers && s.handlers[s.peers[p]].peer == p
            && (StopTask(s.peers[p]) !in s.tasks && Connected(p) !in s.tasks ==>
                  && s.handlers[s.peers[p]].timer.NoTimer?
                  && (!s.handlers[s.peers[p]].cancelled ==> s.handlers[s.peers[p]].nextDelay == INITIAL_DELAY))
  {
    hide Next;
    RunInv(r, i);
    var s := r.states[i];
    assert HasHandler(s, p) && Cleared(s, p);
  }

  // ---- Is a disconnected peer dialled again? ----

  // An attempt is scheduled, under way, or will be scheduled.
  ghost predicate Retrying(s: State, p: Peer)
    requires HasHandler(s, p)
  {
    var h := s.peers[p];
    p !in s.conn ==>
      || s.handlers[h].timer.Armed? || Dialing(h) in s.tasks || Failing(h) in s.tasks
      || (s.handlers[h].timer.NoTimer? && (StartTask(h) in s.tasks || Disconnected(p) in s.tasks))
  }

  ghost predicate AllRetrying(s: State)
    requires WellFormed(s)
  {
    s.phase.Running? && s.notifying ==> forall p :: p in s.peers ==> Retrying(s, p)
  }

  // The peer drops after its timer fired and the dial succeeded, before the
  // timer is cleared.
  predicate LostDrop(s: State, a: Step) {
    && a.Disconnect? && s.phase.Running? && s.notifying
    && HasHandler(s, a.p)
    && s.handlers[s.peers[a.p]].timer.Fired?
    && Dialing(s.peers[a.p]) !in s.tasks && Failing(s.peers[a.p]) !in s.tasks
  }

  lemma HandlerKeepsRetrying(s: State, a: Step, s': State, p: Peer)
    requires HasHandler(s, p) && HandlerStep(s, a, s') && Watched(s, p) && Retrying(s, p)
    ensures HasHandler(s', p) && Retrying(s', p)
  {
    hide NextDelay, ValidDraw, InRange;
    if a.h != s.peers[p] { OthersUntouched(s, a, s', s.peers[p]); } else { OwnTasks(s, a, s'); OwnRecord(s, a, s'); }
  }

  lemma NetKeepsRetrying(s: State, a: Step, s': State, p: Peer)
    requires HasHandler(s, p) && NetStep(s, a, s') && s.phase.Running? && s.notifying && Retrying(s, p)
    ensures HasHandler(s', p) && (Retrying(s', p) <==> !(LostDrop(s, a) && a.p == p))
  {
    hide InRange;
    if a.Deliver? {
      DeliveryKeepsTasks(s, a.task, s', s.peers[p], p);
    } else {
      assert forall t :: t != Connected(a.p) && t != Disconnected(a.p) ==> s'.tasks[t] == s.tasks[t];
    }
  }

  lemma DeliveryKeepsTasks(s: State, task: Task, s': State, h: Hid, p: Peer)
    requires NetStep(s, Deliver(task), s')
    ensures s'.tasks[Dialing(h)] == s.tasks[Dialing(h)] && s'.tasks[Failing(h)] == s.tasks[Failing(h)]
    ensures StartTask(h) in s.tasks ==> StartTask(h) in s'.tasks
    ensures Disconnected(p) in s.tasks && p in s.peers && s.peers[p] == h ==> Disconnected(p) in s'.tasks || StartTask(h) in s'.tasks
    ensures s'.conn == s.conn && s'.handlers == s.handlers && s'.peers == s.peers
  {
    NetChangesNothingElse(s, Deliver(task), s');
    NetEvents(s, Deliver(task), s');
    NetTask(s, Deliver(task), s', Dialing(h));
    NetTask(s, Deliver(task), s', Failing(h));
    NetTask(s, Deliver(task), s', StartTask(h));
    NetTask(s, Deliver(task), s', Disconnected(p));
    hide NetStep;
  }

  lemma ServiceKeepsRetrying(s: State, a: Step, s': State, p: Peer)
    requires WellFormed(s) && WellFormed(s') && ServiceStep(s, a, s') && p in s'.peers && s'.phase.Running? && s'.notifying
    requires HasHandler(s', p) && (p in s.peers && s.phase.Running? ==> Retrying(s, p))
    ensures Retrying(s', p)
  {
    hide CancelAll, InRange;
    if a.StartService? && s.phase.Init? {
      assert StartTask(s.peers[p]) in StartAll(s);
    }
  }

  // Exactly one kind of step makes the service forget a disconnected peer.
  lemma RetryingUnlessLost(s: State, a: Step, s': State)
    requires Inv(s) && AllRetrying(s) && Next(s, a, s')
    ensures WellFormed(s') && (AllRetrying(s') <==> !LostDrop(s, a))
  {
    hide NetStep, HandlerStep, ServiceStep, Retrying, Watched, Cleared, Cancelled, DelayReset;
    NextKeeps(s, a, s');
    if NetStep(s, a, s') {
      NetChangesNothingElse(s, a, s');
      if s.phase.Running? && s.notifying {
        forall p | p in s.peers ensures HasHandler(s', p) && (Retrying(s', p) <==> !(LostDrop(s, a) && a.p == p)) {
          NetKeepsRetrying(s, a, s', p);
        }
      }
    } else if HandlerStep(s, a, s') {
      HandlerIsNoDisconnect(s, a, s');
      if s.phase.Running? && s.notifying {
        forall p | p in s.peers ensures HasHandler(s', p) && Retrying(s', p) {
          HandlerKeepsRetrying(s, a, s', p);
        }
      }
    } else {
      ServiceIsNoDisconnect(s, a, s');
      if s'.phase.Running? && s'.notifying {
        forall p | p in s'.peers ensures Retrying(s', p) {
          ServiceKeepsRetrying(s, a, s', p);
        }
      }
    }
  }

  lemma HandlerIsNoDisconnect(s: State, a: Step, s': State)
    requires HandlerStep(s, a, s')
    ensures !a.Disconnect? && s'.phase == s.phase && s'.notifying == s.notifying && s'.peers == s.peers
  {
  }

  lemma ServiceIsNoDisconnect(s: State, a: Step, s': State)
    requires ServiceStep(s, a, s')
    ensures !a.Disconnect? && (s'.phase.Running? && s'.notifying ==> s.phase.Init? || s.notifying)
  {
  }

  // Disconnected, with a fired timer and no attempt under way.
  ghost predicate Abandoned(s: State, p: Peer) {
    && HasHandler(s, p) && p !in s.conn
    && s.handlers[s.peers[p]].timer.Fired?
    && Dialing(s.peers[p]) !in s.tasks && Failing(s.peers[p]) !in s.tasks
  }

  lemma LostDropAbandons(s: State, a: Step, s': State)
    requires Next(s, a, s') && LostDrop(s, a)
    ensures Abandoned(s', a.p)
  {
  }

  // Nothing the service does by itself ever dials an abandoned peer again.
  lemma AbandonedStays(s: State, a: Step, s': State, p: Peer)
    requires WellFormed(s) && Abandoned(s, p) && Next(s, a, s')
    requires a != Connect(p) && a != RemovePeer(p) && !a.StopLocked?
    ensures Abandoned(s', p)
  {
    hide NetStep, HandlerStep, ServiceStep, Abandoned, WellFormed;
    if NetStep(s, a, s') { AbandonedStaysNet(s, a, s', p); }
    else if HandlerStep(s, a, s') { AbandonedStaysHandler(s, a, s', p); }
    else { AbandonedStaysService(s, a, s', p); }
  }

  lemma AbandonedStaysNet(s: State, a: Step, s': State, p: Peer)
    requires Abandoned(s, p) && NetStep(s, a, s') && a != Connect(p)
    ensures Abandoned(s', p)
  {
  }

  lemma AbandonedStaysHandler(s: State, a: Step, s': State, p: Peer)
    requires Abandoned(s, p) && HandlerStep(s, a, s')
    ensures Abandoned(s', p)
  {
    hide NextDelay, ValidDraw, InRange;
    if a.h != s.peers[p] { OthersUntouched(s, a, s', s.peers[p]); } else { OwnTasks(s, a, s'); OwnRecord(s, a, s'); }
  }

  lemma AbandonedStaysService(s: State, a: Step, s': State, p: Peer)
    requires WellFormed(s) && Abandoned(s, p) && ServiceStep(s, a, s')
    requires a != RemovePeer(p) && !a.StopLocked?
    ensures Abandoned(s', p)
  {
    hide InRange, CancelAll;
    if a.StartService? { StartsOnly(s, s.peers[p]); }
  }

  lemma StartsOnly(s: State, h: Hid)
    ensures Dialing(h) !in StartAll(s) && Failing(h) !in StartAll(s)
  {
  }

  // After a lost drop the handler dials no more, for as long as the peer does
  // not come back by itself, is not removed and the service is not stopped.
  lemma {:induction false} LostDropIsPermanent(r: Run, i: nat, k: nat)
    requires IsRun(r) && i < k < |r.states| && LostDrop(r.states[i], r.steps[i])
    requires forall j :: i < j < k ==>
               r.steps[j] != Connect(r.steps[i].p) && r.steps[j] != RemovePeer(r.steps[i].p) && !r.steps[j].StopLocked?
    ensures Abandoned(r.states[k], r.steps[i].p)
    ensures var s := r.states[k]; Dialing(s.peers[r.steps[i].p]) !in s.tasks
    decreases k
  {
    hide Next, WellFormed, HasHandler;
    if k == i + 1 {
      LostDropAbandons(r.states[i], r.steps[i], r.states[k]);
    } else {
      LostDropIsPermanent(r, i, k - 1);
      RunInv(r, k - 1);
      AbandonedStays(r.states[k - 1], r.steps[k - 1], r.states[k], r.steps[i].p);
    }
  }

  // A run that never loses a drop keeps retrying every disconnected peer.
  lemma {:induction false} RetryingInRuns(r: Run, i: nat)
    requires IsRun(r) && i < |r.states|
    requires forall k :: 0 <= k < i ==> !LostDrop(r.states[k], r.steps[k])
    ensures WellFormed(r.states[i]) && AllRetrying(r.states[i])
    decreases i
  {
    hide Next, LostDrop, Retrying;
    RunInv(r, i);
    if i > 0 {
      RetryingInRuns(r, i - 1);
      RunInv(r, i - 1);
      RetryingUnlessLost(r.states[i - 1], r.steps[i - 1], r.states[i]);
    }
  }

  // The first two steps of the runs below: a peer is added and the service started.
  lemma StartedRun() returns (r: Run)
    ensures IsRun(r) && |r.steps| == 2
    ensures r.states[2] == State({}, Running, true, map[0 := 0], map[0 := Handler(0, false, NoTimer, INITIAL_DELAY)],
                                 multiset{StartTask(0)})
  {
    var s0 := State({}, Init, false, map[], map[], multiset{});
    var s1 := SetHandler(s0.(peers := map[0 := 0]), 0, Handler(0, false, NoTimer, INITIAL_DELAY));
    var s2 := s1.(phase := Running, notifying := true, tasks := multiset{StartTask(0)});
    assert StartAll(s1) == multiset{StartTask(0)} by {
      var starts := set p | p in s1.peers :: StartTask(s1.peers[p]);
      assert 0 in s1.peers && StartTask(s1.peers[0]) in starts;
      assert starts == {StartTask(0)};
    }
    assert ServiceStep(s0, AddPeer(0, 0), s1);
    assert s2.tasks == s1.tasks + StartAll(s1);
    assert ServiceStep(s1, StartService, s2);
    r := Run([s0, s1, s2], [AddPeer(0, 0), StartService]);
  }

  lemma Extend(r: Run, a: Step, s': State) returns (more: Run)
    requires IsPath(r) && Next(r.states[|r.steps|], a, s')
    ensures IsPath(more) && |more.steps| == |r.steps| + 1 && more.states[|more.steps|] == s'
    ensures more.states[0] == r.states[0] && more.steps == r.steps + [a]
  {
    hide Next;
    more := Run(r.states + [s'], r.steps + [a]);
    forall i | 0 <= i < |more.steps| ensures Next(more.states[i], more.steps[i], more.states[i + 1]) {
      if i < |r.steps| { assert Next(r.states[i], r.steps[i], r.states[i + 1]); }
    }
  }

  const FIRST_DRAW := Draw(0, 0)

  function Away(timer: Timer): Handler {
    Handler(0, false, timer, NextDelay(INITIAL_DELAY, FIRST_DRAW))
  }

  // The started service finds its peer away, and the timer fires.
  lemma DiallingRun() returns (r: Run)
    ensures IsRun(r)
    ensures r.states[|r.steps|] == State({}, Running, true, map[0 := 0], map[0 := Away(Fired)], multiset{Dialing(0)})
  {
    r := StartedRun();
    var s2 := r.states[2];
    assert ValidDraw(INITIAL_DELAY, FIRST_DRAW);
    var s3 := s2.(handlers := map[0 := Away(Armed)], tasks := multiset{});
    assert s3 == SetHandler(Take(s2, StartTask(0)), 0, AfterStart(s2.handlers[0], false, FIRST_DRAW));
    assert HandlerStep(s2, RunStart(0, FIRST_DRAW), s3);
    r := Extend(r, RunStart(0, FIRST_DRAW), s3);
    var s4 := s3.(handlers := map[0 := Away(Fired)], tasks := multiset{Dialing(0)});
    assert s4 == Add(SetHandler(s3, 0, Away(Fired)), Dialing(0));
    assert HandlerStep(s3, Fire(0), s4);
    r := Extend(r, Fire(0), s4);
  }

  // A lost drop does happen: the dial succeeds, the peer goes away again before
  // the timer is cleared, and from then on nobody dials it.
  lemma LostDropHappens() returns (r: Run)
    ensures IsRun(r) && Abandoned(r.states[|r.steps|], 0)
  {
    hide NextDelay;
    r := DiallingRun();
    var s4 := r.states[|r.steps|];
    var s5 := s4.(conn := {0}, tasks := multiset{Dialing(0), Connected(0)});
    assert NetStep(s4, Connect(0), s5);
    r := Extend(r, Connect(0), s5);
    var s6 := s5.(tasks := multiset{Connected(0), StopTask(0)});
    assert s6 == Add(Take(s5, Dialing(0)), StopTask(0));
    assert HandlerStep(s5, DialOk(0), s6);
    r := Extend(r, DialOk(0), s6);
    var s7 := Notify(s6.(conn := {}), Disconnected(0));
    assert s6.conn - {0} == {};
    assert NetStep(s6, Disconnect(0), s7);
    r := Extend(r, Disconnect(0), s7);
  }

  // ---- Does stopping a handler stop it for good? ----

  // Cancelled, without a timer, and nothing left that would start one.
  ghost predicate Quiet(s: State, h: Hid) {
    && h in s.handlers && s.handlers[h].cancelled && s.handlers[h].timer.NoTimer?
    && StartTask(h) !in s.tasks && forall p :: p in s.peers ==> s.peers[p] != h
  }

  lemma QuietStays(s: State, a: Step, s': State, h: Hid)
    requires Quiet(s, h) && Next(s, a, s')
    ensures Quiet(s', h)
  {
    hide NetStep, HandlerStep, ServiceStep, Quiet;
    if NetStep(s, a, s') { QuietStaysNet(s, a, s', h); }
    else if HandlerStep(s, a, s') { QuietStaysHandler(s, a, s', h); }
    else { QuietStaysService(s, a, s', h); }
  }

  lemma QuietStaysNet(s: State, a: Step, s': State, h: Hid)
    requires Quiet(s, h) && NetStep(s, a, s')
    ensures Quiet(s', h)
  {
  }

  lemma QuietStaysHandler(s: State, a: Step, s': State, h: Hid)
    requires Quiet(s, h) && HandlerStep(s, a, s')
    ensures Quiet(s', h)
  {
    hide NextDelay, ValidDraw, InRange;
    if a.h != h { OthersUntouched(s, a, s', h); } else { OwnTasks(s, a, s'); OwnRecord(s, a, s'); }
  }

  lemma QuietStaysService(s: State, a: Step, s': State, h: Hid)
    requires Quiet(s, h) && ServiceStep(s, a, s')
    ensures Quiet(s', h)
  {
    if a.StartService? {
      assert StartTask(h) !in StartAll(s);
    }
  }

  // Some continuation arms the handler's timer.
  ghost predicate CanArm(s: State, h: Hid) {
    exists r :: IsPath(r) && r.states[0] == s && ArmedIn(r.states[|r.steps|], h)
  }

  predicate ArmedIn(s: State, h: Hid) {
    h in s.handlers && s.handlers[h].timer.Armed?
  }

  lemma {:induction false} QuietPath(r: Run, h: Hid, k: nat)
    requires IsPath(r) && Quiet(r.states[0], h) && k < |r.states|
    ensures Quiet(r.states[k], h)
    decreases k
  {
    hide Next, Quiet;
    if k > 0 {
      QuietPath(r, h, k - 1);
      QuietStays(r.states[k - 1], r.steps[k - 1], r.states[k], h);
    }
  }

  // A pending start arms the timer of a stopped handler: at once if the peer is
  // away, after it goes away otherwise.
  lemma PendingStartArms(r0: Run, h: Hid) returns (r: Run)
    requires IsPath(r0)
    requires var s := r0.states[|r0.steps|];
             h in s.handlers && s.handlers[h].timer.NoTimer? && StartTask(h) in s.tasks && InRange(s.handlers[h].nextDelay)
    ensures IsPath(r) && r.states[0] == r0.states[0] && ArmedIn(r.states[|r.steps|], h)
  {
    hide NextDelay;
    r := r0;
    var s := r.states[|r.steps|];
    var p := s.handlers[h].peer;
    if p in s.conn {
      var away := Notify(s.(conn := s.conn - {p}), Disconnected(p));
      assert NetStep(s, Disconnect(p), away);
      r := Extend(r, Disconnect(p), away);
      s := away;
    }
    assert ValidDraw(s.handlers[h].nextDelay, FIRST_DRAW);
    var armed := SetHandler(Take(s, StartTask(h)), h, AfterStart(s.handlers[h], false, FIRST_DRAW));
    assert HandlerStep(s, RunStart(h, FIRST_DRAW), armed);
    r := Extend(r, RunStart(h, FIRST_DRAW), armed);
  }

  lemma Empty(s: State) returns (r: Run)
    ensures IsPath(r) && r.states == [s] && r.steps == []
  {
    r := Run([s], []);
  }

  // Removing a peer stops its handler for good exactly when no start for it is
  // pending at that moment.
  lemma RemovalIsPermanentIff(s: State, p: Peer, s': State)
    requires WellFormed(s) && p in s.peers && ServiceStep(s, RemovePeer(p), s')
    ensures CanArm(s', s.peers[p]) <==> StartTask(s.peers[p]) in s.tasks
  {
    var h := s.peers[p];
    assert HasHandler(s, p);
    if StartTask(h) in s.tasks {
      var r := Empty(s');
      r := PendingStartArms(r, h);
    } else {
      RemovedIsQuiet(s, p, s');
      forall r | IsPath(r) && r.states[0] == s' ensures !ArmedIn(r.states[|r.steps|], h) {
        QuietPath(r, h, |r.steps|);
      }
    }
  }

  lemma RemovedIsQuiet(s: State, p: Peer, s': State)
    requires WellFormed(s) && p in s.peers && ServiceStep(s, RemovePeer(p), s') && StartTask(s.peers[p]) !in s.tasks
    ensures Quiet(s', s.peers[p])
  {
    hide CancelAll, StartAll;
    assert HasHandler(s, p);
    forall q | q in s'.peers ensures s'.peers[q] != s.peers[p] {
      assert HasHandler(s, q);
    }
  }

  // The service is stopped for this handler: it has no timer, and nothing is
  // left, or can still arrive, that would start one.
  ghost predicate StoppedQuiet(s: State, h: Hid) {
    && s.phase.Stopped? && !s.notifying
    && h in s.handlers && s.handlers[h].cancelled && s.handlers[h].timer.NoTimer?
    && StartTask(h) !in s.tasks && Disconnected(s.handlers[h].peer) !in s.tasks
  }

  lemma StoppedQuietStays(s: State, a: Step, s': State, h: Hid)
    requires WellFormed(s) && StoppedQuiet(s, h) && Next(s, a, s')
    ensures StoppedQuiet(s', h)
  {
    hide NetStep, HandlerStep, ServiceStep, StoppedQuiet, WellFormed;
    if NetStep(s, a, s') { StoppedQuietNet(s, a, s', h); }
    else if HandlerStep(s, a, s') { StoppedQuietHandler(s, a, s', h); }
    else { StoppedQuietService(s, a, s', h); }
  }

  lemma StoppedQuietNet(s: State, a: Step, s': State, h: Hid)
    requires WellFormed(s) && StoppedQuiet(s, h) && NetStep(s, a, s')
    ensures StoppedQuiet(s', h)
  {
    hide InRange;
    if a.Deliver? && a.task.p in s.peers { assert HasHandler(s, a.task.p); }
  }

  lemma StoppedQuietHandler(s: State, a: Step, s': State, h: Hid)
    requires StoppedQuiet(s, h) && HandlerStep(s, a, s')
    ensures StoppedQuiet(s', h)
  {
    hide NextDelay, ValidDraw, InRange;
    OwnTasks(s, a, s');
    if a.h != h { OthersUntouched(s, a, s', h); } else { OwnRecord(s, a, s'); }
  }

  lemma StoppedQuietService(s: State, a: Step, s': State, h: Hid)
    requires StoppedQuiet(s, h) && ServiceStep(s, a, s')
    ensures StoppedQuiet(s', h)
  {
    hide StartAll, CancelAll;
  }

  lemma {:induction false} StoppedQuietPath(r: Run, h: Hid, k: nat)
    requires IsPath(r) && Inv(r.states[0]) && StoppedQuiet(r.states[0], h) && k < |r.states|
    ensures Inv(r.states[k]) && StoppedQuiet(r.states[k], h)
    decreases k
  {
    hide Next, StoppedQuiet, Cancelled, AllWatched, DelayReset;
    if k > 0 {
      StoppedQuietPath(r, h, k - 1);
      NextKeeps(r.states[k - 1], r.steps[k - 1], r.states[k]);
      StoppedQuietStays(r.states[k - 1], r.steps[k - 1], r.states[k], h);
    }
  }

  // What can still re-arm a handler that is registered while the service stops.
  predicate StopLeavesCause(s: State, h: Hid)
    requires h in s.handlers
  {
    StartTask(h) in s.tasks || Disconnected(s.handlers[h].peer) in s.tasks || s.notifying
  }

  // A Disconnected notification for a registered handler spawns a start.
  lemma PendingDropArms(r0: Run, h: Hid) returns (r: Run)
    requires IsPath(r0)
    requires var s := r0.states[|r0.steps|];
             && h in s.handlers && s.handlers[h].timer.NoTimer? && InRange(s.handlers[h].nextDelay) && Registered(s, h)
             && Disconnected(s.handlers[h].peer) in s.tasks
    ensures IsPath(r) && r.states[0] == r0.states[0] && ArmedIn(r.states[|r.steps|], h)
  {
    var s := r0.states[|r0.steps|];
    var task := Disconnected(s.handlers[h].peer);
    var s1 := Add(Take(s, task), StartTask(h));
    assert NetStep(s, Deliver(task), s1);
    r := Extend(r0, Deliver(task), s1);
    r := PendingStartArms(r, h);
  }

  // A notifee that is still registered hears of the next drop.
  lemma NotifiedDropArms(s: State, h: Hid) returns (r: Run)
    requires h in s.handlers && s.handlers[h].timer.NoTimer? && InRange(s.handlers[h].nextDelay)
    requires Registered(s, h) && s.notifying
    ensures IsPath(r) && r.states[0] == s && ArmedIn(r.states[|r.steps|], h)
  {
    var p := s.handlers[h].peer;
    r := Empty(s);
    var s1 := s;
    if p !in s.conn {
      s1 := Add(s.(conn := s.conn + {p}), Connected(p));
      assert NetStep(s, Connect(p), s1);
      r := Extend(r, Connect(p), s1);
    }
    var s2 := Add(s1.(conn := s1.conn - {p}), Disconnected(p));
    assert NetStep(s1, Disconnect(p), s2);
    r := Extend(r, Disconnect(p), s2);
    r := PendingDropArms(r, h);
  }

  // Stopping the service stops a handler for good exactly when, at that
  // moment, no start for it and no drop of its peer is pending and the notifee
  // is not registered (again).
  lemma StopIsPermanentIff(s: State, s': State, h: Hid)
    requires Inv(s) && !s.phase.Stopped? && ServiceStep(s, StopLocked, s') && Registered(s, h)
    ensures CanArm(s', h) <==> StopLeavesCause(s, h)
  {
    hide NextDelay, Cancelled, AllWatched, DelayReset, StartAll;
    StoppedHandler(s, s', h);
    if StopLeavesCause(s, h) {
      var r := Empty(s');
      if StartTask(h) in s.tasks {
        r := PendingStartArms(r, h);
      } else if Disconnected(s.handlers[h].peer) in s.tasks {
        r := PendingDropArms(r, h);
      } else {
        r := NotifiedDropArms(s', h);
      }
    } else {
      NextKeeps(s, StopLocked, s');
      forall r | IsPath(r) && r.states[0] == s' ensures !ArmedIn(r.states[|r.steps|], h) {
        StoppedQuietPath(r, h, |r.steps|);
      }
    }
  }

  lemma StoppedHandler(s: State, s': State, h: Hid)
    requires WellFormed(s) && !s.phase.Stopped? && ServiceStep(s, StopLocked, s') && Registered(s, h)
    ensures Registered(s', h) && s'.handlers[h] == AfterStop(s.handlers[h]) && InRange(s'.handlers[h].nextDelay)
    ensures s'.phase.Stopped? && s'.notifying == s.notifying
    ensures forall t :: t in s'.tasks && !t.StopCall? <==> t in s.tasks && !t.StopCall?
  {
  }

  // Stopping the service does not keep its handlers stopped: a start that was
  // already spawned arms the timer of a cancelled handler.
  lemma StoppedHandlerRearms() returns (r: Run)
    ensures IsRun(r)
    ensures var s := r.states[|r.steps|];
            s.phase.Stopped? && 0 in s.handlers && s.handlers[0].cancelled && s.handlers[0].timer.Armed?
  {
    r := StartedRun();
    var s2 := r.states[2];
    var s3 := s2.(notifying := false, tasks := multiset{StartTask(0), StopCall});
    assert ServiceStep(s2, StopNotify, s3);
    r := Extend(r, StopNotify, s3);
    var h := Handler(0, true, NoTimer, INITIAL_DELAY);
    var s4 := s3.(phase := Stopped, handlers := map[0 := h], tasks := multiset{StartTask(0)});
    assert CancelAll(s3) == map[0 := h] by { assert Registered(s3, 0); }
    assert s4 == Take(s3, StopCall).(phase := Stopped, handlers := CancelAll(s3));
    assert ServiceStep(s3, StopLocked, s4);
    r := Extend(r, StopLocked, s4);
    var d := Draw(0, 0);
    assert ValidDraw(INITIAL_DELAY, d);
    var s5 := SetHandler(Take(s4, StartTask(0)), 0, AfterStart(h, false, d));
    assert HandlerStep(s4, RunStart(0, d), s5);
    r := Extend(r, RunStart(0, d), s5);
  }

  const LIVE := Handler(0, false, NoTimer, INITIAL_DELAY)

  // Stop has unregistered the notifee, then Start takes the lock first.
  lemma StartDuringStop() returns (r: Run)
    ensures IsRun(r)
    ensures r.states[|r.steps|] == State({0}, Running, true, map[0 := 0], map[0 := LIVE], multiset{StopCall, StartTask(0)})
  {
    var s0 := State({}, Init, false, map[], map[], multiset{});
    var s1 := State({0}, Init, false, map[], map[], multiset{});
    var s2 := State({0}, Init, false, map[0 := 0], map[0 := LIVE], multiset{});
    var s3 := State({0}, Init, false, map[0 := 0], map[0 := LIVE], multiset{StopCall});
    r := Empty(s0);
    assert NetStep(s0, Connect(0), s1);
    r := Extend(r, Connect(0), s1);
    assert ServiceStep(s1, AddPeer(0, 0), s2);
    r := Extend(r, AddPeer(0, 0), s2);
    assert s3 == Add(s2.(notifying := false), StopCall);
    assert ServiceStep(s2, StopNotify, s3);
    r := Extend(r, StopNotify, s3);
    assert StartAll(s3) == multiset{StartTask(0)} by {
      var starts := set p | p in s3.peers :: StartTask(s3.peers[p]);
      assert 0 in s3.peers && StartTask(s3.peers[0]) in starts;
      assert starts == {StartTask(0)};
    }
    var s4 := s3.(phase := Running, notifying := true, tasks := s3.tasks + StartAll(s3));
    assert ServiceStep(s3, StartService, s4);
    r := Extend(r, StartService, s4);
  }

  // The start it spawned finds the peer connected.
  lemma StartWhileConnected() returns (r: Run)
    ensures IsRun(r)
    ensures r.states[|r.steps|] == State({0}, Running, true, map[0 := 0], map[0 := LIVE], multiset{StopCall})
  {
    hide NextDelay, StartAll;
    r := StartDuringStop();
    var s4 := r.states[|r.steps|];
    var s5 := s4.(tasks := multiset{StopCall});
    assert ValidDraw(INITIAL_DELAY, FIRST_DRAW);
    assert s5 == SetHandler(Take(s4, StartTask(0)), 0, AfterStart(LIVE, true, FIRST_DRAW));
    assert HandlerStep(s4, RunStart(0, FIRST_DRAW), s5);
    r := Extend(r, RunStart(0, FIRST_DRAW), s5);
  }

  // So the notifee can be registered after the service stopped, with no task
  // pending at all.
  lemma StoppedStillNotified() returns (r: Run)
    ensures IsRun(r)
    ensures r.states[|r.steps|] == State({0}, Stopped, true, map[0 := 0], map[0 := LIVE.(cancelled := true)], multiset{})
  {
    hide StartAll;
    r := StartWhileConnected();
    var s5 := r.states[|r.steps|];
    var s6 := State({0}, Stopped, true, map[0 := 0], map[0 := LIVE.(cancelled := true)], multiset{});
    assert CancelAll(s5) == s6.handlers by { assert Registered(s5, 0); }
    assert s6 == Take(s5, StopCall).(phase := Stopped, handlers := CancelAll(s5));
    assert ServiceStep(s5, StopLocked, s6);
    r := Extend(r, StopLocked, s6);
  }
}
