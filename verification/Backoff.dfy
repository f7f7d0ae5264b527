/** One peer's handler: its reconnect timer and its back-off delay. Durations
    are int64 nanoseconds. */
module Backoff {

  const SECOND := 1_000_000_000
  const INITIAL_DELAY := 5 * SECOND
  const MAX_BACKOFF := 600 * SECOND
  const JITTER_PERCENT := 10
  const INT64_MAX := 0x7fff_ffff_ffff_ffff

  // A fired timer is not nil any more, but will not fire again by itself.
  datatype Timer = NoTimer | Armed | Fired

  datatype Handler = Handler(peer: nat, cancelled: bool, timer: Timer, nextDelay: int)

  // The random draws of one call: below the delay, and below the jitter.
  datatype Draw = Draw(growth: int, cut: int)

  const JITTER := MAX_BACKOFF * JITTER_PERCENT / 100

  predicate ValidDraw(delay: int, r: Draw) {
    0 <= r.growth < delay && 0 <= r.cut < JITTER
  }

  function NextDelay(delay: int, r: Draw): int {
    var grown := if delay < MAX_BACKOFF then delay + (delay / 2 + r.growth) else delay;
    if grown > MAX_BACKOFF then MAX_BACKOFF - r.cut else grown
  }

  predicate InRange(delay: int) {
    INITIAL_DELAY <= delay <= MAX_BACKOFF
  }

  // Within ten per cent below the maximum.
  predicate InBand(delay: int) {
    MAX_BACKOFF - JITTER < delay <= MAX_BACKOFF
  }

  // One call: no overflow and no draw from an empty range; the delay grows by
  // at least half or enters the band, and never leaves it.
  lemma NextDelayBounds(delay: int, r: Draw)
    requires InRange(delay) && ValidDraw(delay, r)
    ensures InRange(NextDelay(delay, r))
    ensures delay + (delay / 2 + r.growth) <= INT64_MAX && MAX_BACKOFF * JITTER_PERCENT <= INT64_MAX && JITTER > 0 && delay > 0
    ensures InBand(NextDelay(delay, r)) || NextDelay(delay, r) >= delay + delay / 2
    ensures InBand(delay) ==> InBand(NextDelay(delay, r))
  {
  }

  // Exactly the delays the two draws can lead to: anything from one and a half
  // to two and a half times the delay that is not over the maximum, and
  // anything in the band if the growth can go over it. The maximum itself stays.
  lemma NextDelayRange(delay: int, next: int)
    requires InRange(delay)
    ensures (exists r :: ValidDraw(delay, r) && NextDelay(delay, r) == next) <==>
              if delay == MAX_BACKOFF then next == MAX_BACKOFF
              else
                || (delay + delay / 2 <= next < delay + delay / 2 + delay && next <= MAX_BACKOFF)
                || (MAX_BACKOFF - MAX_BACKOFF / 10 < next <= MAX_BACKOFF < delay + delay / 2 + delay - 1)
  {
    if delay == MAX_BACKOFF {
      assert ValidDraw(delay, Draw(0, 0));
    } else if delay + delay / 2 <= next < delay + delay / 2 + delay && next <= MAX_BACKOFF {
      var r := Draw(next - (delay + delay / 2), 0);
      assert ValidDraw(delay, r) && NextDelay(delay, r) == next;
    } else if MAX_BACKOFF - MAX_BACKOFF / 10 < next <= MAX_BACKOFF < delay + delay / 2 + delay - 1 {
      var r := Draw(delay - 1, MAX_BACKOFF - next);
      assert ValidDraw(delay, r) && NextDelay(delay, r) == next;
    }
  }

  // The delay after the first k of these draws.
  ghost function DelayAfter(draws: seq<Draw>, k: nat): int
    requires k <= |draws|
  {
    if k == 0 then INITIAL_DELAY else NextDelay(DelayAfter(draws, k - 1), draws[k - 1])
  }

  ghost predicate ValidDraws(draws: seq<Draw>) {
    forall k :: 0 <= k < |draws| ==> ValidDraw(DelayAfter(draws, k), draws[k])
  }

  // The slowest growth by halves.
  function Slowest(k: nat): int {
    if k == 0 then INITIAL_DELAY else Slowest(k - 1) + Slowest(k - 1) / 2
  }

  lemma {:induction false} GrowsToBand(draws: seq<Draw>, k: nat)
    requires ValidDraws(draws) && k <= |draws|
    ensures InRange(DelayAfter(draws, k))
    ensures InBand(DelayAfter(draws, k)) || DelayAfter(draws, k) >= Slowest(k)
    decreases k
  {
    hide NextDelay, ValidDraw;
    if k > 0 {
      var d := DelayAfter(draws, k - 1);
      GrowsToBand(draws, k - 1);
      assert ValidDraw(d, draws[k - 1]);
      NextDelayBounds(d, draws[k - 1]);
      if d >= Slowest(k - 1) { HalfMore(Slowest(k - 1), d); }
    }
  }

  lemma HalfMore(a: int, b: int)
    requires a <= b
    ensures a + a / 2 <= b + b / 2
  {
  }

  lemma TwelfthIsTooSlow()
    ensures Slowest(12) > MAX_BACKOFF
  {
    assert Slowest(3) == 16875000000;
    assert Slowest(6) == 56953125000;
    assert Slowest(9) == 192216796875;
    assert Slowest(12) == 648731689452;
  }

  // Whatever is drawn, from the 12th call on the delay is in the band.
  lemma {:induction false} InBandByTwelfth(draws: seq<Draw>, k: nat)
    requires ValidDraws(draws) && 12 <= k <= |draws|
    ensures InBand(DelayAfter(draws, k))
    decreases k
  {
    if k == 12 {
      GrowsToBand(draws, 12);
      TwelfthIsTooSlow();
    } else {
      InBandByTwelfth(draws, k - 1);
      GrowsToBand(draws, k - 1);
      assert ValidDraw(DelayAfter(draws, k - 1), draws[k - 1]);
      NextDelayBounds(DelayAfter(draws, k - 1), draws[k - 1]);
    }
  }

  // ---- What the handler's critical sections do ----

  // A live handler without a timer starts again from the initial delay.
  predicate StartsAnew(h: Handler) {
    !h.cancelled && h.timer.NoTimer? ==> h.nextDelay == INITIAL_DELAY
  }

  predicate HandlerInv(h: Handler) {
    InRange(h.nextDelay) && StartsAnew(h)
  }

  function AfterStart(h: Handler, connected: bool, r: Draw): Handler {
    if h.timer.NoTimer? && !connected then h.(timer := Armed, nextDelay := NextDelay(h.nextDelay, r)) else h
  }

  function AfterStopIfConnected(h: Handler, connected: bool): Handler {
    if !h.timer.NoTimer? && connected then h.(timer := NoTimer, nextDelay := INITIAL_DELAY) else h
  }

  function AfterDialFailed(h: Handler, r: Draw): Handler {
    if h.timer.NoTimer? then h else h.(timer := Armed, nextDelay := NextDelay(h.nextDelay, r))
  }

  function AfterStop(h: Handler): Handler {
    h.(cancelled := true, timer := NoTimer)
  }

  // stopIfConnected and startIfDisconnected are inverses on a live handler:
  // however often the dials failed in between, connecting undoes the start.
  lemma {:induction false} ConnectingUndoesStart(h: Handler, r: Draw, failures: seq<Draw>)
    requires HandlerInv(h) && !h.cancelled && h.timer.NoTimer?
    ensures AfterStopIfConnected(AfterFailures(AfterStart(h, false, r), failures), true) == h
    decreases |failures|
  {
    var started := AfterStart(h, false, r);
    FailuresKeepTimer(started, failures);
  }

  ghost function AfterFailures(h: Handler, failures: seq<Draw>): Handler {
    if failures == [] then h
    else AfterDialFailed(AfterFailures(h, failures[..|failures| - 1]), failures[|failures| - 1])
  }

  // A failed dial never loses the timer.
  lemma {:induction false} FailuresKeepTimer(h: Handler, failures: seq<Draw>)
    requires !h.timer.NoTimer?
    ensures !AfterFailures(h, failures).timer.NoTimer?
    ensures AfterFailures(h, failures).peer == h.peer && AfterFailures(h, failures).cancelled == h.cancelled
    decreases |failures|
  {
    if failures != [] { FailuresKeepTimer(h, failures[..|failures| - 1]); }
  }

  class PeerHandler {
    const peer: nat
    var cancelled: bool
    var reconnectTimer: Timer
    var nextDelay: int

    constructor (peer: nat)
      ensures Valid() && Value() == Handler(peer, false, NoTimer, INITIAL_DELAY)
    {
      this.peer, cancelled, reconnectTimer, nextDelay := peer, false, NoTimer, INITIAL_DELAY;
    }

    ghost function Value(): Handler
      reads this
    {
      Handler(peer, cancelled, reconnectTimer, nextDelay)
    }

    ghost predicate Valid()
      reads this
    {
      HandlerInv(Value())
    }

    method NextBackoff(r: Draw) returns (d: int)
      requires InRange(nextDelay) && ValidDraw(nextDelay, r)
      modifies this`nextDelay
      ensures d == nextDelay == NextDelay(old(nextDelay), r)
      ensures InRange(d) && (InBand(d) || d >= old(nextDelay) + old(nextDelay) / 2)
      ensures d < old(nextDelay) + old(nextDelay) / 2 + old(nextDelay) || InBand(d)
    {
      if nextDelay < MAX_BACKOFF {
        nextDelay := nextDelay + (nextDelay / 2 + r.growth);
      }
      if nextDelay > MAX_BACKOFF {
        nextDelay := MAX_BACKOFF;
        nextDelay := nextDelay - r.cut;
      }
      d := nextDelay;
    }

    // Whatever was scheduled is not any more, and the handler stays valid.
    method Stop()
      requires Valid()
      modifies this
      ensures Valid() && cancelled && reconnectTimer.NoTimer? && nextDelay == old(nextDelay)
      ensures Value() == AfterStop(old(Value())) == AfterStop(Value())
    {
      cancelled := true;
      if !reconnectTimer.NoTimer? { reconnectTimer := NoTimer; }
    }

    // A connected peer is left without a timer; the delay is reset exactly
    // when a timer is cleared, and nothing happens to a disconnected peer.
    method StopIfConnected(connected: bool)
      requires Valid()
      modifies this
      ensures Valid() && (connected ==> reconnectTimer.NoTimer?)
      ensures reconnectTimer != old(reconnectTimer) ==> connected && nextDelay == INITIAL_DELAY
      ensures reconnectTimer == old(reconnectTimer) ==> nextDelay == old(nextDelay)
      ensures connected && !cancelled ==> nextDelay == INITIAL_DELAY
      ensures Value() == AfterStopIfConnected(old(Value()), connected)
    {
      if !reconnectTimer.NoTimer? && connected {
        reconnectTimer := NoTimer;
        nextDelay := INITIAL_DELAY;
      }
    }

    // Afterwards the peer is connected or an attempt is scheduled; a live
    // handler always starts with a short delay, and a timer that was there is
    // left alone.
    method StartIfDisconnected(connected: bool, r: Draw)
      requires Valid()
      requires reconnectTimer.NoTimer? && !connected ==> ValidDraw(nextDelay, r)
      modifies this
      ensures Valid() && (connected || !reconnectTimer.NoTimer?)
      ensures connected || !old(reconnectTimer).NoTimer? ==> Value() == old(Value())
      ensures reconnectTimer != old(reconnectTimer) && !cancelled ==>
                INITIAL_DELAY + INITIAL_DELAY / 2 <= nextDelay < INITIAL_DELAY + INITIAL_DELAY / 2 + INITIAL_DELAY
      ensures Value() == AfterStart(old(Value()), connected, r)
    {
      if reconnectTimer.NoTimer? && !connected {
        var d := NextBackoff(r);
        reconnectTimer := Armed;
      }
    }

    // The part of reconnect that runs after a failed dial: no timer is ever
    // created or lost, and an existing one is set to a delay that is at least
    // half again as long or in the band.
    method DialFailed(r: Draw)
      requires Valid()
      requires !reconnectTimer.NoTimer? ==> ValidDraw(nextDelay, r)
      modifies this
      ensures Valid() && (reconnectTimer.NoTimer? <==> old(reconnectTimer).NoTimer?)
      ensures reconnectTimer.NoTimer? ==> Value() == old(Value())
      ensures !reconnectTimer.NoTimer? ==>
                reconnectTimer.Armed? && (InBand(nextDelay) || nextDelay >= old(nextDelay) + old(nextDelay) / 2)
      ensures Value() == AfterDialFailed(old(Value()), r)
    {
      if !reconnectTimer.NoTimer? {
        var d := NextBackoff(r);
        reconnectTimer := Armed;
      }
    }
  }
}
