/**
 How long a port takes to forward: no run is faster than twice the forward delay.
 */
module BridgeDelays {
  import opened BridgeTypes
  import opened BridgeSpec
  import opened BridgeInvariant
  import opened BridgeRuns
  import opened BridgeProgress
  import opened BridgeTicks

  /** The port has listened since then at the earliest, and learnt since one delay after it. */
  predicate Timely(p: Port, since: int, delay: int, now: int) {
    && since <= now
    && (p.state == Listening ==> p.forwardDelayTimer.start >= since)
    && (p.state == Learning ==> p.forwardDelayTimer.start >= since + delay)
    && (p.state == Forwarding ==> now >= since + 2 * delay)
  }

  /** Delays in use, and those the bridge would use as root, are no shorter. */
  predicate Slow(b: Bridge, delay: int) {
    b.forwardDelay >= delay && b.bridgeForwardDelay >= delay
  }

  lemma HeldTimely(b: Bridge, c: Bridge, i: nat, since: int, delay: int)
    requires Held(b, c) && b.stpEnabled && i < |b.ports| && Timely(b.ports[i], since, delay, b.now)
    ensures c.stpEnabled && |c.ports| == |b.ports| && Timely(c.ports[i], since, delay, c.now)
  {
    assert PortHeld(b.stpEnabled, b.now, b.ports[i], c.ports[i]);
  }

  lemma TunedSlow(b: Bridge, c: Bridge, delay: int)
    requires InTick(b, c) && Slow(b, delay)
    ensures Slow(c, delay)
  {
  }

  lemma DelayTimely(b: Bridge, j: nat, i: nat, since: int, delay: int)
    requires Inv(b) && i < |b.ports| && j < |b.ports| && b.ports[j].Enabled() && Slow(b, delay)
    requires Timely(b.ports[i], since, delay, b.now)
    ensures var c := CheckForwardDelay(b, j);
            c.stpEnabled == b.stpEnabled && |c.ports| == |b.ports| && Timely(c.ports[i], since, delay, c.now)
  {
    hide CheckForwardDelay;
    if j != i {
      OtherDelayRests(b, j, i);
    } else {
      assert PortOk(b, b.ports[i]);
      OwnDelayOrNone(b, i);
    }
  }

  lemma OwnDelayOrNone(b: Bridge, i: nat)
    requires i < |b.ports| && b.ports[i].Enabled() && DelayOk(b.ports[i])
    ensures var p, c := b.ports[i], CheckForwardDelay(b, i);
            && |c.ports| == |b.ports| && c.now == b.now && c.stpEnabled == b.stpEnabled
            && c.ports[i] == if p.forwardDelayTimer.Expired(b.forwardDelay, b.now) then Advanced(b, p) else p
  {
    hide ForwardDelayExpired;
    if b.ports[i].state == Listening || b.ports[i].state == Learning {
      OwnDelay(b, i);
    }
  }

  /** What a tick keeps, on the way from port to port. */
  ghost predicate Slowly(b: Bridge, i: nat, since: int, delay: int) {
    Inv(b) && b.stpEnabled && i < |b.ports| && Slow(b, delay) && Timely(b.ports[i], since, delay, b.now)
  }

  lemma PortTimersTimely(b: Bridge, j: nat, i: nat, since: int, delay: int)
    requires Slowly(b, i, since, delay) && j < |b.ports| && b.ports[j].Enabled()
    ensures Slowly(CheckPortTimers(b, j), i, since, delay)
  {
    hide CheckMessageAge, CheckForwardDelay, CheckHold, Inv, Held, InTick, Timely, Slow;
    var c := CheckMessageAge(b, j);
    CheckMessageAgeKeeps(b, j);
    CheckMessageAgeHeld(b, j);
    HeldTimely(b, c, i, since, delay);
    MessageAgeInTick(b, j);
    TunedSlow(b, c, delay);
    var d := CheckForwardDelay(c, j);
    CheckForwardDelayKeeps(c, j);
    DelayTimely(c, j, i, since, delay);
    ForwardDelayInTick(c, j);
    TunedSlow(c, d, delay);
    CheckHoldKeeps(d, j);
    CheckHoldHeld(d, j);
    HeldTimely(d, CheckHold(d, j), i, since, delay);
    HoldInTick(d, j);
    TunedSlow(d, CheckHold(d, j), delay);
  }

  lemma {:induction false} AllPortsTimely(b: Bridge, k: nat, i: nat, since: int, delay: int)
    requires Slowly(b, i, since, delay) && k <= |b.ports|
    ensures Slowly(CheckAllPorts(b, k), i, since, delay)
    decreases k
  {
    hide CheckPortTimers, Slowly;
    if k > 0 {
      var c := CheckAllPorts(b, k - 1);
      AllPortsTimely(b, k - 1, i, since, delay);
      if c.ports[k - 1].Enabled() {
        PortTimersTimely(c, k - 1, i, since, delay);
      }
    }
  }

  lemma OwnTimersSlow(b: Bridge, delay: int)
    requires Slow(b, delay)
    ensures Slow(CheckTopologyChange(CheckTcn(CheckHello(b))), delay)
  {
    hide CheckHello, CheckTcn;
    HelloNow(b);
    TcnWinds(CheckHello(b));
    ChangeWinds(CheckTcn(CheckHello(b)));
  }

  lemma TickTimely(b: Bridge, i: nat, since: int, delay: int)
    requires Slowly(b, i, since, delay)
    ensures var c := CheckTimers(b); c.stpEnabled && i < |c.ports| && Timely(c.ports[i], since, delay, c.now)
  {
    hide CheckHello, CheckTcn, CheckTopologyChange, CheckAllPorts, Inv, Held, Timely, Slow;
    var d := CheckTopologyChange(CheckTcn(CheckHello(b)));
    CheckBridgeTimersKeeps(b);
    CheckBridgeTimersHeld(b);
    HeldTimely(b, d, i, since, delay);
    OwnTimersSlow(b, delay);
    AllPortsTimely(d, |d.ports|, i, since, delay);
  }

  lemma StepTimely(b: Bridge, e: Input, i: nat, since: int, delay: int)
    requires Slowly(b, i, since, delay) && Allowed(b, e)
    ensures var c := Step(b, e); c.stpEnabled && i < |c.ports| && Timely(c.ports[i], since, delay, c.now)
  {
    hide Step, Allowed, Timely, Slow, Inv, Held;
    if e.Tick? {
      assert Step(b, e) == CheckTimers(b) by { TickIs(b); }
      TickTimely(b, i, since, delay);
    } else {
      StepHeld(b, e);
      HeldTimely(b, Step(b, e), i, since, delay);
    }
  }

  lemma TickIs(b: Bridge)
    ensures Allowed(b, Tick) && Step(b, Tick) == CheckTimers(b)
  {
    hide CheckTimers;
  }

  // ----- runs -------------------------------------------------------------------------------

  /** In every state of the run the delays are at least this long. */
  ghost predicate AlwaysSlow(b: Bridge, run: seq<(int, Input)>, delay: int)
    decreases |run|
  {
    && Slow(b, delay)
    && (run != [] ==>
          var (now, e) := run[0];
          var a := b.(now := now);
          Allowed(a, e) ==> AlwaysSlow(Step(a, e), run[1..], delay))
  }

  lemma {:induction false} RunTimely(b: Bridge, run: seq<(int, Input)>, c: Bridge, i: nat, since: int, delay: int)
    requires Inv(b) && Reaches(b, run, c) && AlwaysSlow(b, run, delay)
    requires b.stpEnabled && i < |b.ports| && Timely(b.ports[i], since, delay, b.now)
    ensures |c.ports| > i && Timely(c.ports[i], since, delay, c.now)
    decreases |run|
  {
    hide Inv, Step, Allowed;
    if run != [] {
      var (now, e) := run[0];
      var a := b.(now := now);
      TimePasses(b, now);
      StepTimely(a, e, i, since, delay);
      StepKeeps(a, e);
      RunTimely(Step(a, e), run[1..], c, i, since, delay);
    }
  }

  /** With the protocol on and no forward delay below the bound in any state of the run, a port that was
      blocked learns no sooner than one delay later and forwards no sooner than two. */
  lemma ForwardingTakesTwoDelays(b: Bridge, run: seq<(int, Input)>, c: Bridge, i: nat, delay: int)
    requires Inv(b) && Reaches(b, run, c) && AlwaysSlow(b, run, delay)
    requires b.stpEnabled && i < |b.ports| && b.ports[i].state == Blocking && delay >= 0
    ensures i < |c.ports|
    ensures c.ports[i].state == Learning ==> c.ports[i].forwardDelayTimer.start >= b.now + delay
    ensures c.ports[i].state == Forwarding ==> c.now >= b.now + 2 * delay
  {
    RunTimely(b, run, c, i, b.now, delay);
  }

  /** Without the protocol no port ever begins to listen. */
  lemma {:induction false} NeverListens(b: Bridge, run: seq<(int, Input)>, c: Bridge, i: nat)
    requires Inv(b) && Reaches(b, run, c) && !b.stpEnabled && i < |b.ports| && b.ports[i].state != Listening
    ensures i < |c.ports| && !c.stpEnabled && c.ports[i].state != Listening
    decreases |run|
  {
    hide Inv, Step, Allowed;
    if run != [] {
      var (now, e) := run[0];
      var a := b.(now := now);
      TimePasses(b, now);
      StepNeverListens(a, e, i);
      StepKeeps(a, e);
      NeverListens(Step(a, e), run[1..], c, i);
    }
  }

  lemma HeldNeverListens(b: Bridge, c: Bridge, i: nat)
    requires Held(b, c) && !b.stpEnabled && i < |b.ports| && b.ports[i].state != Listening
    ensures |c.ports| == |b.ports| && !c.stpEnabled && c.ports[i].state != Listening
  {
    assert PortHeld(b.stpEnabled, b.now, b.ports[i], c.ports[i]);
  }

  lemma StepNeverListens(b: Bridge, e: Input, i: nat)
    requires Inv(b) && Allowed(b, e) && !b.stpEnabled && i < |b.ports| && b.ports[i].state != Listening
    ensures var c := Step(b, e); i < |c.ports| && !c.stpEnabled && c.ports[i].state != Listening
  {
    hide Step, Allowed, Inv, Held, CheckHello, CheckTcn, CheckTopologyChange, CheckAllPorts;
    if e.Tick? {
      assert Step(b, e) == CheckTimers(b) by { TickIs(b); }
      var d := CheckTopologyChange(CheckTcn(CheckHello(b)));
      CheckBridgeTimersKeeps(b);
      CheckBridgeTimersHeld(b);
      HeldNeverListens(b, d, i);
      PortsNeverListen(d, |d.ports|, i);
    } else {
      StepHeld(b, e);
      HeldNeverListens(b, Step(b, e), i);
    }
  }

  lemma {:induction false} PortsNeverListen(b: Bridge, k: nat, i: nat)
    requires Inv(b) && k <= |b.ports| && !b.stpEnabled && i < |b.ports| && b.ports[i].state != Listening
    ensures var c := CheckAllPorts(b, k); i < |c.ports| && !c.stpEnabled && c.ports[i].state != Listening
    decreases k
  {
    hide CheckMessageAge, CheckForwardDelay, CheckHold, Inv, Held;
    if k > 0 {
      var c := CheckAllPorts(b, k - 1);
      PortsNeverListen(b, k - 1, i);
      CheckAllPortsKeeps(b, k - 1);
      var j := k - 1;
      if c.ports[j].Enabled() {
        var d := CheckMessageAge(c, j);
        CheckMessageAgeKeeps(c, j);
        CheckMessageAgeHeld(c, j);
        HeldNeverListens(c, d, i);
        DelayNeverListens(d, j, i);
        var f := CheckForwardDelay(d, j);
        CheckHoldHeld(f, j);
        HeldNeverListens(f, CheckHold(f, j), i);
      }
    }
  }

  lemma DelayNeverListens(b: Bridge, j: nat, i: nat)
    requires Inv(b) && j < |b.ports| && b.ports[j].Enabled() && !b.stpEnabled
    requires i < |b.ports| && b.ports[i].state != Listening
    ensures var c := CheckForwardDelay(b, j); |c.ports| == |b.ports| && !c.stpEnabled && c.ports[i].state != Listening
  {
    hide CheckForwardDelay;
    if j != i {
      OtherDelayRests(b, j, i);
    } else {
      assert PortOk(b, b.ports[i]);
      OwnDelayOrNone(b, i);
    }
  }
}
