/**
 What a clock tick serves: every timer that has run out, whatever the others do in the same tick.
 */
module BridgeTicks {
  import opened BridgeTypes
  import opened BridgeSpec
  import opened BridgeRoles
  import opened BridgeInvariant
  import opened BridgeRuns
  import opened BridgeProgress
  import opened BridgeEvents
  import opened BridgeNews
  import opened NetworkRuns

  // ----- what else may happen in a tick -----------------------------------------------------

  /** Times are those in use before or the bridge's own. */
  predicate Tuned(b: Bridge, c: Bridge) {
    && c.bridgeMaxAge == b.bridgeMaxAge && c.bridgeHelloTime == b.bridgeHelloTime
    && c.bridgeForwardDelay == b.bridgeForwardDelay
    && (c.maxAge == b.maxAge || c.maxAge == b.bridgeMaxAge)
    && (c.forwardDelay == b.forwardDelay || c.forwardDelay == b.bridgeForwardDelay)
  }

  /** Timers of the bridge are as before, or have been set just now. */
  predicate Wound(b: Bridge, c: Bridge) {
    && (c.helloTimer == b.helloTimer || c.helloTimer == Started(b.now))
    && (c.tcnTimer.start == b.tcnTimer.start || c.tcnTimer.start == b.now)
    && (c.topologyChangeTimer == b.topologyChangeTimer || c.topologyChangeTimer == Started(b.now))
    && (c.topologyChange ==> b.topologyChange || c.topologyChangeTimer == Started(b.now))
  }

  ghost predicate InTick(b: Bridge, c: Bridge) {
    Tuned(b, c) && Wound(b, c) && c.now == b.now && c.stpEnabled == b.stpEnabled && b.trace <= c.trace
  }

  lemma InTickTransitive(a: Bridge, b: Bridge, c: Bridge)
    requires InTick(a, b) && InTick(b, c)
    ensures InTick(a, c)
  {
  }

  lemma DetectionInTick(b: Bridge)
    ensures InTick(b, TopologyChangeDetection(b))
  {
  }

  lemma TransmitInTick(b: Bridge, i: nat)
    requires i < |b.ports|
    ensures InTick(b, TransmitConfig(b, i))
  {
    hide ConfigFor;
  }

  lemma {:induction false} GenerationInTick(b: Bridge, k: nat)
    requires k <= |b.ports|
    ensures InTick(b, ConfigGeneration(b, k))
    decreases k
  {
    hide TransmitConfig, InTick;
    if k == 0 {
      SameInTick(b, b);
    } else {
      var c := ConfigGeneration(b, k - 1);
      GenerationInTick(b, k - 1);
      TransmitInTick(c, k - 1);
      InTickTransitive(b, c, TransmitConfig(c, k - 1));
    }
  }

  /** Only ports and roles change. */
  lemma SameInTick(b: Bridge, c: Bridge)
    requires c == b.(ports := c.ports, rootPort := c.rootPort, designatedRoot := c.designatedRoot,
                     rootPathCost := c.rootPathCost, trace := c.trace)
    requires b.trace <= c.trace
    ensures InTick(b, c)
  {
  }

  lemma SelectInTick(b: Bridge, i: nat)
    requires i < |b.ports|
    ensures InTick(b, SelectState(b, i))
  {
    hide TopologyChangeDetection, InTick, MakeForwarding;
    var p := b.ports[i];
    var c := SetPort(b, i, p.(configPending := false, topologyChangeAck := false));
    if p.Enabled() && p.portNo != b.rootPort && !IsDesignated(b, p) {
      SameInTick(b, c);
      BlockingInTick(c, i);
      InTickTransitive(b, c, MakeBlocking(c, i));
    } else {
      SameInTick(b, SelectState(b, i));
    }
  }

  lemma BlockingInTick(b: Bridge, i: nat)
    requires i < |b.ports|
    ensures InTick(b, MakeBlocking(b, i))
  {
    hide TopologyChangeDetection, InTick;
    SameInTick(b, b);
    DetectionInTick(b);
    var p := b.ports[i];
    if p.state != Disabled && p.state != Blocking {
      var c := if p.state == Forwarding || p.state == Learning then TopologyChangeDetection(b) else b;
      SameInTick(c, MakeBlocking(b, i));
      InTickTransitive(b, c, MakeBlocking(b, i));
    }
  }

  lemma {:induction false} SelectionInTick(b: Bridge, k: nat)
    requires k <= |b.ports|
    ensures InTick(b, StateSelection(b, k))
    decreases k
  {
    hide SelectState, InTick;
    if k == 0 {
      SameInTick(b, b);
    } else {
      var c := StateSelection(b, k - 1);
      SelectionInTick(b, k - 1);
      SelectInTick(c, k - 1);
      InTickTransitive(b, c, SelectState(c, k - 1));
    }
  }

  lemma ReconfigureInTick(b: Bridge)
    ensures InTick(b, Reconfigure(b))
  {
    hide StateSelection, RootSelection, InTick;
    RootSelectionOnly(b);
    var c := ConfigurationUpdate(b);
    SameInTick(b, c);
    SelectionInTick(c, |c.ports|);
    InTickTransitive(b, c, Reconfigure(b));
  }

  lemma BecomeRootInTick(b: Bridge)
    requires IsRoot(b)
    ensures InTick(b, BecomeRoot(b))
  {
    hide ConfigGeneration, TopologyChangeDetection, InTick;
    var a := b.(maxAge := b.bridgeMaxAge, helloTime := b.bridgeHelloTime, forwardDelay := b.bridgeForwardDelay);
    RootDetects(a);
    var c := TopologyChangeDetection(a);
    var d := c.(tcnTimer := c.tcnTimer.Clear());
    assert InTick(b, d) by { OwnTimes(b, d); }
    var e := ConfigGeneration(d, |d.ports|);
    GenerationInTick(d, |d.ports|);
    InTickTransitive(b, d, e);
    assert InTick(e, BecomeRoot(b)) by { HelloSet(e); }
    InTickTransitive(b, e, BecomeRoot(b));
  }

  lemma OwnTimes(b: Bridge, d: Bridge)
    requires d == b.(maxAge := b.bridgeMaxAge, helloTime := b.bridgeHelloTime, forwardDelay := b.bridgeForwardDelay,
                     topologyChange := true, topologyChangeTimer := Started(b.now), topologyChangeDetected := true,
                     tcnTimer := b.tcnTimer.Clear())
    ensures InTick(b, d)
  {
  }

  lemma HelloSet(e: Bridge)
    ensures InTick(e, e.(helloTimer := Started(e.now)))
  {
  }

  lemma MessageAgeInTick(b: Bridge, i: nat)
    requires i < |b.ports|
    ensures InTick(b, CheckMessageAge(b, i))
  {
    hide Reconfigure, BecomeRoot, InTick, CheckMessageAge;
    SameInTick(b, b);
    CheckMessageAgeIs(b, i);
    var a := Forgotten(b, i);
    SameInTick(b, a);
    ReconfigureInTick(a);
    InTickTransitive(b, a, Reconfigure(a));
    if IsRoot(Reconfigure(a)) {
      BecomeRootInTick(Reconfigure(a));
      InTickTransitive(b, Reconfigure(a), BecomeRoot(Reconfigure(a)));
    }
  }

  lemma ForwardDelayInTick(b: Bridge, i: nat)
    requires i < |b.ports|
    ensures InTick(b, CheckForwardDelay(b, i))
  {
    hide TopologyChangeDetection, InTick, DesignatedForSomePort;
    SameInTick(b, b);
    var p := b.ports[i];
    if p.forwardDelayTimer.Expired(b.forwardDelay, b.now) {
      var off := SetPort(b, i, p.(forwardDelayTimer := p.forwardDelayTimer.Clear()));
      SameInTick(b, off);
      ExpiredInTick(off, i);
      InTickTransitive(b, off, ForwardDelayExpired(off, i));
    }
  }

  lemma ExpiredInTick(b: Bridge, i: nat)
    requires i < |b.ports|
    ensures InTick(b, ForwardDelayExpired(b, i))
  {
    hide TopologyChangeDetection, InTick, DesignatedForSomePort;
    var p := b.ports[i];
    var c := b.(trace := b.trace + [DelayExpired(p.portNo)]);
    var d := SetPort(c, i, p.(state := Forwarding));
    SameInTick(b, c);
    SameInTick(b, SetPort(c, i, p.(state := Learning, forwardDelayTimer := Started(b.now))));
    SameInTick(b, d);
    DetectionInTick(d);
    InTickTransitive(b, d, TopologyChangeDetection(d));
  }

  lemma HoldInTick(b: Bridge, i: nat)
    requires i < |b.ports|
    ensures InTick(b, CheckHold(b, i))
  {
    hide TransmitConfig, InTick;
    SameInTick(b, b);
    var c := SetPort(b, i, b.ports[i].(holdTimer := b.ports[i].holdTimer.Clear()));
    SameInTick(b, c);
    TransmitInTick(c, i);
    InTickTransitive(b, c, TransmitConfig(c, i));
  }

  lemma PortTimersInTick(b: Bridge, i: nat)
    requires i < |b.ports|
    ensures InTick(b, CheckPortTimers(b, i))
  {
    hide CheckMessageAge, CheckForwardDelay, CheckHold, InTick;
    var c := CheckMessageAge(b, i);
    var d := CheckForwardDelay(c, i);
    MessageAgeInTick(b, i);
    ForwardDelayInTick(c, i);
    InTickTransitive(b, c, d);
    HoldInTick(d, i);
    InTickTransitive(b, d, CheckHold(d, i));
  }

  lemma {:induction false} PortsInTick(b: Bridge, k: nat, n: nat)
    requires k <= n <= |b.ports|
    ensures InTick(CheckAllPorts(b, k), CheckAllPorts(b, n))
    decreases n
  {
    hide CheckPortTimers, InTick;
    if n == k {
      SameInTick(CheckAllPorts(b, k), CheckAllPorts(b, k));
    } else {
      var c := CheckAllPorts(b, n - 1);
      PortsInTick(b, k, n - 1);
      if c.ports[n - 1].Enabled() {
        PortTimersInTick(c, n - 1);
        InTickTransitive(CheckAllPorts(b, k), c, CheckPortTimers(c, n - 1));
      }
    }
  }

  /** The ports, after the bridge's own timers. */
  lemma AllInTick(b: Bridge)
    ensures InTick(b, CheckAllPorts(b, |b.ports|))
  {
    hide InTick;
    PortsInTick(b, 0, |b.ports|);
    assert CheckAllPorts(b, 0) == b;
  }

  // ----- the bridge's own timers ------------------------------------------------------------

  /** A message to this effect has left the port since b. */
  ghost predicate Sent(b: Bridge, c: Bridge, no: int, v: Vector, age: int) {
    exists k | |b.trace| <= k < |c.trace| ::
      && c.trace[k].SentConfig? && c.trace[k].time == b.now && c.trace[k].from.portNo == no
      && c.trace[k].bpdu.vector == v && c.trace[k].bpdu.messageAge == age
  }

  lemma SentLater(b: Bridge, c: Bridge, d: Bridge, no: int, v: Vector, age: int)
    requires Sent(b, c, no, v, age) && c.trace <= d.trace
    ensures Sent(b, d, no, v, age)
  {
    var k :| |b.trace| <= k < |c.trace|
             && c.trace[k].SentConfig? && c.trace[k].time == b.now && c.trace[k].from.portNo == no
             && c.trace[k].bpdu.vector == v && c.trace[k].bpdu.messageAge == age;
    assert d.trace[k] == c.trace[k];
  }

  lemma TcnWinds(c: Bridge)
    ensures InTick(c, CheckTcn(c))
  {
  }

  lemma ChangeWinds(c: Bridge)
    ensures var d := CheckTopologyChange(c);
            && d.helloTimer == c.helloTimer && d.tcnTimer == c.tcnTimer && d.trace == c.trace && d.now == c.now
            && d.stpEnabled == c.stpEnabled && d.ports == c.ports && Tuned(c, d)
  {
  }

  lemma HelloSays(b: Bridge, j: nat)
    requires Inv(b) && IsRoot(b) && b.helloTimer.Expired(b.helloTime, b.now) && b.stpEnabled
    requires j < |b.ports| && b.ports[j].Enabled() && IsDesignated(b, b.ports[j]) && !b.ports[j].holdTimer.running
    ensures Sent(b, CheckHello(b), b.ports[j].portNo, b.ports[j].designated, 0)
  {
    hide ConfigGeneration, Consistent;
    HelloIsTold(b, j);
    var a := b.(helloTimer := b.helloTimer.Clear());
    PlainChangeKeeps(b, a);
    AnnouncesAll(a);
    var c := CheckHello(b);
    assert SameRole(a.ports[j], c.ports[j]);
    assert Tells(b, c, j, 0);
    var k :| |b.trace| <= k < |c.trace| && Says(c, j, 0, c.trace[k]);
  }

  /** At a tick at which the hello time has passed the root tells on every enabled designated port that no
      hold time keeps back, and the hello timer starts again. */
  lemma HelloAtTick(b: Bridge, j: nat)
    requires Inv(b) && IsRoot(b) && b.helloTimer.Expired(b.helloTime, b.now) && b.stpEnabled
    requires j < |b.ports| && b.ports[j].Enabled() && IsDesignated(b, b.ports[j]) && !b.ports[j].holdTimer.running
    ensures var c := Step(b, Tick);
            Sent(b, c, b.ports[j].portNo, b.ports[j].designated, 0) && c.helloTimer == Started(b.now)
  {
    hide CheckHello, CheckTcn, CheckAllPorts, Sent, Inv;
    var h := CheckHello(b);
    HelloSays(b, j);
    HelloIsTold(b, j);
    HelloNow(b);
    var t := CheckTcn(h);
    TcnWinds(h);
    ChangeWinds(t);
    var d := CheckTopologyChange(t);
    AllInTick(d);
    SentLater(b, h, Step(b, Tick), b.ports[j].portNo, b.ports[j].designated, 0);
  }

  lemma HelloNow(b: Bridge)
    ensures InTick(b, CheckHello(b))
  {
    hide ConfigGeneration, InTick;
    SameInTick(b, b);
    var a := b.(helloTimer := b.helloTimer.Clear());
    var g := ConfigGeneration(a, |a.ports|);
    GenerationInTick(a, |a.ports|);
    HelloAgain(b, a, g);
  }

  lemma HelloAgain(b: Bridge, a: Bridge, g: Bridge)
    requires a == b.(helloTimer := b.helloTimer.Clear()) && InTick(a, g)
    ensures InTick(b, g.(helloTimer := Started(b.now)))
  {
  }

  /** At a tick at which the notification is due again it is sent on the root port. */
  lemma NotificationAtTick(b: Bridge)
    requires Inv(b) && b.tcnTimer.Expired(b.bridgeHelloTime, b.now)
    ensures var c := Step(b, Tick);
            && c.tcnTimer.start == b.now
            && (b.stpEnabled ==>
                  exists k | |b.trace| <= k < |c.trace| ::
                    c.trace[k].SentTcn? && c.trace[k].time == b.now && c.trace[k].from.portNo == b.rootPort)
  {
    hide CheckHello, CheckAllPorts, Inv;
    var h := CheckHello(b);
    HelloNow(b);
    CheckHelloKeeps(b);
    assert h.tcnTimer == b.tcnTimer && h.rootPort == b.rootPort by { HelloRoles(b); }
    TcnSays(h);
    var t := CheckTcn(h);
    ChangeWinds(t);
    var d := CheckTopologyChange(t);
    AllInTick(d);
    var c := Step(b, Tick);
    assert c == CheckAllPorts(d, |d.ports|);
    if b.stpEnabled {
      var k :| |h.trace| <= k < |t.trace| && t.trace[k].SentTcn? && t.trace[k].time == b.now && t.trace[k].from.portNo == b.rootPort;
      assert c.trace[k] == t.trace[k];
    }
  }

  lemma HelloRoles(b: Bridge)
    requires Inv(b)
    ensures CheckHello(b).tcnTimer == b.tcnTimer && CheckHello(b).rootPort == b.rootPort
  {
    hide ConfigGeneration, Consistent;
    var a := b.(helloTimer := b.helloTimer.Clear());
    PlainChangeKeeps(b, a);
    GenerationKeeps(a, |a.ports|);
  }

  lemma TcnSays(h: Bridge)
    requires Inv(h) && h.tcnTimer.Expired(h.bridgeHelloTime, h.now)
    ensures var t := CheckTcn(h);
            && t.tcnTimer == Started(h.now) && h.trace <= t.trace && t.now == h.now
            && (h.stpEnabled ==>
                  exists k | |h.trace| <= k < |t.trace| ::
                    t.trace[k].SentTcn? && t.trace[k].time == h.now && t.trace[k].from.portNo == h.rootPort)
  {
    var t := CheckTcn(h);
    var r := RootPortNamed(h);
    if h.stpEnabled {
      assert t.trace[|h.trace|].SentTcn? && t.trace[|h.trace|].time == h.now;
    }
  }

  /** At a tick at which a topology change has been told long enough the root stops, unless another one
      is noted in the same tick. */
  lemma ChangeEndsAtTick(b: Bridge)
    requires Inv(b) && b.topologyChangeTimer.Expired(b.bridgeForwardDelay + b.bridgeMaxAge, b.now)
    ensures var c := Step(b, Tick);
            c.topologyChangeTimer == Started(b.now) || (!c.topologyChangeTimer.running && !c.topologyChange)
  {
    hide CheckHello, CheckTcn, CheckAllPorts, Inv;
    var h := CheckHello(b);
    HelloNow(b);
    assert h.topologyChangeTimer == b.topologyChangeTimer by { HelloChange(b); }
    TcnWinds(h);
    var t := CheckTcn(h);
    assert t.topologyChangeTimer == h.topologyChangeTimer by { TcnChange(h); }
    var d := CheckTopologyChange(t);
    AllInTick(d);
  }

  lemma HelloChange(b: Bridge)
    ensures CheckHello(b).topologyChangeTimer == b.topologyChangeTimer
  {
    hide ConfigGeneration;
    GenerationFlags(b.(helloTimer := b.helloTimer.Clear()), |b.ports|);
  }

  lemma TcnChange(b: Bridge)
    ensures CheckTcn(b).topologyChangeTimer == b.topologyChangeTimer
  {
  }

  // ----- message age ------------------------------------------------------------------------

  /** Information that is too old is forgotten. */
  lemma AgedOut(b: Bridge, i: nat)
    requires Alone(b, i) && b.ports[i].messageAgeTimer.Expired(b.maxAge, b.now)
    ensures var c := CheckMessageAge(b, i); i < |c.ports| && !c.ports[i].messageAgeTimer.running
  {
    hide Reconfigure, BecomeRootIfNew, CheckMessageAge, Goes;
    CheckMessageAgeIs(b, i);
    var a := Forgotten(b, i);
    assert Alone(a, i);
    FieldsGo(a, a, i);
    PromoteGoes(a, a, IsRoot(b), i);
    StillNotAging(a, CheckMessageAge(b, i), i);
  }

  lemma StillNotAging(b: Bridge, c: Bridge, i: nat)
    requires Goes(b, c, i) && !b.ports[i].messageAgeTimer.running
    ensures i < |c.ports| && !c.ports[i].messageAgeTimer.running
  {
  }

  lemma StillAging(b: Bridge, c: Bridge, i: nat)
    requires Goes(b, c, i)
    ensures i < |c.ports| && c.ports[i].messageAgeTimer.start == b.ports[i].messageAgeTimer.start
    ensures c.ports[i].Enabled() == b.ports[i].Enabled()
  {
  }

  /** The two halves of a round over the ports. */
  lemma {:induction false} LaterPortsGo(b: Bridge, k: nat, n: nat, i: nat)
    requires AllAlone(b) && i < |b.ports| && k <= n <= |b.ports|
    ensures Goes(CheckAllPorts(b, k), CheckAllPorts(b, n), i) && AllAlone(CheckAllPorts(b, n))
    decreases n
  {
    hide Goes, CheckPortTimers, Alone;
    if n == k {
      AllPortsGo(b, k, i);
      NumbersAfter(b, CheckAllPorts(b, k), i);
      FieldsGo(CheckAllPorts(b, k), CheckAllPorts(b, k), i);
    } else {
      var c := CheckAllPorts(b, n - 1);
      LaterPortsGo(b, k, n - 1, i);
      if c.ports[n - 1].Enabled() {
        PortTimersGo(c, n - 1, i);
        NumbersAfter(c, CheckPortTimers(c, n - 1), i);
        GoesTransitive(CheckAllPorts(b, k), c, CheckPortTimers(c, n - 1), i);
      }
    }
  }

  lemma PortForgets(e: Bridge, i: nat)
    requires AllAlone(e) && i < |e.ports| && e.ports[i].Enabled()
    requires e.ports[i].messageAgeTimer.running ==> e.ports[i].messageAgeTimer.Expired(e.maxAge, e.now)
    ensures var c := CheckPortTimers(e, i); i < |c.ports| && !c.ports[i].messageAgeTimer.running
  {
    hide CheckMessageAge, CheckForwardDelay, CheckHold, Goes;
    assert Alone(e, i);
    var a := CheckMessageAge(e, i);
    MessageAgeGoes(e, i, i);
    if e.ports[i].messageAgeTimer.running {
      AgedOut(e, i);
    } else {
      StillNotAging(e, a, i);
    }
    AloneAfter(e, a, i);
    StillAging(e, a, i);
    ForwardDelayGoes(a, i, i);
    var f := CheckForwardDelay(a, i);
    StillNotAging(a, f, i);
    AloneAfter(a, f, i);
    StillAging(a, f, i);
    HoldGoes(f, i, i);
    StillNotAging(f, CheckHold(f, i), i);
  }

  /** At a tick at which what a port has heard is too old, by the times in use and by the bridge's own,
      the port forgets it: it is designated from then on. */
  lemma AgedAtTick(b: Bridge, i: nat)
    requires Inv(b) && i < |b.ports| && b.ports[i].Enabled()
    requires b.ports[i].messageAgeTimer.Expired(b.maxAge, b.now)
    requires b.ports[i].messageAgeTimer.Expired(b.bridgeMaxAge, b.now)
    ensures var c := Step(b, Tick);
            i < |c.ports| && c.ports[i].Enabled() && !c.ports[i].messageAgeTimer.running && IsDesignated(c, c.ports[i])
  {
    hide CheckHello, CheckTcn, CheckAllPorts, CheckPortTimers, Inv, Goes, Alone;
    InvAlone(b);
    var d := CheckTopologyChange(CheckTcn(CheckHello(b)));
    OwnTimersGo(b, i);
    NumbersAfter(b, d, i);
    AllPortsGo(d, i, i);
    var e := CheckAllPorts(d, i);
    NumbersAfter(d, e, i);
    LaterInTick(d, i);
    GoesTransitive(b, d, e, i);
    StillAging(b, e, i);
    TunedTransitive(b, d, e);
    PortForgets(e, i);
    assert CheckPortTimers(e, i) == CheckAllPorts(d, i + 1) by { OnePort(d, i); }
    LaterPortsGo(d, i + 1, |d.ports|, i);
    var c := Step(b, Tick);
    StillNotAging(CheckAllPorts(d, i + 1), c, i);
    PortTimersGo(e, i, i);
    StillAging(e, CheckAllPorts(d, i + 1), i);
    StillAging(CheckAllPorts(d, i + 1), c, i);
    StepKeeps(b, Tick);
    NotAging(c, i);
  }

  lemma TunedTransitive(a: Bridge, b: Bridge, c: Bridge)
    requires Tuned(a, b) && Tuned(b, c)
    ensures Tuned(a, c)
  {
  }

  lemma NotAging(c: Bridge, i: nat)
    requires Inv(c) && i < |c.ports| && c.ports[i].Enabled() && !c.ports[i].messageAgeTimer.running
    ensures IsDesignated(c, c.ports[i])
  {
    assert PortOk(c, c.ports[i]);
  }

  lemma LaterInTick(d: Bridge, k: nat)
    requires k <= |d.ports|
    ensures InTick(d, CheckAllPorts(d, k))
  {
    hide InTick;
    PortsInTick(d, 0, k);
    assert CheckAllPorts(d, 0) == d;
  }

  lemma OnePort(d: Bridge, i: nat)
    requires i < |d.ports| && CheckAllPorts(d, i).ports[i].Enabled()
    ensures CheckAllPorts(d, i + 1) == CheckPortTimers(CheckAllPorts(d, i), i)
  {
    hide CheckPortTimers;
  }

  lemma OwnTimersGo(b: Bridge, i: nat)
    requires AllAlone(b) && i < |b.ports|
    ensures var d := CheckTopologyChange(CheckTcn(CheckHello(b))); Goes(b, d, i) && Tuned(b, d) && d.now == b.now
  {
    hide CheckHello, CheckTcn, Goes, Alone;
    var h := CheckHello(b);
    HelloGoes(b, i);
    HelloNow(b);
    NumbersAfter(b, h, i);
    var t := CheckTcn(h);
    TcnTimerGoes(h, i);
    TcnWinds(h);
    GoesTransitive(b, h, t, i);
    ChangeWinds(t);
    FieldsGo(t, CheckTopologyChange(t), i);
    GoesTransitive(b, t, CheckTopologyChange(t), i);
  }

  // ----- forward delay and hold time --------------------------------------------------------

  /** Port i is in the same state for as long, and what it waits to send still waits. */
  ghost predicate Rests(b: Bridge, c: Bridge, i: nat) {
    && i < |b.ports| && |c.ports| == |b.ports| && c.now == b.now && c.hz == b.hz && c.stpEnabled == b.stpEnabled
    && c.forwardDelay == b.forwardDelay && b.trace <= c.trace
    && var p, q := b.ports[i], c.ports[i];
       && q.portNo == p.portNo && q.state == p.state && q.forwardDelayTimer == p.forwardDelayTimer
       && (p.holdTimer.running ==>
             && q.holdTimer == p.holdTimer && q.topologyChangeAck == p.topologyChangeAck
             && (p.configPending ==> q.configPending))
  }

  lemma RestsTransitive(a: Bridge, b: Bridge, c: Bridge, i: nat)
    requires Rests(a, b, i) && Rests(b, c, i)
    ensures Rests(a, c, i)
  {
  }

  /** Nothing changes but fields of the bridge and the log. */
  lemma FieldsRest(b: Bridge, c: Bridge, i: nat)
    requires i < |b.ports| && c.ports == b.ports && c.now == b.now && c.hz == b.hz && c.stpEnabled == b.stpEnabled
    requires c.forwardDelay == b.forwardDelay && b.trace <= c.trace
    ensures Rests(b, c, i)
  {
  }

  lemma OtherRests(b: Bridge, j: nat, q: Port, i: nat)
    requires i < |b.ports| && j < |b.ports| && j != i
    ensures Rests(b, SetPort(b, j, q), i)
  {
  }

  lemma TransmitRests(b: Bridge, j: nat, i: nat)
    requires i < |b.ports| && j < |b.ports|
    ensures Rests(b, TransmitConfig(b, j), i)
  {
    hide ConfigFor;
  }

  lemma {:induction false} GenerationRests(b: Bridge, k: nat, i: nat)
    requires i < |b.ports| && k <= |b.ports|
    ensures Rests(b, ConfigGeneration(b, k), i)
    decreases k
  {
    hide TransmitConfig, Rests;
    if k == 0 {
      FieldsRest(b, b, i);
    } else {
      var c := ConfigGeneration(b, k - 1);
      GenerationRests(b, k - 1, i);
      TransmitRests(c, k - 1, i);
      RestsTransitive(b, c, TransmitConfig(c, k - 1), i);
    }
  }

  lemma DetectionRests(b: Bridge, i: nat)
    requires i < |b.ports|
    ensures Rests(b, TopologyChangeDetection(b), i)
  {
  }

  lemma OwnTimersRest(b: Bridge, i: nat)
    requires i < |b.ports|
    ensures Rests(b, CheckTopologyChange(CheckTcn(CheckHello(b))), i)
  {
    hide ConfigGeneration, Rests;
    var a := b.(helloTimer := b.helloTimer.Clear());
    var g := ConfigGeneration(a, |a.ports|);
    FieldsRest(b, b, i);
    FieldsRest(b, a, i);
    GenerationRests(a, |a.ports|, i);
    RestsTransitive(b, a, g, i);
    FieldsRest(g, g.(helloTimer := Started(b.now)), i);
    RestsTransitive(b, g, g.(helloTimer := Started(b.now)), i);
    var h := CheckHello(b);
    TcnRests(h, i);
    RestsTransitive(b, h, CheckTopologyChange(CheckTcn(h)), i);
  }

  lemma TcnRests(h: Bridge, i: nat)
    requires i < |h.ports|
    ensures Rests(h, CheckTopologyChange(CheckTcn(h)), i)
  {
    hide Rests;
    TcnPorts(h);
    FieldsRest(h, CheckTcn(h), i);
    FieldsRest(CheckTcn(h), CheckTopologyChange(CheckTcn(h)), i);
    RestsTransitive(h, CheckTcn(h), CheckTopologyChange(CheckTcn(h)), i);
  }

  lemma TcnPorts(h: Bridge)
    ensures var t := CheckTcn(h);
            t.ports == h.ports && t.now == h.now && t.hz == h.hz && h.trace <= t.trace && t.forwardDelay == h.forwardDelay
  {
  }

  lemma OtherDelayRests(b: Bridge, j: nat, i: nat)
    requires i < |b.ports| && j < |b.ports| && j != i
    ensures Rests(b, CheckForwardDelay(b, j), i)
  {
    hide TopologyChangeDetection, Rests, DesignatedForSomePort;
    FieldsRest(b, b, i);
    var p := b.ports[j];
    var off := SetPort(b, j, p.(forwardDelayTimer := p.forwardDelayTimer.Clear()));
    OtherRests(b, j, off.ports[j], i);
    ExpiredRests(off, j, i);
    RestsTransitive(b, off, ForwardDelayExpired(off, j), i);
  }

  lemma ExpiredRests(b: Bridge, j: nat, i: nat)
    requires i < |b.ports| && j < |b.ports| && j != i
    ensures Rests(b, ForwardDelayExpired(b, j), i)
  {
    hide TopologyChangeDetection, Rests, DesignatedForSomePort;
    var p := b.ports[j];
    var c := b.(trace := b.trace + [DelayExpired(p.portNo)]);
    FieldsRest(b, c, i);
    var l, d := SetPort(c, j, p.(state := Learning, forwardDelayTimer := Started(b.now))), SetPort(c, j, p.(state := Forwarding));
    OtherRests(c, j, l.ports[j], i);
    RestsTransitive(b, c, l, i);
    OtherRests(c, j, d.ports[j], i);
    RestsTransitive(b, c, d, i);
    DetectionRests(d, i);
    RestsTransitive(b, d, TopologyChangeDetection(d), i);
  }

  lemma OtherHoldRests(b: Bridge, j: nat, i: nat)
    requires i < |b.ports| && j < |b.ports| && j != i
    ensures Rests(b, CheckHold(b, j), i)
  {
    hide TransmitConfig, Rests;
    FieldsRest(b, b, i);
    var c := SetPort(b, j, b.ports[j].(holdTimer := b.ports[j].holdTimer.Clear()));
    OtherRests(b, j, c.ports[j], i);
    TransmitRests(c, j, i);
    RestsTransitive(b, c, TransmitConfig(c, j), i);
  }

  lemma {:induction false} OtherPortsRest(b: Bridge, k: nat, n: nat, i: nat)
    requires Fresh(b) && i < |b.ports| && k <= n <= |b.ports| && (i < k || n <= i)
    ensures Rests(CheckAllPorts(b, k), CheckAllPorts(b, n), i)
    decreases n
  {
    hide Rests, CheckForwardDelay, CheckHold, Fresh, Calm;
    if n == k {
      FieldsRest(CheckAllPorts(b, k), CheckAllPorts(b, k), i);
    } else {
      var c := CheckAllPorts(b, n - 1);
      OtherPortsRest(b, k, n - 1, i);
      AllPortsCalm(b, n - 1);
      CalmFresh(b, c);
      if c.ports[n - 1].Enabled() {
        assert CheckMessageAge(c, n - 1) == c by { NoneExpired(c, n - 1); }
        var d := CheckForwardDelay(c, n - 1);
        OtherDelayRests(c, n - 1, i);
        OtherHoldRests(d, n - 1, i);
        RestsTransitive(c, d, CheckHold(d, n - 1), i);
        RestsTransitive(CheckAllPorts(b, k), c, CheckHold(d, n - 1), i);
      }
    }
  }

  /** The bridge when the timers of port i are about to be served. */
  ghost function Before(b: Bridge, i: nat): Bridge
    requires i < |b.ports|
  {
    CheckAllPorts(CheckTopologyChange(CheckTcn(CheckHello(b))), i)
  }

  lemma BeforeRests(b: Bridge, i: nat)
    requires Inv(b) && Fresh(b) && i < |b.ports| && b.ports[i].Enabled()
    ensures var e := Before(b, i);
            && Inv(e) && Rests(b, e, i) && CheckMessageAge(e, i) == e
            && e.ports[i].Enabled()
            && var f := CheckHold(CheckForwardDelay(e, i), i);
               && i < |f.ports| && f.trace <= Step(b, Tick).trace
               && Rests(f, Step(b, Tick), i)
  {
    hide Rests, CheckForwardDelay, CheckHold, CheckHello, CheckTcn, CheckTopologyChange, Fresh, Calm, Inv, CheckMessageAge;
    var d := CheckTopologyChange(CheckTcn(CheckHello(b)));
    OwnTimersRest(b, i);
    CheckBridgeTimersKeeps(b);
    BridgeTimersCalm(b);
    CalmFresh(b, d);
    var e := CheckAllPorts(d, i);
    CheckAllPortsKeeps(d, i);
    OtherPortsRest(d, 0, i, i);
    assert CheckAllPorts(d, 0) == d;
    RestsTransitive(b, d, e, i);
    RestsEnabled(b, e, i);
    AllPortsCalm(d, i);
    CalmFresh(d, e);
    NoneExpired(e, i);
    OnePort(d, i);
    OtherPortsRest(d, i + 1, |d.ports|, i);
    RestsEnabled(CheckAllPorts(d, i + 1), CheckAllPorts(d, |d.ports|), i);
  }

  lemma RestsEnabled(b: Bridge, c: Bridge, i: nat)
    requires Rests(b, c, i)
    ensures |c.ports| == |b.ports| && c.ports[i].Enabled() == b.ports[i].Enabled() && b.trace <= c.trace
  {
  }

  /** What the forward delay timer does to its own port. */
  lemma OwnDelay(e: Bridge, i: nat)
    requires i < |e.ports| && e.ports[i].Enabled() && (e.ports[i].state == Listening || e.ports[i].state == Learning)
    ensures var p, f := e.ports[i], CheckForwardDelay(e, i);
            && i < |f.ports| && f.now == e.now && f.hz == e.hz && f.stpEnabled == e.stpEnabled && e.trace <= f.trace
            && f.ports[i] == if p.forwardDelayTimer.Expired(e.forwardDelay, e.now) then Advanced(e, p) else p
  {
    hide TopologyChangeDetection, DesignatedForSomePort;
    if e.ports[i].forwardDelayTimer.Expired(e.forwardDelay, e.now) {
      CheckForwardDelayIs(e, i);
      var q := Advanced(e, e.ports[i]);
      var d := SetPort(e.(trace := e.trace + [DelayExpired(q.portNo)]), i, q);
      DetectionRests(d, i);
      DetectionPorts(d);
    }
  }

  lemma HoldKeepsState(f: Bridge, i: nat)
    requires i < |f.ports|
    ensures var g := CheckHold(f, i);
            i < |g.ports| && g.ports[i].state == f.ports[i].state && g.ports[i].forwardDelayTimer == f.ports[i].forwardDelayTimer
  {
    hide ConfigFor;
  }

  /** At a tick at which nothing ages out a listening port whose forward delay has passed learns, with a
      new delay to run, a learning one forwards, and before that neither changes. */
  lemma DelayAtTick(b: Bridge, i: nat)
    requires Inv(b) && Fresh(b) && i < |b.ports| && (b.ports[i].state == Listening || b.ports[i].state == Learning)
    ensures var c := Step(b, Tick);
            && i < |c.ports|
            && var p, q := b.ports[i], c.ports[i];
               if !p.forwardDelayTimer.Expired(b.forwardDelay, b.now)
               then q.state == p.state && q.forwardDelayTimer == p.forwardDelayTimer
               else if p.state == Listening then q.state == Learning && q.forwardDelayTimer == Started(b.now)
               else q.state == Forwarding && !q.forwardDelayTimer.running
  {
    hide CheckForwardDelay, CheckHold, CheckTimers, Fresh, Inv, Before;
    BeforeRests(b, i);
    var e := Before(b, i);
    OwnDelay(e, i);
    HoldKeepsState(CheckForwardDelay(e, i), i);
  }

  /** At a tick at which nothing ages out a message that waits leaves, with its acknowledgement, if the
      hold time has passed. */
  lemma WaitingAtTick(b: Bridge, i: nat)
    requires Inv(b) && Fresh(b) && i < |b.ports| && b.ports[i].Enabled() && b.ports[i].configPending
    requires b.ports[i].holdTimer.Expired(b.hz, b.now) && b.stpEnabled
    ensures var c := Step(b, Tick);
            exists k | |b.trace| <= k < |c.trace| ::
              && c.trace[k].SentConfig? && c.trace[k].time == b.now && c.trace[k].from.portNo == b.ports[i].portNo
              && c.trace[k].bpdu.topologyChangeAck == b.ports[i].topologyChangeAck
  {
    hide CheckForwardDelay, CheckHold, CheckTimers, Fresh, Inv, Before;
    BeforeRests(b, i);
    var e := Before(b, i);
    var f := CheckForwardDelay(e, i);
    CheckForwardDelayKeeps(e, i);
    DelayKeepsHold(e, i);
    WaitingIsSent(f, i);
    var g := CheckHold(f, i);
    var k :| |f.trace| <= k < |g.trace|
             && g.trace[k].SentConfig? && g.trace[k].time == f.now && g.trace[k].from.portNo == f.ports[i].portNo
             && g.trace[k].bpdu.topologyChangeAck == f.ports[i].topologyChangeAck;
    var c := Step(b, Tick);
    assert c.trace[k] == g.trace[k];
  }

  lemma DelayKeepsHold(e: Bridge, i: nat)
    requires i < |e.ports| && e.ports[i].Enabled()
    ensures var p, f := e.ports[i], CheckForwardDelay(e, i);
            && i < |f.ports| && f.now == e.now && f.hz == e.hz && f.stpEnabled == e.stpEnabled && e.trace <= f.trace
            && var q := f.ports[i];
               && q.holdTimer == p.holdTimer && q.configPending == p.configPending && q.portNo == p.portNo
               && q.topologyChangeAck == p.topologyChangeAck && q.Enabled()
  {
    hide TopologyChangeDetection, DesignatedForSomePort;
    var p := e.ports[i];
    if p.state == Listening || p.state == Learning {
      OwnDelay(e, i);
    }
  }

  // ----- nothing is due ---------------------------------------------------------------------

  predicate PortIdle(b: Bridge, p: Port) {
    && !p.messageAgeTimer.Expired(b.maxAge, b.now) && !p.forwardDelayTimer.Expired(b.forwardDelay, b.now)
    && !p.holdTimer.Expired(b.hz, b.now)
  }

  /** No timer of the bridge and of a port that is up has run out. */
  predicate NothingDue(b: Bridge) {
    && !b.helloTimer.Expired(b.helloTime, b.now) && !b.tcnTimer.Expired(b.bridgeHelloTime, b.now)
    && !b.topologyChangeTimer.Expired(b.bridgeForwardDelay + b.bridgeMaxAge, b.now)
    && forall i | 0 <= i < |b.ports| && b.ports[i].Enabled() :: PortIdle(b, b.ports[i])
  }

  lemma {:induction false} PortsIdle(b: Bridge, k: nat)
    requires NothingDue(b) && k <= |b.ports|
    ensures CheckAllPorts(b, k) == b
    decreases k
  {
    if k > 0 {
      PortsIdle(b, k - 1);
    }
  }

  /** A tick at which no timer has run out changes nothing and sends nothing. */
  lemma IdleTick(b: Bridge)
    requires NothingDue(b)
    ensures Step(b, Tick) == b
  {
    PortsIdle(b, |b.ports|);
  }
}
