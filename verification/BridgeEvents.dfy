/**
 One port over whole runs: when it is up and down, what leaves it, and since when its information ages.
 */
module BridgeEvents {
  import opened BridgeTypes
  import opened BridgeSpec
  import opened BridgeRoles
  import opened BridgeInvariant
  import opened BridgeRuns
  import opened BridgeProgress
  import opened BridgeTheorems

  /** A port that is down, with nothing pending and no timer running. */
  predicate Off(p: Port) {
    && p.state == Disabled && !p.topologyChangeAck && !p.configPending
    && !p.messageAgeTimer.running && !p.forwardDelayTimer.running && !p.holdTimer.running
  }

  /** The same port, up or down as before, with information that started to age when it did, if it still
      ages. */
  predicate Twin(p: Port, q: Port) {
    && q.portNo == p.portNo && q.Enabled() == p.Enabled()
    && q.messageAgeTimer.start == p.messageAgeTimer.start
    && (q.messageAgeTimer.running ==> p.messageAgeTimer.running)
    && (Off(p) ==> Off(q))
  }

  /** An event logged after b says the same of port i as b does. */
  predicate Logged(b: Bridge, i: nat, e: Event)
    requires i < |b.ports|
  {
    match e
    case SentConfig(t, s, p, m) =>
      && t >= b.now && |s.ports| == |b.ports|
      && (forall j | 0 <= j < |b.ports| :: s.ports[j].portNo == b.ports[j].portNo)
      && s.ports[i].messageAgeTimer.start == b.ports[i].messageAgeTimer.start
      && (p.portNo == b.ports[i].portNo ==> p.Enabled() == b.ports[i].Enabled())
    case SentTcn(t, p) =>
      t >= b.now && (p.portNo == b.ports[i].portNo ==> p.Enabled() == b.ports[i].Enabled())
    case _ => true
  }

  ghost predicate SameNumbers(b: Bridge, c: Bridge) {
    |c.ports| == |b.ports| && forall j | 0 <= j < |b.ports| :: c.ports[j].portNo == b.ports[j].portNo
  }

  /** No other port has the number of port i. */
  ghost predicate Alone(b: Bridge, i: nat) {
    i < |b.ports| && forall j | 0 <= j < |b.ports| && j != i :: b.ports[j].portNo != b.ports[i].portNo
  }

  /** From b to c nothing happens to port i, and what is logged on the way agrees. */
  ghost predicate Goes(b: Bridge, c: Bridge, i: nat) {
    && i < |b.ports| && SameNumbers(b, c) && b.now <= c.now
    && Twin(b.ports[i], c.ports[i])
    && b.trace <= c.trace
    && forall k | |b.trace| <= k < |c.trace| :: Logged(b, i, c.trace[k])
  }

  lemma GoesTransitive(a: Bridge, b: Bridge, c: Bridge, i: nat)
    requires Goes(a, b, i) && Goes(b, c, i)
    ensures Goes(a, c, i)
  {
    hide Twin;
    assert Twin(a.ports[i], c.ports[i]) by { TwinTransitive(a.ports[i], b.ports[i], c.ports[i]); }
    forall k | |a.trace| <= k < |c.trace|
      ensures Logged(a, i, c.trace[k])
    {
      if k < |b.trace| {
        assert b.trace[k] == c.trace[k];
      } else {
        LoggedBefore(a, b, i, c.trace[k]);
      }
    }
  }

  lemma TwinTransitive(p: Port, q: Port, r: Port)
    requires Twin(p, q) && Twin(q, r)
    ensures Twin(p, r)
  {
  }

  lemma LoggedBefore(a: Bridge, b: Bridge, i: nat, e: Event)
    requires i < |a.ports| && SameNumbers(a, b) && a.now <= b.now && Twin(a.ports[i], b.ports[i]) && Logged(b, i, e)
    ensures Logged(a, i, e)
  {
  }

  lemma AloneStays(b: Bridge, c: Bridge, i: nat)
    requires Alone(b, i) && SameNumbers(b, c)
    ensures Alone(c, i)
  {
  }

  // ----- single changes ---------------------------------------------------------------------

  /** Only fields of the bridge itself change. */
  lemma FieldsGo(b: Bridge, c: Bridge, i: nat)
    requires i < |b.ports| && c.ports == b.ports && b.now <= c.now && c.trace == b.trace
    ensures Goes(b, c, i)
  {
  }

  lemma PortGoes(b: Bridge, j: nat, q: Port, i: nat)
    requires i < |b.ports| && j < |b.ports| && q.portNo == b.ports[j].portNo && (j == i ==> Twin(b.ports[i], q))
    ensures Goes(b, SetPort(b, j, q), i)
  {
  }

  lemma EmitGoes(b: Bridge, e: Event, i: nat)
    requires i < |b.ports| && Logged(b, i, e)
    ensures Goes(b, Emit(b, e), i) && Goes(b, b.(trace := b.trace + [e]), i)
  {
    hide Logged;
  }

  lemma TransmitGoes(b: Bridge, j: nat, i: nat)
    requires Alone(b, i) && j < |b.ports| && b.ports[j].Enabled()
    ensures Goes(b, TransmitConfig(b, j), i)
  {
    hide Goes, ConfigFor;
    var p := b.ports[j];
    if p.holdTimer.running {
      PortGoes(b, j, p.(configPending := true), i);
    } else {
      var e := SentConfig(b.now, SenderOf(b), p, ConfigFor(b, p));
      var c := Emit(b, e);
      var q := p.(topologyChangeAck := false, configPending := false, holdTimer := Started(b.now));
      EmitGoes(b, e, i);
      PortGoes(c, j, q, i);
      GoesTransitive(b, c, SetPort(c, j, q), i);
    }
  }

  /** The port list changes without anything happening to port i. */
  lemma PortsGo(b: Bridge, c: Bridge, i: nat)
    requires i < |b.ports| && SameNumbers(b, c) && c.now == b.now && c.trace == b.trace && Twin(b.ports[i], c.ports[i])
    ensures Goes(b, c, i)
  {
  }

  lemma {:induction false} GenerationGoes(b: Bridge, k: nat, i: nat)
    requires Alone(b, i) && k <= |b.ports|
    ensures Goes(b, ConfigGeneration(b, k), i)
    decreases k
  {
    hide Goes, TransmitConfig;
    if k == 0 {
      FieldsGo(b, b, i);
    } else {
      var c := ConfigGeneration(b, k - 1);
      GenerationGoes(b, k - 1, i);
      AloneAfter(b, c, i);
      if c.ports[k - 1].Enabled() {
        TransmitGoes(c, k - 1, i);
        GoesTransitive(b, c, TransmitConfig(c, k - 1), i);
      }
    }
  }

  lemma AloneAfter(b: Bridge, c: Bridge, i: nat)
    requires Alone(b, i) && Goes(b, c, i)
    ensures Alone(c, i) && |c.ports| == |b.ports|
  {
    AloneStays(b, c, i);
  }

  lemma TcnGoes(b: Bridge, i: nat)
    requires Alone(b, i)
    ensures Goes(b, TransmitTcn(b), i)
  {
    hide Goes;
    var r := FindPort(b.ports, b.rootPort);
    if r == -1 {
      FieldsGo(b, b, i);
    } else {
      EmitGoes(b, SentTcn(b.now, b.ports[r]), i);
    }
  }

  lemma DetectionGoes(b: Bridge, i: nat)
    requires Alone(b, i)
    ensures Goes(b, TopologyChangeDetection(b), i)
  {
    hide Goes, TransmitTcn;
    var c := TransmitTcn(b);
    TcnGoes(b, i);
    if !IsRoot(b) && !b.topologyChangeDetected {
      FieldsGo(c, TopologyChangeDetection(b), i);
      GoesTransitive(b, c, TopologyChangeDetection(b), i);
    } else {
      FieldsGo(b, TopologyChangeDetection(b), i);
    }
  }

  lemma BlockingGoes(b: Bridge, j: nat, i: nat)
    requires Alone(b, i) && j < |b.ports|
    ensures Goes(b, MakeBlocking(b, j), i)
  {
    hide Goes, TopologyChangeDetection;
    var p := b.ports[j];
    if p.state == Disabled || p.state == Blocking {
      FieldsGo(b, b, i);
    } else {
      var c := if p.state == Forwarding || p.state == Learning then TopologyChangeDetection(b) else b;
      FieldsGo(b, b, i);
      DetectionGoes(b, i);
      DetectionPorts(b);
      var q := p.(state := Blocking, forwardDelayTimer := p.forwardDelayTimer.Clear());
      PortGoes(c, j, q, i);
      GoesTransitive(b, c, SetPort(c, j, q), i);
    }
  }

  lemma DetectionPorts(b: Bridge)
    ensures TopologyChangeDetection(b).ports == b.ports
  {
  }

  lemma SelectGoes(b: Bridge, j: nat, i: nat)
    requires Alone(b, i) && j < |b.ports|
    ensures Goes(b, SelectState(b, j), i)
  {
    hide Goes, MakeBlocking;
    var p := b.ports[j];
    if !p.Enabled() {
      FieldsGo(b, b, i);
    } else if p.portNo == b.rootPort {
      PortGoes(b, j, MakeForwarding(b, p.(configPending := false, topologyChangeAck := false)), i);
    } else if IsDesignated(b, p) {
      PortGoes(b, j, MakeForwarding(b, p.(messageAgeTimer := p.messageAgeTimer.Clear())), i);
    } else {
      var q := p.(configPending := false, topologyChangeAck := false);
      var c := SetPort(b, j, q);
      PortGoes(b, j, q, i);
      AloneAfter(b, c, i);
      BlockingGoes(c, j, i);
      GoesTransitive(b, c, MakeBlocking(c, j), i);
    }
  }

  lemma {:induction false} SelectionGoes(b: Bridge, k: nat, i: nat)
    requires Alone(b, i) && k <= |b.ports|
    ensures Goes(b, StateSelection(b, k), i)
    decreases k
  {
    hide Goes, SelectState;
    if k == 0 {
      FieldsGo(b, b, i);
    } else {
      var c := StateSelection(b, k - 1);
      SelectionGoes(b, k - 1, i);
      AloneAfter(b, c, i);
      SelectGoes(c, k - 1, i);
      GoesTransitive(b, c, SelectState(c, k - 1), i);
    }
  }

  lemma ReconfigureGoes(b: Bridge, i: nat)
    requires Alone(b, i)
    ensures Goes(b, Reconfigure(b), i)
  {
    hide Goes, StateSelection, RootSelection;
    var c := ConfigurationUpdate(b);
    RootSelectionOnly(b);
    PortsGo(b, c, i);
    AloneAfter(b, c, i);
    SelectionGoes(c, |c.ports|, i);
    GoesTransitive(b, c, Reconfigure(b), i);
  }

  lemma BecomeRootGoes(b: Bridge, i: nat)
    requires Alone(b, i)
    ensures Goes(b, BecomeRoot(b), i)
  {
    hide Goes, TopologyChangeDetection, ConfigGeneration;
    var a := b.(maxAge := b.bridgeMaxAge, helloTime := b.bridgeHelloTime, forwardDelay := b.bridgeForwardDelay);
    FieldsGo(b, a, i);
    AloneAfter(b, a, i);
    var c := TopologyChangeDetection(a);
    DetectionGoes(a, i);
    GoesTransitive(b, a, c, i);
    var d := c.(tcnTimer := c.tcnTimer.Clear());
    FieldsGo(c, d, i);
    GoesTransitive(b, c, d, i);
    AloneAfter(b, d, i);
    var e := ConfigGeneration(d, |d.ports|);
    GenerationGoes(d, |d.ports|, i);
    GoesTransitive(b, d, e, i);
    FieldsGo(e, BecomeRoot(b), i);
    GoesTransitive(b, e, BecomeRoot(b), i);
  }

  /** Reconfiguring, and taking over the root role if it has become free. */
  lemma PromoteGoes(a: Bridge, b: Bridge, wasRoot: bool, i: nat)
    requires Alone(a, i) && Goes(a, b, i)
    ensures Goes(a, BecomeRootIfNew(Reconfigure(b), wasRoot), i)
  {
    hide Goes, Reconfigure, BecomeRoot;
    AloneAfter(a, b, i);
    var c := Reconfigure(b);
    ReconfigureGoes(b, i);
    GoesTransitive(a, b, c, i);
    AloneAfter(a, c, i);
    BecomeRootGoes(c, i);
    GoesTransitive(a, c, BecomeRoot(c), i);
  }

  lemma LoseRootGoes(b: Bridge, i: nat)
    requires Alone(b, i)
    ensures Goes(b, LoseRoot(b), i)
  {
    hide Goes, TransmitTcn;
    var c := b.(helloTimer := b.helloTimer.Clear());
    FieldsGo(b, c, i);
    if c.topologyChangeDetected {
      var d := c.(topologyChangeTimer := c.topologyChangeTimer.Clear());
      FieldsGo(b, d, i);
      AloneAfter(b, d, i);
      TcnGoes(d, i);
      GoesTransitive(b, d, TransmitTcn(d), i);
      FieldsGo(TransmitTcn(d), LoseRoot(b), i);
      GoesTransitive(b, TransmitTcn(d), LoseRoot(b), i);
    }
  }

  lemma RelayGoes(b: Bridge, m: ConfigBpdu, i: nat)
    requires Alone(b, i)
    ensures Goes(b, RelayFromRoot(b, m), i)
  {
    hide Goes, ConfigGeneration;
    var c := RecordTimeouts(b, m);
    FieldsGo(b, c, i);
    AloneAfter(b, c, i);
    var d := ConfigGeneration(c, |c.ports|);
    GenerationGoes(c, |c.ports|, i);
    GoesTransitive(b, c, d, i);
    FieldsGo(d, TopologyChangeAcknowledged(d), i);
    GoesTransitive(b, d, TopologyChangeAcknowledged(d), i);
  }

  /** What follows once a message has been recorded. */
  lemma RecordedGoes(b: Bridge, j: nat, m: ConfigBpdu, i: nat)
    requires Alone(b, i) && j < |b.ports|
    ensures Goes(RecordConfig(b, j, m), AcceptConfig(b, j, m), i)
  {
    hide Goes, Reconfigure, LoseRoot, RelayFromRoot, RecordConfig;
    var a := RecordConfig(b, j, m);
    assert Alone(a, i) by { RecordAlone(b, j, m, i); }
    var c := Reconfigure(a);
    ReconfigureGoes(a, i);
    AloneAfter(a, c, i);
    LoseRootGoes(c, i);
    GoesTransitive(a, c, LoseRoot(c), i);
    var d := if IsRoot(b) && !IsRoot(c) then LoseRoot(c) else c;
    AloneAfter(a, d, i);
    RelayGoes(d, m, i);
    GoesTransitive(a, d, RelayFromRoot(d, m), i);
  }

  lemma RecordAlone(b: Bridge, j: nat, m: ConfigBpdu, i: nat)
    requires Alone(b, i) && j < |b.ports|
    ensures Alone(RecordConfig(b, j, m), i) && RecordConfig(b, j, m).trace == b.trace
    ensures i != j ==> Goes(b, RecordConfig(b, j, m), i)
  {
    if i != j {
      PortGoes(b, j, RecordConfig(b, j, m).ports[j], i);
    }
  }

  lemma ReceivedConfigGoes(b: Bridge, j: nat, m: ConfigBpdu, i: nat)
    requires Alone(b, i) && j < |b.ports| && (j == i ==> !b.ports[i].Enabled())
    ensures Goes(b, ReceivedConfig(b, j, m), i)
  {
    hide Goes, AcceptConfig, TransmitConfig, Supersedes, RecordConfig;
    FieldsGo(b, b, i);
    if b.ports[j].Enabled() {
      RecordAlone(b, j, m, i);
      RecordedGoes(b, j, m, i);
      GoesTransitive(b, RecordConfig(b, j, m), AcceptConfig(b, j, m), i);
      TransmitGoes(b, j, i);
    }
  }

  lemma ReceivedTcnGoes(b: Bridge, j: nat, i: nat)
    requires Alone(b, i) && j < |b.ports|
    ensures Goes(b, ReceivedTcn(b, j), i)
  {
    hide Goes, TopologyChangeDetection, TransmitConfig;
    FieldsGo(b, b, i);
    var p := b.ports[j];
    if p.Enabled() && IsDesignated(b, p) {
      var c := TopologyChangeDetection(b);
      DetectionGoes(b, i);
      DetectionPorts(b);
      var d := SetPort(c, j, p.(topologyChangeAck := true));
      PortGoes(c, j, p.(topologyChangeAck := true), i);
      GoesTransitive(b, c, d, i);
      AloneAfter(b, d, i);
      TransmitGoes(d, j, i);
      GoesTransitive(b, d, TransmitConfig(d, j), i);
    }
  }

  // ----- timers -----------------------------------------------------------------------------

  lemma MessageAgeGoes(b: Bridge, j: nat, i: nat)
    requires Alone(b, i) && j < |b.ports|
    ensures Goes(b, CheckMessageAge(b, j), i)
  {
    hide Goes, Reconfigure, BecomeRoot;
    FieldsGo(b, b, i);
    var p := b.ports[j];
    var c := SetPort(b, j, p.(messageAgeTimer := p.messageAgeTimer.Clear()));
    PortGoes(b, j, c.ports[j], i);
    var d := SetPort(c, j, BecomeDesignated(c, c.ports[j]));
    PortGoes(c, j, d.ports[j], i);
    GoesTransitive(b, c, d, i);
    PromoteGoes(b, d, IsRoot(c), i);
  }

  lemma AdvanceGoes(b: Bridge, j: nat, i: nat)
    requires Alone(b, i) && j < |b.ports| && b.ports[j].Enabled()
    ensures var q := Advanced(b, b.ports[j]);
            var d := SetPort(b.(trace := b.trace + [DelayExpired(q.portNo)]), j, q);
            Goes(b, d, i) && Goes(b, TopologyChangeDetection(d), i)
  {
    hide Goes, TopologyChangeDetection;
    var q := Advanced(b, b.ports[j]);
    var l := b.(trace := b.trace + [DelayExpired(q.portNo)]);
    var d := SetPort(l, j, q);
    EmitGoes(b, DelayExpired(q.portNo), i);
    PortGoes(l, j, q, i);
    GoesTransitive(b, l, d, i);
    AloneAfter(b, d, i);
    DetectionGoes(d, i);
    GoesTransitive(b, d, TopologyChangeDetection(d), i);
  }

  lemma ForwardDelayGoes(b: Bridge, j: nat, i: nat)
    requires Alone(b, i) && j < |b.ports| && b.ports[j].Enabled()
    ensures Goes(b, CheckForwardDelay(b, j), i)
  {
    hide Goes, TopologyChangeDetection, DesignatedForSomePort;
    FieldsGo(b, b, i);
    var p := b.ports[j];
    if p.forwardDelayTimer.Expired(b.forwardDelay, b.now) {
      if p.state == Listening || p.state == Learning {
        CheckForwardDelayIs(b, j);
        AdvanceGoes(b, j, i);
      } else {
        var off := SetPort(b, j, p.(forwardDelayTimer := p.forwardDelayTimer.Clear()));
        PortGoes(b, j, off.ports[j], i);
        EmitGoes(off, DelayExpired(p.portNo), i);
        GoesTransitive(b, off, CheckForwardDelay(b, j), i);
      }
    }
  }

  lemma HoldGoes(b: Bridge, j: nat, i: nat)
    requires Alone(b, i) && j < |b.ports| && b.ports[j].Enabled()
    ensures Goes(b, CheckHold(b, j), i)
  {
    hide Goes, TransmitConfig;
    FieldsGo(b, b, i);
    var p := b.ports[j];
    var c := SetPort(b, j, p.(holdTimer := p.holdTimer.Clear()));
    PortGoes(b, j, c.ports[j], i);
    AloneAfter(b, c, i);
    TransmitGoes(c, j, i);
    GoesTransitive(b, c, TransmitConfig(c, j), i);
  }

  /** A port is up as long as nothing happens to it. */
  lemma UpStays(b: Bridge, c: Bridge, j: nat)
    requires Goes(b, c, j)
    ensures |c.ports| == |b.ports| && c.ports[j].Enabled() == b.ports[j].Enabled()
  {
  }

  lemma PortTimersGo(b: Bridge, j: nat, i: nat)
    requires Alone(b, i) && Alone(b, j) && b.ports[j].Enabled()
    ensures Goes(b, CheckPortTimers(b, j), i)
  {
    hide Goes, CheckMessageAge, CheckForwardDelay, CheckHold;
    var c := CheckMessageAge(b, j);
    MessageAgeGoes(b, j, i);
    MessageAgeGoes(b, j, j);
    UpStays(b, c, j);
    AloneAfter(b, c, i);
    AloneAfter(b, c, j);
    var d := CheckForwardDelay(c, j);
    ForwardDelayGoes(c, j, i);
    ForwardDelayGoes(c, j, j);
    UpStays(c, d, j);
    GoesTransitive(b, c, d, i);
    AloneAfter(b, d, i);
    HoldGoes(d, j, i);
    GoesTransitive(b, d, CheckHold(d, j), i);
  }

  ghost predicate AllAlone(b: Bridge) {
    forall j | 0 <= j < |b.ports| :: Alone(b, j)
  }

  lemma AllAloneStays(b: Bridge, c: Bridge)
    requires AllAlone(b) && SameNumbers(b, c)
    ensures AllAlone(c)
  {
    forall j | 0 <= j < |c.ports|
      ensures Alone(c, j)
    {
      assert Alone(b, j);
    }
  }

  lemma NumbersAfter(b: Bridge, c: Bridge, i: nat)
    requires AllAlone(b) && Goes(b, c, i)
    ensures AllAlone(c) && |c.ports| == |b.ports|
  {
    AllAloneStays(b, c);
  }

  lemma {:induction false} AllPortsGo(b: Bridge, k: nat, i: nat)
    requires AllAlone(b) && i < |b.ports| && k <= |b.ports|
    ensures Goes(b, CheckAllPorts(b, k), i)
    decreases k
  {
    hide Goes, CheckPortTimers, Alone;
    if k == 0 {
      FieldsGo(b, b, i);
    } else {
      var c := CheckAllPorts(b, k - 1);
      AllPortsGo(b, k - 1, i);
      NumbersAfter(b, c, i);
      if c.ports[k - 1].Enabled() {
        PortTimersGo(c, k - 1, i);
        GoesTransitive(b, c, CheckPortTimers(c, k - 1), i);
      }
    }
  }

  lemma HelloGoes(b: Bridge, i: nat)
    requires Alone(b, i)
    ensures Goes(b, CheckHello(b), i)
  {
    hide Goes, ConfigGeneration;
    FieldsGo(b, b, i);
    var a := b.(helloTimer := b.helloTimer.Clear());
    FieldsGo(b, a, i);
    AloneAfter(b, a, i);
    var c := ConfigGeneration(a, |a.ports|);
    GenerationGoes(a, |a.ports|, i);
    GoesTransitive(b, a, c, i);
    FieldsGo(c, c.(helloTimer := Started(b.now)), i);
    GoesTransitive(b, c, c.(helloTimer := Started(b.now)), i);
  }

  lemma TcnTimerGoes(b: Bridge, i: nat)
    requires Alone(b, i)
    ensures Goes(b, CheckTcn(b), i)
  {
    hide Goes, TransmitTcn;
    FieldsGo(b, b, i);
    var a := b.(tcnTimer := b.tcnTimer.Clear());
    FieldsGo(b, a, i);
    AloneAfter(b, a, i);
    var c := TransmitTcn(a);
    TcnGoes(a, i);
    GoesTransitive(b, a, c, i);
    FieldsGo(c, c.(tcnTimer := Started(b.now)), i);
    GoesTransitive(b, c, c.(tcnTimer := Started(b.now)), i);
  }

  lemma TickGoes(b: Bridge, i: nat)
    requires AllAlone(b) && i < |b.ports|
    ensures Goes(b, CheckTimers(b), i)
  {
    hide Goes, CheckHello, CheckTcn, CheckAllPorts, Alone;
    var c := CheckHello(b);
    HelloGoes(b, i);
    NumbersAfter(b, c, i);
    var d := CheckTcn(c);
    TcnTimerGoes(c, i);
    GoesTransitive(b, c, d, i);
    NumbersAfter(b, d, i);
    var e := CheckTopologyChange(d);
    FieldsGo(d, e, i);
    GoesTransitive(b, d, e, i);
    NumbersAfter(b, e, i);
    AllPortsGo(e, |e.ports|, i);
    GoesTransitive(b, e, CheckAllPorts(e, |e.ports|), i);
  }

  // ----- management -------------------------------------------------------------------------

  lemma CloseGoes(b: Bridge, j: nat, i: nat)
    requires Alone(b, i) && j < |b.ports| && (j == i ==> !b.ports[i].Enabled())
    ensures Goes(b, ClosePort(b, j), i)
  {
    hide Goes;
    var e := PortReset(b.ports[j].portNo);
    var c := b.(trace := b.trace + [e]);
    EmitGoes(b, e, i);
    PortGoes(c, j, ClosePort(b, j).ports[j], i);
    GoesTransitive(b, c, ClosePort(b, j), i);
  }

  lemma InitGoes(b: Bridge, j: nat, i: nat)
    requires Alone(b, i) && j < |b.ports| && j != i
    ensures Goes(b, InitPort(b, j), i)
  {
    hide Goes;
    var e := PortReset(b.ports[j].portNo);
    var c := b.(trace := b.trace + [e]);
    EmitGoes(b, e, i);
    PortGoes(c, j, InitPort(b, j).ports[j], i);
    GoesTransitive(b, c, InitPort(b, j), i);
  }

  /** The event is about port i: it is brought up, or is up and taken down or hears a message. */
  predicate Touches(b: Bridge, e: Input, i: nat)
    requires i < |b.ports|
  {
    e == PortUp(i) || (b.ports[i].Enabled() && (e == PortDown(i) || (e.ConfigReceived? && e.port == i)))
  }

  /** Nothing happens to a port in an event that is not about it. */
  lemma StepGoes(b: Bridge, e: Input, i: nat)
    requires AllAlone(b) && i < |b.ports| && Allowed(b, e) && !Touches(b, e, i)
    ensures Goes(b, Step(b, e), i)
  {
    hide Goes, Reconfigure, BecomeRoot, ReceivedConfig, ReceivedTcn, CheckTimers, StateSelection, ClosePort, InitPort;
    assert Alone(b, i);
    match e
    case ConfigReceived(j, m) => ReceivedConfigGoes(b, j, m, i);
    case TcnReceived(j) => ReceivedTcnGoes(b, j, i);
    case Tick => TickGoes(b, i);
    case PortUp(j) =>
      InitGoes(b, j, i);
      var c := InitPort(b, j);
      AloneAfter(b, c, i);
      SelectionGoes(c, |c.ports|, i);
      GoesTransitive(b, c, EnablePort(b, j), i);
    case PortDown(j) =>
      CloseGoes(b, j, i);
      PromoteGoes(b, ClosePort(b, j), IsRoot(b), i);
    case NewAddress(addr) =>
      PortsGo(b, Renamed(b, addr), i);
      PromoteGoes(b, Renamed(b, addr), IsRoot(b), i);
    case NewPriority(priority) =>
      PortsGo(b, Ranked(b, priority), i);
      PromoteGoes(b, Ranked(b, priority), IsRoot(b), i);
    case NewPathCost(j, cost) =>
      var c := SetPort(b, j, b.ports[j].(pathCost := cost));
      PortGoes(b, j, c.ports[j], i);
      AloneAfter(b, c, i);
      ReconfigureGoes(c, i);
      GoesTransitive(b, c, Reconfigure(c), i);
  }

  // ----- up and down ------------------------------------------------------------------------

  lemma InvAlone(b: Bridge)
    requires Inv(b)
    ensures AllAlone(b)
  {
  }

  /** Taking a port down takes it down, with nothing pending and no timer left running, and every other
      port is up exactly when it was. */
  lemma PortDownIs(b: Bridge, i: nat, j: nat)
    requires Inv(b) && i < |b.ports| && j < |b.ports|
    ensures var c := Step(b, PortDown(i));
            && |c.ports| == |b.ports| && Off(c.ports[i])
            && (j != i ==> c.ports[j].Enabled() == b.ports[j].Enabled())
  {
    hide Inv, Reconfigure, BecomeRoot;
    InvAlone(b);
    var a := ClosePort(b, i);
    assert Off(a.ports[i]);
    AllAloneStays(b, a);
    FieldsGo(a, a, i);
    PromoteGoes(a, a, IsRoot(b), i);
    if j != i {
      StepGoes(b, PortDown(i), j);
    }
  }

  /** Bringing a port up brings it up, as a designated port, and no other port. */
  lemma PortUpIs(b: Bridge, i: nat, j: nat)
    requires Inv(b) && Allowed(b, PortUp(i)) && j < |b.ports|
    ensures var c := Step(b, PortUp(i));
            && |c.ports| == |b.ports| && c.ports[i].Enabled() && IsDesignated(c, c.ports[i])
            && (j != i ==> c.ports[j].Enabled() == b.ports[j].Enabled())
  {
    hide Inv, StateSelection;
    InvAlone(b);
    var a := InitPort(b, i);
    AllAloneStays(b, a);
    SelectionGoes(a, |a.ports|, i);
    StateSelectionHeld(a, |a.ports|);
    assert SameRole(a.ports[i], Step(b, PortUp(i)).ports[i]);
    if j != i {
      StepGoes(b, PortUp(i), j);
    }
  }

  // ----- runs -------------------------------------------------------------------------------

  /** No event of the run is about port i when it happens. */
  ghost predicate Untouched(b: Bridge, run: seq<(int, Input)>, i: nat)
    requires i < |b.ports|
    decreases |run|
  {
    run == []
    || (var (now, e) := run[0];
        var a := b.(now := now);
        !Touches(a, e, i) && (Allowed(a, e) ==> i < |Step(a, e).ports| && Untouched(Step(a, e), run[1..], i)))
  }

  lemma {:induction false} RunGoes(b: Bridge, run: seq<(int, Input)>, c: Bridge, i: nat)
    requires Inv(b) && i < |b.ports| && Reaches(b, run, c) && Untouched(b, run, i)
    ensures Goes(b, c, i)
    decreases |run|
  {
    hide Inv, Goes, Step, Allowed, Touches;
    if run == [] {
      FieldsGo(b, b, i);
    } else {
      var (now, e) := run[0];
      var a := b.(now := now);
      FieldsGo(b, a, i);
      TimePasses(b, now);
      InvAlone(a);
      StepGoes(a, e, i);
      StepKeeps(a, e);
      GoesTransitive(b, a, Step(a, e), i);
      RunGoes(Step(a, e), run[1..], c, i);
      GoesTransitive(b, Step(a, e), c, i);
    }
  }

  /** Over any run in which it is not brought up, a port that is down stays down, and no message leaves
      it. */
  lemma DownStaysDown(b: Bridge, run: seq<(int, Input)>, c: Bridge, i: nat, k: nat)
    requires Inv(b) && i < |b.ports| && !b.ports[i].Enabled() && Reaches(b, run, c)
    requires forall n | 0 <= n < |run| :: run[n].1 != PortUp(i)
    ensures |c.ports| == |b.ports| && !c.ports[i].Enabled() && (Off(b.ports[i]) ==> Off(c.ports[i]))
    ensures |b.trace| <= k < |c.trace| && (c.trace[k].SentConfig? || c.trace[k].SentTcn?)
            ==> c.trace[k].from.portNo != b.ports[i].portNo
  {
    hide Step, Reaches, Allowed;
    DownUntouched(b, run, c, i);
    RunGoes(b, run, c, i);
    RunKeeps(b, run, c);
    if |b.trace| <= k < |c.trace| {
      EveryEventOk(c.trace, c.hz, k);
      assert Logged(b, i, c.trace[k]);
    }
  }

  lemma {:induction false} DownUntouched(b: Bridge, run: seq<(int, Input)>, c: Bridge, i: nat)
    requires Inv(b) && i < |b.ports| && !b.ports[i].Enabled() && Reaches(b, run, c)
    requires forall n | 0 <= n < |run| :: run[n].1 != PortUp(i)
    ensures Untouched(b, run, i)
    decreases |run|
  {
    hide Inv, Goes, Step, Allowed;
    if run != [] {
      var (now, e) := run[0];
      var a := b.(now := now);
      TimePasses(b, now);
      InvAlone(a);
      assert e == run[0].1;
      StepGoes(a, e, i);
      StepKeeps(a, e);
      UpStays(a, Step(a, e), i);
      DownUntouched(Step(a, e), run[1..], c, i);
    }
  }

  // ----- the age of what is passed on -------------------------------------------------------

  /** From an accepted message on, until the next one on that port: whatever the bridge sends while that
      port is its root port has the age of the message, the time since, and one more. */
  lemma PassedOnOlder(b: Bridge, i: nat, m: ConfigBpdu, run: seq<(int, Input)>, c: Bridge, k: nat)
    requires Inv(b) && Allowed(b, ConfigReceived(i, m)) && b.ports[i].Enabled() && Supersedes(b, b.ports[i], m.vector)
    requires var a := Step(b, ConfigReceived(i, m));
             i < |a.ports| && Reaches(a, run, c) && Untouched(a, run, i)
    requires |b.trace| <= k < |c.trace| && c.trace[k].SentConfig?
    requires var s := c.trace[k].sender; s.bridgeId != s.designatedRoot && s.rootPort == b.ports[i].portNo
    ensures c.trace[k].bpdu.messageAge == m.messageAge + (c.trace[k].time - b.now) + 1 >= m.messageAge + 1
  {
    hide Inv, AcceptConfig, Reaches, Untouched, Supersedes;
    var e := c.trace[k];
    var r := RecordConfig(b, i, m);
    var a := AcceptConfig(b, i, m);
    InvAlone(b);
    RecordedGoes(b, i, m, i);
    StepKeeps(b, ConfigReceived(i, m));
    RunGoes(a, run, c, i);
    GoesTransitive(r, a, c, i);
    assert Logged(r, i, e);
    RunKeeps(a, run, c);
    assert ContentOk(e.time, e.sender, e.from, e.bpdu) by { LoggedContent(c, k); }
    var p :| 0 <= p < |e.sender.ports| && RootOf(e.sender, p)
             && e.bpdu.messageAge == e.time - e.sender.ports[p].messageAgeTimer.start + 1;
    assert Alone(b, i) && e.sender.ports[p].portNo == b.ports[p].portNo;
    assert p == i;
  }

  lemma LoggedContent(c: Bridge, k: nat)
    requires Inv(c) && k < |c.trace| && c.trace[k].SentConfig?
    ensures var e := c.trace[k]; ContentOk(e.time, e.sender, e.from, e.bpdu)
  {
    EveryEventOk(c.trace, c.hz, k);
  }
}
