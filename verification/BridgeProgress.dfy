/**
 How a port gets from blocking to forwarding: only forward-delay expiries move it ahead.
 */
module BridgeProgress {
  import opened BridgeTypes
  import opened BridgeSpec
  import opened BridgeRoles
  import opened BridgeInvariant
  import opened BridgeRuns

  /** How many forward-delay expiries a port still on must have seen with the protocol on. */
  function Level(s: PortState): nat {
    match s
    case Learning => 1
    case Forwarding => 2
    case _ => 0
  }

  function Expiries(trace: seq<Event>, no: int): nat {
    if trace == [] then 0
    else Expiries(trace[..|trace| - 1], no) + if trace[|trace| - 1] == DelayExpired(no) then 1 else 0
  }

  lemma {:induction false} ExpiriesGrow(trace: seq<Event>, longer: seq<Event>, no: int)
    requires trace <= longer
    ensures Expiries(trace, no) <= Expiries(longer, no)
    decreases |longer|
  {
    if |trace| < |longer| {
      ExpiriesGrow(trace, longer[..|longer| - 1], no);
    } else {
      assert trace == longer;
    }
  }

  // ----- operations that move no port ahead ------------------------------------------------

  /** With the protocol on the port stays as it is, is blocked or taken down, or begins to listen after
      now; without it no port begins to listen. */
  predicate PortHeld(stp: bool, now: int, p: Port, q: Port) {
    && q.portNo == p.portNo
    && (stp ==>
          || (q.state == p.state && q.forwardDelayTimer.start == p.forwardDelayTimer.start)
          || q.state == Blocking || q.state == Disabled
          || (q.state == Listening && q.forwardDelayTimer.start >= now))
    && (!stp && q.state == Listening ==> p.state == Listening)
  }

  predicate IsMessage(e: Event) {
    e.SentConfig? || e.SentTcn?
  }

  /** The log has grown, without the protocol by no message. */
  predicate Silent(b: Bridge, c: Bridge) {
    b.trace <= c.trace && (!b.stpEnabled ==> forall k | |b.trace| <= k < |c.trace| :: !IsMessage(c.trace[k]))
  }

  ghost predicate Held(b: Bridge, c: Bridge) {
    && |c.ports| == |b.ports|
    && c.stpEnabled == b.stpEnabled
    && Silent(b, c) && b.now <= c.now
    && forall i | 0 <= i < |b.ports| :: PortHeld(b.stpEnabled, b.now, b.ports[i], c.ports[i])
  }

  lemma HeldTransitive(a: Bridge, b: Bridge, c: Bridge)
    requires Held(a, b) && Held(b, c)
    ensures Held(a, c)
  {
    forall i | 0 <= i < |a.ports|
      ensures PortHeld(a.stpEnabled, a.now, a.ports[i], c.ports[i])
    {
      assert PortHeld(a.stpEnabled, a.now, a.ports[i], b.ports[i]) && PortHeld(b.stpEnabled, b.now, b.ports[i], c.ports[i]);
    }
  }

  lemma TransmitHeld(b: Bridge, i: nat)
    requires i < |b.ports|
    ensures Held(b, TransmitConfig(b, i)) && Held(b, GenerateFor(b, i))
  {
  }

  lemma GenerateHeld(b: Bridge, c: Bridge, i: nat)
    requires Held(b, c) && i < |c.ports|
    ensures Held(b, GenerateFor(c, i))
  {
    TransmitHeld(c, i);
    HeldTransitive(b, c, GenerateFor(c, i));
  }

  lemma {:induction false} GenerationHeld(b: Bridge, k: nat)
    requires k <= |b.ports|
    ensures Held(b, ConfigGeneration(b, k))
    decreases k
  {
    if k > 0 {
      var c := ConfigGeneration(b, k - 1);
      GenerationHeld(b, k - 1);
      GenerateHeld(b, c, k - 1);
    }
  }

  lemma DetectionHeld(b: Bridge)
    ensures Held(b, TopologyChangeDetection(b)) && TopologyChangeDetection(b).ports == b.ports
    ensures SameRoles(b, TopologyChangeDetection(b))
  {
  }

  lemma PortSetHeld(b: Bridge, i: nat, q: Port)
    requires i < |b.ports| && SameRole(b.ports[i], q) && PortHeld(b.stpEnabled, b.now, b.ports[i], q)
    ensures Held(b, SetPort(b, i, q)) && SameRoles(b, SetPort(b, i, q))
  {
  }

  lemma MakeBlockingHeld(b: Bridge, i: nat)
    requires i < |b.ports|
    ensures Held(b, MakeBlocking(b, i)) && SameRoles(b, MakeBlocking(b, i))
  {
    var p := b.ports[i];
    if p.Enabled() && p.state != Blocking {
      var q := p.(state := Blocking, forwardDelayTimer := p.forwardDelayTimer.Clear());
      DetectionHeld(b);
      var c := if p.state == Forwarding || p.state == Learning then TopologyChangeDetection(b) else b;
      PortSetHeld(c, i, q);
      HeldTransitive(b, c, SetPort(c, i, q));
      SameRolesTransitive(b, c, SetPort(c, i, q));
    }
  }

  lemma SelectStateHeld(b: Bridge, i: nat)
    requires i < |b.ports|
    ensures Held(b, SelectState(b, i)) && SameRoles(b, SelectState(b, i))
  {
    var p := b.ports[i];
    var q := p.(configPending := false, topologyChangeAck := false);
    PortSetHeld(b, i, q);
    PortSetHeld(b, i, MakeForwarding(b, q));
    PortSetHeld(b, i, MakeForwarding(b, p.(messageAgeTimer := p.messageAgeTimer.Clear())));
    var c := SetPort(b, i, q);
    MakeBlockingHeld(c, i);
    HeldTransitive(b, c, MakeBlocking(c, i));
    SameRolesTransitive(b, c, MakeBlocking(c, i));
  }

  lemma {:induction false} StateSelectionHeld(b: Bridge, k: nat)
    requires k <= |b.ports|
    ensures Held(b, StateSelection(b, k)) && SameRoles(b, StateSelection(b, k))
    decreases k
  {
    hide SelectState;
    if k > 0 {
      var c := StateSelection(b, k - 1);
      StateSelectionHeld(b, k - 1);
      SelectStateHeld(c, k - 1);
      HeldTransitive(b, c, SelectState(c, k - 1));
      SameRolesTransitive(b, c, SelectState(c, k - 1));
    }
  }

  lemma UpdateHeld(b: Bridge)
    ensures Held(b, ConfigurationUpdate(b))
  {
    hide RootSelection;
    RootSelectionOnly(b);
  }

  lemma ReconfigureHeld(b: Bridge)
    ensures Held(b, Reconfigure(b))
  {
    hide ConfigurationUpdate, StateSelection, Held, SameRoles;
    UpdateHeld(b);
    var c := ConfigurationUpdate(b);
    StateSelectionHeld(c, |c.ports|);
    HeldTransitive(b, c, Reconfigure(b));
  }

  lemma PromoteHeld(b: Bridge, wasRoot: bool)
    ensures Held(b, BecomeRootIfNew(b, wasRoot))
  {
    if IsRoot(b) && !wasRoot {
      var a := b.(maxAge := b.bridgeMaxAge, helloTime := b.bridgeHelloTime, forwardDelay := b.bridgeForwardDelay);
      var c := TopologyChangeDetection(a);
      DetectionHeld(a);
      var d := c.(tcnTimer := c.tcnTimer.Clear());
      GenerationHeld(d, |d.ports|);
      HeldTransitive(b, d, ConfigGeneration(d, |d.ports|));
    }
  }

  lemma ReconfigureAndPromoteHeld(a: Bridge, b: Bridge, wasRoot: bool)
    requires Held(a, b)
    ensures Held(a, BecomeRootIfNew(Reconfigure(b), wasRoot))
  {
    ReconfigureHeld(b);
    HeldTransitive(a, b, Reconfigure(b));
    PromoteHeld(Reconfigure(b), wasRoot);
    HeldTransitive(a, Reconfigure(b), BecomeRootIfNew(Reconfigure(b), wasRoot));
  }

  lemma RelayHeld(b: Bridge, m: ConfigBpdu)
    ensures Held(b, RelayFromRoot(b, m)) && Held(b, LoseRoot(b))
  {
    var c := RecordTimeouts(b, m);
    GenerationHeld(c, |c.ports|);
  }

  lemma RecordHeld(b: Bridge, i: nat, m: ConfigBpdu)
    requires i < |b.ports|
    ensures Held(b, RecordConfig(b, i, m))
  {
  }

  lemma HeldReflexive(b: Bridge)
    ensures Held(b, b)
  {
  }

  lemma ReceivedConfigHeld(b: Bridge, i: nat, m: ConfigBpdu)
    requires i < |b.ports|
    ensures Held(b, ReceivedConfig(b, i, m))
  {
    hide Held, Reconfigure, LoseRoot, RelayFromRoot, TransmitConfig, Supersedes;
    var a := RecordConfig(b, i, m);
    var c := Reconfigure(a);
    RecordHeld(b, i, m);
    ReconfigureHeld(a);
    HeldTransitive(b, a, c);
    HeldReflexive(b);
    HeldReflexive(c);
    RelayHeld(c, m);
    var d := if IsRoot(b) && !IsRoot(c) then LoseRoot(c) else c;
    HeldTransitive(b, c, d);
    RelayHeld(d, m);
    HeldTransitive(b, d, RelayFromRoot(d, m));
    TransmitHeld(b, i);
  }

  lemma ReceivedTcnHeld(b: Bridge, i: nat)
    requires i < |b.ports|
    ensures Held(b, ReceivedTcn(b, i))
  {
    DetectionHeld(b);
    var c := SetPort(TopologyChangeDetection(b), i, b.ports[i].(topologyChangeAck := true));
    TransmitHeld(c, i);
    HeldTransitive(b, c, TransmitConfig(c, i));
  }

  lemma EnablePortHeld(b: Bridge, i: nat)
    requires i < |b.ports|
    ensures Held(b, EnablePort(b, i))
  {
    var c := InitPort(b, i);
    StateSelectionHeld(c, |c.ports|);
    HeldTransitive(b, c, EnablePort(b, i));
  }

  lemma CheckMessageAgeHeld(b: Bridge, i: nat)
    requires i < |b.ports|
    ensures Held(b, CheckMessageAge(b, i))
  {
    var c := SetPort(b, i, b.ports[i].(messageAgeTimer := b.ports[i].messageAgeTimer.Clear()));
    var d := SetPort(c, i, BecomeDesignated(c, c.ports[i]));
    ReconfigureAndPromoteHeld(b, d, IsRoot(c));
  }

  lemma CheckHoldHeld(b: Bridge, i: nat)
    requires i < |b.ports|
    ensures Held(b, CheckHold(b, i))
  {
    var c := SetPort(b, i, b.ports[i].(holdTimer := b.ports[i].holdTimer.Clear()));
    TransmitHeld(c, i);
    HeldTransitive(b, c, TransmitConfig(c, i));
  }

  lemma CheckBridgeTimersHeld(b: Bridge)
    ensures Held(b, CheckTopologyChange(CheckTcn(CheckHello(b))))
  {
    hide CheckTcn, CheckHello, CheckTopologyChange, Held;
    var c := CheckHello(b);
    CheckHelloHeld(b);
    CheckTcnHeld(c);
    HeldTransitive(b, c, CheckTcn(c));
    CheckTopologyChangeHeld(CheckTcn(c));
    HeldTransitive(b, CheckTcn(c), CheckTopologyChange(CheckTcn(c)));
  }

  lemma CheckHelloHeld(b: Bridge)
    ensures Held(b, CheckHello(b))
  {
    hide ConfigGeneration;
    GenerationHeld(b.(helloTimer := b.helloTimer.Clear()), |b.ports|);
  }

  lemma CheckTcnHeld(b: Bridge)
    ensures Held(b, CheckTcn(b))
  {
  }

  lemma CheckTopologyChangeHeld(b: Bridge)
    ensures Held(b, CheckTopologyChange(b))
  {
  }

  // ----- progress --------------------------------------------------------------------------

  predicate PortPaid(b: Bridge, c: Bridge, p: Port, q: Port) {
    && q.portNo == p.portNo
    && (b.stpEnabled ==>
          Level(q.state) + Expiries(b.trace, p.portNo) <= Level(p.state) + Expiries(c.trace, p.portNo))
  }

  /** Every step ahead was paid for by an expiry. */
  ghost predicate Paid(b: Bridge, c: Bridge) {
    && |c.ports| == |b.ports|
    && c.stpEnabled == b.stpEnabled && Silent(b, c)
    && forall i | 0 <= i < |b.ports| :: PortPaid(b, c, b.ports[i], c.ports[i])
  }

  lemma PaidTransitive(a: Bridge, b: Bridge, c: Bridge)
    requires Paid(a, b) && Paid(b, c)
    ensures Paid(a, c)
  {
    forall i | 0 <= i < |a.ports|
      ensures PortPaid(a, c, a.ports[i], c.ports[i])
    {
      assert PortPaid(a, b, a.ports[i], b.ports[i]) && PortPaid(b, c, b.ports[i], c.ports[i]);
    }
  }

  lemma HeldIsPaid(b: Bridge, c: Bridge)
    requires Held(b, c)
    ensures Paid(b, c)
  {
    forall i | 0 <= i < |b.ports|
      ensures PortPaid(b, c, b.ports[i], c.ports[i])
    {
      assert PortHeld(b.stpEnabled, b.now, b.ports[i], c.ports[i]);
      ExpiriesGrow(b.trace, c.trace, b.ports[i].portNo);
    }
  }

  lemma AdvancePaid(b: Bridge, i: nat, q: Port)
    requires i < |b.ports| && q.portNo == b.ports[i].portNo
    requires Level(q.state) <= Level(b.ports[i].state) + 1
    ensures Paid(b, SetPort(b.(trace := b.trace + [DelayExpired(q.portNo)]), i, q))
  {
    assert (b.trace + [DelayExpired(q.portNo)])[..|b.trace|] == b.trace;
  }

  lemma CheckForwardDelayPaid(b: Bridge, i: nat)
    requires Inv(b) && i < |b.ports| && b.ports[i].Enabled()
    ensures Paid(b, CheckForwardDelay(b, i))
  {
    var p := b.ports[i];
    if p.forwardDelayTimer.Expired(b.forwardDelay, b.now) {
      assert PortOk(b, p);
      var q := Advanced(b, p);
      var d := SetPort(b.(trace := b.trace + [DelayExpired(q.portNo)]), i, q);
      CheckForwardDelayIs(b, i);
      AdvancePaid(b, i, q);
      DetectionHeld(d);
      HeldIsPaid(d, TopologyChangeDetection(d));
      PaidTransitive(b, d, TopologyChangeDetection(d));
    } else {
      HeldIsPaid(b, b);
    }
  }

  lemma CheckPortTimersPaid(b: Bridge, i: nat)
    requires Inv(b) && i < |b.ports| && b.ports[i].Enabled()
    ensures Paid(b, CheckPortTimers(b, i))
  {
    var c := CheckMessageAge(b, i);
    CheckMessageAgeKeeps(b, i);
    CheckMessageAgeHeld(b, i);
    HeldIsPaid(b, c);
    var d := CheckForwardDelay(c, i);
    CheckForwardDelayPaid(c, i);
    PaidTransitive(b, c, d);
    CheckHoldHeld(d, i);
    HeldIsPaid(d, CheckHold(d, i));
    PaidTransitive(b, d, CheckHold(d, i));
  }

  lemma {:induction false} CheckAllPortsPaid(b: Bridge, k: nat)
    requires Inv(b) && k <= |b.ports|
    ensures Paid(b, CheckAllPorts(b, k))
    decreases k
  {
    hide CheckPortTimers, Inv, Paid;
    if k == 0 {
      HeldIsPaid(b, b);
    } else {
      var c := CheckAllPorts(b, k - 1);
      CheckAllPortsPaid(b, k - 1);
      CheckAllPortsKeeps(b, k - 1);
      if c.ports[k - 1].Enabled() {
        CheckPortTimersPaid(c, k - 1);
        PaidTransitive(b, c, CheckPortTimers(c, k - 1));
      }
    }
  }

  lemma CheckBridgeTimersKeeps(b: Bridge)
    requires Inv(b)
    ensures Inv(CheckTopologyChange(CheckTcn(CheckHello(b))))
  {
    hide CheckHello, CheckTcn, Inv;
    CheckHelloKeeps(b);
    CheckTcnKeeps(CheckHello(b));
    CheckTopologyChangeKeeps(CheckTcn(CheckHello(b)));
  }

  lemma CheckTimersPaid(b: Bridge)
    requires Inv(b)
    ensures Paid(b, CheckTimers(b))
  {
    hide CheckHello, CheckTcn, CheckTopologyChange, Inv, Paid;
    var c := CheckTopologyChange(CheckTcn(CheckHello(b)));
    CheckBridgeTimersKeeps(b);
    CheckBridgeTimersHeld(b);
    HeldIsPaid(b, c);
    CheckAllPortsPaid(c, |c.ports|);
    PaidTransitive(b, c, CheckAllPorts(c, |c.ports|));
  }

  lemma CloseHeld(b: Bridge, i: nat)
    requires i < |b.ports|
    ensures Held(b, ClosePort(b, i))
  {
  }

  lemma CostHeld(b: Bridge, i: nat, cost: int)
    requires i < |b.ports|
    ensures Held(b, SetPort(b, i, b.ports[i].(pathCost := cost)))
  {
  }

  lemma RenamedHeld(b: Bridge, addr: int)
    ensures Held(b, Renamed(b, addr))
  {
    hide RenamedId;
  }

  lemma RankedHeld(b: Bridge, priority: int)
    ensures Held(b, Ranked(b, priority))
  {
    hide WithPriority;
  }

  lemma StepHeld(b: Bridge, e: Input)
    requires Allowed(b, e) && !e.Tick?
    ensures Held(b, Step(b, e))
  {
    hide Held, Reconfigure, BecomeRootIfNew, ReceivedConfig, ReceivedTcn, EnablePort, ClosePort, Renamed, Ranked;
    match e
    case ConfigReceived(i, m) => ReceivedConfigHeld(b, i, m);
    case TcnReceived(i) => ReceivedTcnHeld(b, i);
    case PortUp(i) => EnablePortHeld(b, i);
    case PortDown(i) =>
      CloseHeld(b, i);
      ReconfigureAndPromoteHeld(b, ClosePort(b, i), IsRoot(b));
    case NewAddress(addr) =>
      RenamedHeld(b, addr);
      ReconfigureAndPromoteHeld(b, Renamed(b, addr), IsRoot(b));
    case NewPriority(priority) =>
      RankedHeld(b, priority);
      ReconfigureAndPromoteHeld(b, Ranked(b, priority), IsRoot(b));
    case NewPathCost(i, cost) =>
      var c := SetPort(b, i, b.ports[i].(pathCost := cost));
      CostHeld(b, i, cost);
      ReconfigureHeld(c);
      HeldTransitive(b, c, Reconfigure(c));
  }

  lemma StepPaid(b: Bridge, e: Input)
    requires Inv(b) && Allowed(b, e)
    ensures Paid(b, Step(b, e))
  {
    if e.Tick? {
      CheckTimersPaid(b);
    } else {
      StepHeld(b, e);
      HeldIsPaid(b, Step(b, e));
    }
  }

  lemma {:induction false} RunPaid(b: Bridge, run: seq<(int, Input)>, c: Bridge)
    requires Inv(b) && Reaches(b, run, c)
    ensures Paid(b, c)
    decreases |run|
  {
    if run == [] {
      HeldIsPaid(b, b);
    } else {
      var (now, e) := run[0];
      var a := b.(now := now);
      TimePasses(b, now);
      HeldIsPaid(b, a);
      StepKeeps(a, e);
      StepPaid(a, e);
      PaidTransitive(b, a, Step(a, e));
      RunPaid(Step(a, e), run[1..], c);
      PaidTransitive(b, Step(a, e), c);
    }
  }
}
