/**
 Every run of a bridge: the events that can happen to it, in any order and at any times,
 keep the invariant.  Port-priority changes are not among the events.
 */
module BridgeRuns {
  import opened BridgeTypes
  import opened BridgeSpec
  import opened BridgeRoles
  import opened BridgeInvariant

  datatype Input =
    | ConfigReceived(port: nat, bpdu: ConfigBpdu)
    | TcnReceived(port: nat)
    | Tick
    | PortUp(port: nat)
    | PortDown(port: nat)
    | NewAddress(addr: int)
    | NewPriority(priority: int)
    | NewPathCost(port: nat, cost: int)

  /** Message m claims to come from the very port that hears it. */
  predicate ClaimsOwnPort(b: Bridge, i: nat, m: ConfigBpdu)
    requires i < |b.ports|
  {
    m.vector.bridge == b.bridgeId && m.vector.port == b.ports[i].portId
  }

  /** The one kind of message that breaks the invariant: a forged copy of the port's own messages,
      better than what the port has heard, on the only port that leads to the root, while a
      topology change notification is outstanding. */
  predicate Usurps(b: Bridge, i: nat, m: ConfigBpdu)
    requires i < |b.ports|
  {
    && b.ports[i].Enabled()
    && ClaimsOwnPort(b, i, m)
    && Supersedes(b, b.ports[i], m.vector)
    && b.tcnTimer.running
    && forall j | 0 <= j < |b.ports| && j != i :: !Eligible(b, b.ports[j])
  }

  /** The environment: listed ports only, no usurping message, the root port is not brought up a
      second time, and costs are positive. */
  predicate Allowed(b: Bridge, e: Input) {
    match e
    case ConfigReceived(i, m) => i < |b.ports| && !Usurps(b, i, m)
    case TcnReceived(i) => i < |b.ports|
    case PortUp(i) => i < |b.ports| && b.ports[i].portNo != b.rootPort
    case PortDown(i) => i < |b.ports|
    case NewPathCost(i, cost) => i < |b.ports| && cost >= 1
    case _ => true
  }

  function Step(b: Bridge, e: Input): Bridge
    requires Allowed(b, e)
  {
    match e
    case ConfigReceived(i, m) => ReceivedConfig(b, i, m)
    case TcnReceived(i) => ReceivedTcn(b, i)
    case Tick => CheckTimers(b)
    case PortUp(i) => EnablePort(b, i)
    case PortDown(i) => DisablePort(b, i)
    case NewAddress(addr) => ChangeBridgeId(b, addr)
    case NewPriority(priority) => SetBridgePriority(b, priority)
    case NewPathCost(i, cost) => SetPathCost(b, i, cost)
  }

  // ----- starting points of a reconfiguration ------------------------------------------

  /** Changing one port so that it is still good and stale leaves a bridge reconfigurable. */
  lemma PortChangeReconfigurable(b: Bridge, c: Bridge, i: nat)
    requires Consistent(b) && i < |b.ports| && c.bridgeId == b.bridgeId && c.hz == b.hz && c.now == b.now
    requires |c.ports| == |b.ports| && c.ports == b.ports[i := c.ports[i]]
    requires c.ports[i].portNo == b.ports[i].portNo && GoodPort(c.ports[i])
    requires c.trace == b.trace || c.trace == b.trace + [PortReset(b.ports[i].portNo)]
    requires PortStale(c, c.ports[i])
    ensures Reconfigurable(c)
  {
    TraceGrows(b.trace, b.hz, PortReset(b.ports[i].portNo));
    forall j | 0 <= j < |c.ports|
      ensures PortStale(c, c.ports[j]) && GoodPort(c.ports[j]) && c.ports[j].portNo == b.ports[j].portNo
    {
      if j != i {
        assert c.ports[j] == b.ports[j];
        assert PortOk(b, b.ports[j]) && GoodPort(b.ports[j]);
        assert b.ports[j].portNo != b.ports[i].portNo;
      }
    }
  }

  /** A bridge with an eligible port does not become root. */
  lemma NotPromoted(b: Bridge, i: nat)
    requires Reconfigurable(b) && i < |b.ports| && Eligible(b, b.ports[i])
    ensures !IsRoot(Reconfigure(b))
  {
    ReconfigureKeeps(b);
    RootSelectionAgrees(b);
    var r := RootPortNamed(Reconfigure(b));
  }

  lemma NotRootHasPort(b: Bridge) returns (r: nat)
    requires Consistent(b) && !IsRoot(b)
    ensures RootAt(b, r)
  {
    r := RootPortNamed(b);
  }

  // ----- receiving ----------------------------------------------------------------------

  lemma RecordReconfigurable(b: Bridge, i: nat, m: ConfigBpdu)
    requires Consistent(b) && i < |b.ports| && b.ports[i].Enabled()
    ensures Reconfigurable(RecordConfig(b, i, m))
  {
    assert PortOk(b, b.ports[i]) && GoodPort(b.ports[i]);
    PortChangeReconfigurable(b, RecordConfig(b, i, m), i);
  }

  /** Accepting a message that does not usurp the root port never makes a bridge root that still
      has a topology change notification to deliver. */
  lemma AcceptDoesNotPromote(b: Bridge, i: nat, m: ConfigBpdu)
    requires Inv(b) && Allowed(b, ConfigReceived(i, m)) && b.ports[i].Enabled()
    requires Supersedes(b, b.ports[i], m.vector) && b.tcnTimer.running
    ensures !IsRoot(Reconfigure(RecordConfig(b, i, m)))
  {
    var c := RecordConfig(b, i, m);
    RecordReconfigurable(b, i, m);
    var r := NotRootHasPort(b);
    var j := if r == i && ClaimsOwnPort(b, i, m)
             then (var j :| 0 <= j < |b.ports| && j != i && Eligible(b, b.ports[j]); j) else r;
    assert Eligible(c, c.ports[j]);
    NotPromoted(c, j);
  }

  lemma LoseRootKeeps(b: Bridge)
    requires Inv(b) && !IsRoot(b)
    ensures Inv(LoseRoot(b)) && SameRoles(b, LoseRoot(b))
  {
    var c := b.(helloTimer := b.helloTimer.Clear());
    PlainChangeKeeps(b, c);
    if c.topologyChangeDetected {
      var d := c.(topologyChangeTimer := c.topologyChangeTimer.Clear());
      PlainChangeKeeps(c, d);
      TransmitTcnOnly(d);
      TcnChangeKeeps(d, TransmitTcn(d));
      PlainChangeKeeps(TransmitTcn(d), LoseRoot(b));
    }
  }

  lemma RelayKeeps(b: Bridge, m: ConfigBpdu)
    requires Inv(b)
    ensures Inv(RelayFromRoot(b, m)) && SameRoles(b, RelayFromRoot(b, m))
  {
    var c := RecordTimeouts(b, m);
    PlainChangeKeeps(b, c);
    var d := ConfigGeneration(c, |c.ports|);
    GenerationKeeps(c, |c.ports|);
    SameRolesTransitive(b, c, d);
    PlainChangeKeeps(d, TopologyChangeAcknowledged(d));
  }

  /** The message is recorded, and roles and states are selected anew. */
  lemma RecordedKeeps(b: Bridge, i: nat, m: ConfigBpdu)
    requires Inv(b) && Allowed(b, ConfigReceived(i, m)) && b.ports[i].Enabled()
    requires Supersedes(b, b.ports[i], m.vector)
    ensures var a := RecordConfig(b, i, m); Inv(Reconfigure(a)) && SameRoles(ConfigurationUpdate(a), Reconfigure(a))
  {
    hide Reconfigure, Consistent, RootSelection, Reconfigurable, Supersedes;
    RecordReconfigurable(b, i, m);
    RootSelectionOnly(RecordConfig(b, i, m));
    ReconfigureKeeps(RecordConfig(b, i, m));
    if b.tcnTimer.running {
      AcceptDoesNotPromote(b, i, m);
    }
  }

  lemma AcceptKeeps(b: Bridge, i: nat, m: ConfigBpdu)
    requires Inv(b) && Allowed(b, ConfigReceived(i, m)) && b.ports[i].Enabled()
    requires Supersedes(b, b.ports[i], m.vector)
    ensures Inv(AcceptConfig(b, i, m))
    ensures SameRoles(ConfigurationUpdate(RecordConfig(b, i, m)), AcceptConfig(b, i, m))
  {
    hide Inv, ConfigurationUpdate, Reconfigure, RecordConfig, LoseRoot, RelayFromRoot, SameRoles, Supersedes;
    var a := RecordConfig(b, i, m);
    var c := Reconfigure(a);
    RecordedKeeps(b, i, m);
    var d := if IsRoot(b) && !IsRoot(c) then LoseRoot(c) else c;
    if IsRoot(b) && !IsRoot(c) {
      LoseRootKeeps(c);
    }
    SameRolesTransitive(ConfigurationUpdate(a), c, d);
    RelayKeeps(d, m);
    SameRolesTransitive(ConfigurationUpdate(a), d, RelayFromRoot(d, m));
  }

  lemma ReceivedConfigKeeps(b: Bridge, i: nat, m: ConfigBpdu)
    requires Inv(b) && Allowed(b, ConfigReceived(i, m))
    ensures Inv(ReceivedConfig(b, i, m))
  {
    var p := b.ports[i];
    if p.Enabled() {
      if Supersedes(b, p, m.vector) {
        AcceptKeeps(b, i, m);
      } else if IsDesignated(b, p) {
        GenerateKeeps(b, i);
      }
    }
  }

  /** Usurping messages are exactly the received messages that break the invariant. */
  lemma ReceivedConfigKeepsIff(b: Bridge, i: nat, m: ConfigBpdu)
    requires Inv(b) && i < |b.ports|
    ensures Inv(ReceivedConfig(b, i, m)) <==> !Usurps(b, i, m)
  {
    if Usurps(b, i, m) {
      var a := RecordConfig(b, i, m);
      var c := Reconfigure(a);
      RecordReconfigurable(b, i, m);
      ReconfigureKeeps(a);
      forall j | 0 <= j < |a.ports|
        ensures !Eligible(a, a.ports[j])
      {
        assert j != i ==> a.ports[j] == b.ports[j];
      }
      RootSelectionAgrees(a);
      assert IsRoot(c) && c.rootPort == 0 && c.tcnTimer.running;
      assert GoodPort(b.ports[i]);
    } else {
      ReceivedConfigKeeps(b, i, m);
    }
  }

  lemma ReceivedTcnKeeps(b: Bridge, i: nat)
    requires Inv(b) && i < |b.ports|
    ensures Inv(ReceivedTcn(b, i))
  {
    var p := b.ports[i];
    if p.Enabled() && IsDesignated(b, p) {
      var c := TopologyChangeDetection(b);
      DetectionKeeps(b);
      assert PortOk(c, c.ports[i]);
      TransmitKeeps(c, i, p.(topologyChangeAck := true));
    }
  }

  // ----- management ---------------------------------------------------------------------

  lemma InitSelecting(b: Bridge, i: nat)
    requires Consistent(b) && i < |b.ports| && b.ports[i].portNo != b.rootPort
    ensures Selecting(InitPort(b, i), 0)
  {
    var c := InitPort(b, i);
    assert PortOk(b, b.ports[i]) && GoodPort(b.ports[i]);
    TraceGrows(b.trace, b.hz, PortReset(b.ports[i].portNo));
    PortChangeReconfigurable(b, c, i);
    forall j | 0 <= j < |c.ports|
      ensures RoleAgrees(c, c.ports[j])
      ensures Eligible(c, c.ports[j]) ==> j != i && c.ports[j] == b.ports[j]
    {
      assert RoleAgrees(b, b.ports[j]);
    }
    if b.rootPort != 0 {
      var r: nat :| RootAt(b, r);
      assert r != i;
      assert RootAt(c, r);
    }
  }

  lemma EnablePortKeeps(b: Bridge, i: nat)
    requires Inv(b) && i < |b.ports| && b.ports[i].portNo != b.rootPort
    ensures Inv(EnablePort(b, i))
  {
    InitSelecting(b, i);
    StateSelectionRestores(InitPort(b, i));
  }

  lemma DisablePortKeeps(b: Bridge, i: nat)
    requires Inv(b) && i < |b.ports|
    ensures Inv(DisablePort(b, i))
  {
    var c := ClosePort(b, i);
    assert PortOk(b, b.ports[i]) && GoodPort(b.ports[i]);
    TraceGrows(b.trace, b.hz, PortReset(b.ports[i].portNo));
    PortChangeReconfigurable(b, c, i);
    ReconfigureAndPromote(c, IsRoot(b));
  }

  /** Giving every port a new record, so that designated ports stay designated. */
  lemma RelabelReconfigurable(b: Bridge, c: Bridge)
    requires Consistent(b) && |c.ports| == |b.ports| && c.trace == b.trace && c.hz == b.hz && c.now == b.now
    requires forall i | 0 <= i < |b.ports| ::
               && c.ports[i] == b.ports[i].(designated := c.ports[i].designated)
               && (b.ports[i].Enabled() && IsDesignated(b, b.ports[i]) ==> IsDesignated(c, c.ports[i]))
    ensures Reconfigurable(c)
  {
    forall j | 0 <= j < |c.ports|
      ensures PortStale(c, c.ports[j]) && GoodPort(c.ports[j]) && c.ports[j].portNo == b.ports[j].portNo
    {
      assert PortOk(b, b.ports[j]) && GoodPort(b.ports[j]);
    }
  }

  lemma ChangeBridgeIdKeeps(b: Bridge, addr: int)
    requires Inv(b)
    ensures Inv(ChangeBridgeId(b, addr))
  {
    RelabelReconfigurable(b, Renamed(b, addr));
    ReconfigureAndPromote(Renamed(b, addr), IsRoot(b));
  }

  lemma SetBridgePriorityKeeps(b: Bridge, priority: int)
    requires Inv(b)
    ensures Inv(SetBridgePriority(b, priority))
  {
    RelabelReconfigurable(b, Ranked(b, priority));
    ReconfigureAndPromote(Ranked(b, priority), IsRoot(b));
  }

  lemma SetPathCostKeeps(b: Bridge, i: nat, cost: int)
    requires Inv(b) && i < |b.ports| && cost >= 1
    ensures Inv(SetPathCost(b, i, cost))
  {
    var c := SetPort(b, i, b.ports[i].(pathCost := cost));
    assert PortOk(b, b.ports[i]) && GoodPort(b.ports[i]);
    PortChangeReconfigurable(b, c, i);
    ReconfigureKeeps(c);
    if !IsRoot(b) {
      var r := NotRootHasPort(b);
      assert Eligible(c, c.ports[r]);
      NotPromoted(c, r);
    }
  }

  // ----- timers -------------------------------------------------------------------------

  /** Port i gives up what it has heard. */
  function Forgotten(b: Bridge, i: nat): Bridge
    requires i < |b.ports|
  {
    var q := b.ports[i].(messageAgeTimer := b.ports[i].messageAgeTimer.Clear());
    SetPort(b, i, BecomeDesignated(b, q))
  }

  lemma ForgottenReconfigurable(b: Bridge, i: nat)
    requires Consistent(b) && i < |b.ports|
    ensures Reconfigurable(Forgotten(b, i))
  {
    assert PortOk(b, b.ports[i]) && GoodPort(b.ports[i]);
    PortChangeReconfigurable(b, Forgotten(b, i), i);
  }

  lemma CheckMessageAgeIs(b: Bridge, i: nat)
    requires i < |b.ports|
    ensures CheckMessageAge(b, i) ==
              if b.ports[i].messageAgeTimer.Expired(b.maxAge, b.now)
              then BecomeRootIfNew(Reconfigure(Forgotten(b, i)), IsRoot(b))
              else b
  {
    hide Reconfigure, BecomeRootIfNew;
    var q := b.ports[i].(messageAgeTimer := b.ports[i].messageAgeTimer.Clear());
    assert b.ports[i := q][i := BecomeDesignated(b, q)] == b.ports[i := BecomeDesignated(b, q)];
  }

  lemma CheckMessageAgeKeeps(b: Bridge, i: nat)
    requires Inv(b) && i < |b.ports|
    ensures Inv(CheckMessageAge(b, i))
    ensures CheckMessageAge(b, i).ports[i].Enabled() == b.ports[i].Enabled()
  {
    hide Reconfigure, BecomeRootIfNew, CheckMessageAge, Reconfigurable;
    CheckMessageAgeIs(b, i);
    if b.ports[i].messageAgeTimer.Expired(b.maxAge, b.now) {
      var d := Forgotten(b, i);
      ForgottenReconfigurable(b, i);
      ReconfigureAndPromote(d, IsRoot(b));
      assert SameRole(ConfigurationUpdate(d).ports[i], CheckMessageAge(b, i).ports[i]);
    }
  }

  lemma DelayPortKeeps(b: Bridge, i: nat, q: Port)
    requires Consistent(b) && i < |b.ports| && b.ports[i].Enabled()
    requires q == b.ports[i].(state := q.state, forwardDelayTimer := q.forwardDelayTimer)
    requires q.Enabled() && DelayOk(q) && (q.state == Blocking <==> b.ports[i].state == Blocking)
    ensures Kept(b, SetPort(b.(trace := b.trace + [DelayExpired(q.portNo)]), i, q))
  {
    assert PortOk(b, b.ports[i]);
    TraceGrows(b.trace, b.hz, DelayExpired(q.portNo));
    PortChangeKeeps(b, SetPort(b.(trace := b.trace + [DelayExpired(q.portNo)]), i, q), i);
  }

  /** The port as a forward-delay expiry leaves it. */
  function Advanced(b: Bridge, p: Port): Port {
    if p.state == Listening then p.(state := Learning, forwardDelayTimer := Started(b.now))
    else p.(state := Forwarding, forwardDelayTimer := p.forwardDelayTimer.Clear())
  }

  lemma CheckForwardDelayIs(b: Bridge, i: nat)
    requires i < |b.ports| && (b.ports[i].state == Listening || b.ports[i].state == Learning)
    requires b.ports[i].forwardDelayTimer.Expired(b.forwardDelay, b.now)
    ensures var q := Advanced(b, b.ports[i]);
            var d := SetPort(b.(trace := b.trace + [DelayExpired(q.portNo)]), i, q);
            CheckForwardDelay(b, i) == d || CheckForwardDelay(b, i) == TopologyChangeDetection(d)
  {
    var p := b.ports[i];
    var off := p.(forwardDelayTimer := p.forwardDelayTimer.Clear());
    assert b.ports[i := off][i := Advanced(b, p)] == b.ports[i := Advanced(b, p)];
  }

  lemma CheckForwardDelayKeeps(b: Bridge, i: nat)
    requires Inv(b) && i < |b.ports| && b.ports[i].Enabled()
    ensures Inv(CheckForwardDelay(b, i))
    ensures CheckForwardDelay(b, i).ports[i].Enabled()
  {
    var p := b.ports[i];
    if p.forwardDelayTimer.Expired(b.forwardDelay, b.now) {
      assert PortOk(b, p);
      var q := Advanced(b, p);
      var d := SetPort(b.(trace := b.trace + [DelayExpired(q.portNo)]), i, q);
      CheckForwardDelayIs(b, i);
      DelayPortKeeps(b, i, q);
      DetectionKeeps(d);
    }
  }

  lemma CheckHoldKeeps(b: Bridge, i: nat)
    requires Inv(b) && i < |b.ports| && b.ports[i].Enabled()
    ensures Inv(CheckHold(b, i))
  {
    hide TransmitConfig;
    var p := b.ports[i];
    if p.holdTimer.Expired(b.hz, b.now) {
      var q := p.(holdTimer := p.holdTimer.Clear());
      assert PortOk(b, p);
      if p.configPending {
        TransmitKeeps(b, i, q);
      } else {
        PortChangeKeeps(b, SetPort(b, i, q), i);
      }
    }
  }

  lemma CheckPortTimersKeeps(b: Bridge, i: nat)
    requires Inv(b) && i < |b.ports| && b.ports[i].Enabled()
    ensures Inv(CheckPortTimers(b, i))
  {
    var c := CheckMessageAge(b, i);
    CheckMessageAgeKeeps(b, i);
    var d := CheckForwardDelay(c, i);
    CheckForwardDelayKeeps(c, i);
    CheckHoldKeeps(d, i);
  }

  lemma {:induction false} CheckAllPortsKeeps(b: Bridge, k: nat)
    requires Inv(b) && k <= |b.ports|
    ensures Inv(CheckAllPorts(b, k))
    decreases k
  {
    hide Inv, CheckPortTimers;
    if k > 0 {
      CheckAllPortsKeeps(b, k - 1);
      var c := CheckAllPorts(b, k - 1);
      if c.ports[k - 1].Enabled() {
        CheckPortTimersKeeps(c, k - 1);
      }
    }
  }

  lemma CheckHelloKeeps(b: Bridge)
    requires Inv(b)
    ensures Inv(CheckHello(b))
  {
    var c := b.(helloTimer := b.helloTimer.Clear());
    PlainChangeKeeps(b, c);
    GenerationKeeps(c, |c.ports|);
    var d := ConfigGeneration(c, |c.ports|);
    PlainChangeKeeps(d, d.(helloTimer := Started(b.now)));
  }

  lemma CheckTcnKeeps(b: Bridge)
    requires Inv(b)
    ensures Inv(CheckTcn(b))
  {
    var c := b.(tcnTimer := b.tcnTimer.Clear());
    PlainChangeKeeps(b, c);
    TransmitTcnOnly(c);
    var d := TransmitTcn(c);
    TcnChangeKeeps(c, d);
    PlainChangeKeeps(d, d.(tcnTimer := Started(b.now)));
  }

  lemma CheckTopologyChangeKeeps(b: Bridge)
    requires Inv(b)
    ensures Inv(CheckTopologyChange(b))
  {
    PlainChangeKeeps(b, CheckTopologyChange(b));
  }

  lemma CheckTimersKeeps(b: Bridge)
    requires Inv(b)
    ensures Inv(CheckTimers(b))
  {
    hide CheckHello, CheckTcn, CheckTopologyChange, Inv;
    CheckHelloKeeps(b);
    CheckTcnKeeps(CheckHello(b));
    var c := CheckTopologyChange(CheckTcn(CheckHello(b)));
    CheckTopologyChangeKeeps(CheckTcn(CheckHello(b)));
    CheckAllPortsKeeps(c, |c.ports|);
  }

  // ----- runs ---------------------------------------------------------------------------

  lemma StepKeeps(b: Bridge, e: Input)
    requires Inv(b) && Allowed(b, e)
    ensures Inv(Step(b, e))
  {
    match e
    case ConfigReceived(i, m) => ReceivedConfigKeeps(b, i, m);
    case TcnReceived(i) => ReceivedTcnKeeps(b, i);
    case Tick => CheckTimersKeeps(b);
    case PortUp(i) => EnablePortKeeps(b, i);
    case PortDown(i) => DisablePortKeeps(b, i);
    case NewAddress(addr) => ChangeBridgeIdKeeps(b, addr);
    case NewPriority(priority) => SetBridgePriorityKeeps(b, priority);
    case NewPathCost(i, cost) => SetPathCostKeeps(b, i, cost);
  }

  lemma TimePasses(b: Bridge, now: int)
    requires Inv(b) && b.now <= now
    ensures Inv(b.(now := now))
  {
    var c := b.(now := now);
    assert SameCore(b, c);
    RolesFrame(b, c);
    forall i | 0 <= i < |c.ports|
      ensures PortOk(c, c.ports[i])
    {
      assert PortOk(b, b.ports[i]);
    }
  }

  /** A bridge with all its ports down and nothing sent yet. */
  ghost predicate Initial(b: Bridge) {
    && WellFormed(b)
    && b.rootPort == 0 && b.designatedRoot == b.bridgeId && b.rootPathCost == 0
    && !b.tcnTimer.running
    && b.trace == []
    && forall i | 0 <= i < |b.ports| ::
         !b.ports[i].Enabled() && !b.ports[i].configPending && !b.ports[i].topologyChangeAck
  }

  lemma InitialInv(b: Bridge)
    requires Initial(b)
    ensures Inv(b)
  {
  }

  /** c is reached from b by the timed events of run, all of them allowed when they happen. */
  ghost predicate Reaches(b: Bridge, run: seq<(int, Input)>, c: Bridge)
    decreases |run|
  {
    if run == [] then c == b
    else
      var (now, e) := run[0];
      && b.now <= now
      && Allowed(b.(now := now), e)
      && Reaches(Step(b.(now := now), e), run[1..], c)
  }

  lemma {:induction false} RunKeeps(b: Bridge, run: seq<(int, Input)>, c: Bridge)
    requires Inv(b) && Reaches(b, run, c)
    ensures Inv(c)
    decreases |run|
  {
    if run != [] {
      var (now, e) := run[0];
      TimePasses(b, now);
      StepKeeps(b.(now := now), e);
      RunKeeps(Step(b.(now := now), e), run[1..], c);
    }
  }
}
