/**
 The operations of the spanning tree code as functions on bridge values.  The class in
 module BridgeObject is proved to compute exactly these.
 */
module BridgeSpec {
  import opened BridgeTypes

  // ----- reading the state ------------------------------------------------------------

  predicate IsRoot(b: Bridge) {
    b.bridgeId == b.designatedRoot
  }

  predicate IsDesignated(b: Bridge, p: Port) {
    p.designated.bridge == b.bridgeId && p.designated.port == p.portId
  }

  /** Position of the first port with the given number, or -1. */
  function FindPort(ports: seq<Port>, no: int): (i: int)
    ensures -1 <= i < |ports|
    ensures i >= 0 ==> ports[i].portNo == no && forall j | 0 <= j < i :: ports[j].portNo != no
    ensures i == -1 ==> forall j | 0 <= j < |ports| :: ports[j].portNo != no
  {
    if ports == [] then -1
    else if ports[0].portNo == no then 0
    else
      var r := FindPort(ports[1..], no);
      if r == -1 then -1 else r + 1
  }

  /** The vector this bridge would announce on p. */
  function Offer(b: Bridge, p: Port): Vector {
    Vector(b.designatedRoot, b.rootPathCost, b.bridgeId, p.portId)
  }

  // ----- root selection ---------------------------------------------------------------

  /** Ports that may become root port at all. */
  predicate Eligible(b: Bridge, p: Port) {
    p.Enabled() && !IsDesignated(b, p) && p.designated.root < b.bridgeId
  }

  /** p beats q in the order (root, cost through the port, bridge, port, own port id). */
  predicate Better(p: Port, q: Port) {
    var v := p.designated.(cost := p.designated.cost + p.pathCost);
    var w := q.designated.(cost := q.designated.cost + q.pathCost);
    Less(v, w) || (v == w && p.portId < q.portId)
  }

  /** Position of the best eligible port among the first k, or -1. */
  function BestPort(b: Bridge, k: nat): (r: int)
    requires k <= |b.ports|
    ensures -1 <= r < k
    ensures r == -1 ==> forall j | 0 <= j < k :: !Eligible(b, b.ports[j])
    ensures r >= 0 ==>
              && Eligible(b, b.ports[r])
              && forall j | 0 <= j < k && Eligible(b, b.ports[j]) :: !Better(b.ports[j], b.ports[r])
  {
    if k == 0 then -1
    else
      var r := BestPort(b, k - 1);
      if Eligible(b, b.ports[k - 1]) && (r == -1 || Better(b.ports[k - 1], b.ports[r]))
      then k - 1
      else r
  }

  /** The bridge takes its idea of the root from port r, or calls itself root if r is -1. */
  function AdoptRoot(b: Bridge, r: int): (c: Bridge)
    requires -1 <= r < |b.ports|
  {
    if r == -1
    then b.(rootPort := 0, designatedRoot := b.bridgeId, rootPathCost := 0)
    else b.(rootPort := b.ports[r].portNo,
            designatedRoot := b.ports[r].designated.root,
            rootPathCost := b.ports[r].designated.cost + b.ports[r].pathCost)
  }

  function RootSelection(b: Bridge): (r: Bridge)
    ensures |r.ports| == |b.ports|
  {
    AdoptRoot(b, BestPort(b, |b.ports|))
  }

  // ----- designated port selection ----------------------------------------------------

  predicate ShouldBecomeDesignated(b: Bridge, p: Port) {
    || IsDesignated(b, p)
    || p.designated.root != b.designatedRoot
    || b.rootPathCost < p.designated.cost
    || (b.rootPathCost == p.designated.cost
        && (b.bridgeId < p.designated.bridge
            || (b.bridgeId == p.designated.bridge && p.portId < p.designated.port)))
  }

  function BecomeDesignated(b: Bridge, p: Port): Port {
    p.(designated := Offer(b, p))
  }

  function Redesignate(b: Bridge, p: Port): Port {
    if p.Enabled() && ShouldBecomeDesignated(b, p) then BecomeDesignated(b, p) else p
  }

  function DesignatedPortSelection(b: Bridge): (r: Bridge)
    ensures |r.ports| == |b.ports|
  {
    b.(ports := seq(|b.ports|, i requires 0 <= i < |b.ports| => Redesignate(b, b.ports[i])))
  }

  function ConfigurationUpdate(b: Bridge): (r: Bridge)
    ensures |r.ports| == |b.ports|
  {
    DesignatedPortSelection(RootSelection(b))
  }

  // ----- sending ----------------------------------------------------------------------

  function SetPort(b: Bridge, i: nat, p: Port): Bridge
    requires i < |b.ports|
  {
    b.(ports := b.ports[i := p])
  }

  /** Frames leave the bridge only while the protocol is switched on. */
  function Emit(b: Bridge, e: Event): (r: Bridge)
    ensures |r.ports| == |b.ports|
  {
    if b.stpEnabled then b.(trace := b.trace + [e]) else b
  }

  /** The age a relayed message carries: what the root port's timer says, plus one. */
  function MessageAge(b: Bridge): int {
    var r := FindPort(b.ports, b.rootPort);
    if IsRoot(b) || r == -1 then 0 else b.ports[r].messageAgeTimer.Residue(b.now) + 1
  }

  function ConfigFor(b: Bridge, p: Port): ConfigBpdu {
    ConfigBpdu(b.topologyChange, p.topologyChangeAck, Offer(b, p), MessageAge(b),
               b.maxAge, b.helloTime, b.forwardDelay)
  }

  function SenderOf(b: Bridge): Sender {
    Sender(b.bridgeId, b.designatedRoot, b.rootPort, b.maxAge, b.helloTime, b.forwardDelay, b.topologyChange, b.ports)
  }

  /** Message m leaves port i, whose fields at that moment are p; the hold time starts. */
  function SendOn(b: Bridge, i: nat, p: Port, m: ConfigBpdu): (r: Bridge)
    requires i < |b.ports|
    ensures |r.ports| == |b.ports|
  {
    SetPort(Emit(b, SentConfig(b.now, SenderOf(b), p, m)), i,
            p.(topologyChangeAck := false, configPending := false, holdTimer := Started(b.now)))
  }

  function TransmitConfig(b: Bridge, i: nat): (r: Bridge)
    requires i < |b.ports|
    ensures |r.ports| == |b.ports|
  {
    var p := b.ports[i];
    if p.holdTimer.running then SetPort(b, i, p.(configPending := true))
    else SendOn(b, i, p, ConfigFor(b, p))
  }

  function GenerateFor(b: Bridge, i: nat): (r: Bridge)
    requires i < |b.ports|
    ensures |r.ports| == |b.ports|
  {
    if b.ports[i].Enabled() && IsDesignated(b, b.ports[i]) then TransmitConfig(b, i) else b
  }

  /** Announce on every enabled designated port among the first k. */
  function ConfigGeneration(b: Bridge, k: nat): (r: Bridge)
    requires k <= |b.ports|
    ensures |r.ports| == |b.ports|
  {
    if k == 0 then b else GenerateFor(ConfigGeneration(b, k - 1), k - 1)
  }

  function TransmitTcn(b: Bridge): (r: Bridge)
    ensures |r.ports| == |b.ports|
  {
    var r := FindPort(b.ports, b.rootPort);
    if r == -1 then b else Emit(b, SentTcn(b.now, b.ports[r]))
  }

  function TopologyChangeDetection(b: Bridge): (r: Bridge)
    ensures |r.ports| == |b.ports|
  {
    var c := if IsRoot(b) then
               b.(topologyChange := true, topologyChangeTimer := Started(b.now))
             else if !b.topologyChangeDetected then
               TransmitTcn(b).(tcnTimer := Started(b.now))
             else b;
    c.(topologyChangeDetected := true)
  }

  function TopologyChangeAcknowledged(b: Bridge): (r: Bridge)
    ensures |r.ports| == |b.ports|
  {
    b.(topologyChangeDetected := false, tcnTimer := b.tcnTimer.Clear())
  }

  // ----- port states ------------------------------------------------------------------

  function MakeBlocking(b: Bridge, i: nat): (r: Bridge)
    requires i < |b.ports|
    ensures |r.ports| == |b.ports|
  {
    var p := b.ports[i];
    if p.state == Disabled || p.state == Blocking then b
    else
      var c := if p.state == Forwarding || p.state == Learning then TopologyChangeDetection(b) else b;
      SetPort(c, i, p.(state := Blocking, forwardDelayTimer := p.forwardDelayTimer.Clear()))
  }

  function MakeForwarding(b: Bridge, p: Port): Port {
    if p.state == Blocking
    then p.(state := if b.stpEnabled then Listening else Learning, forwardDelayTimer := Started(b.now))
    else p
  }

  function SelectState(b: Bridge, i: nat): (r: Bridge)
    requires i < |b.ports|
    ensures |r.ports| == |b.ports|
  {
    var p := b.ports[i];
    if !p.Enabled() then b
    else if p.portNo == b.rootPort then
      SetPort(b, i, MakeForwarding(b, p.(configPending := false, topologyChangeAck := false)))
    else if IsDesignated(b, p) then
      SetPort(b, i, MakeForwarding(b, p.(messageAgeTimer := p.messageAgeTimer.Clear())))
    else
      MakeBlocking(SetPort(b, i, p.(configPending := false, topologyChangeAck := false)), i)
  }

  /** State selection on the first k ports, in list order. */
  function StateSelection(b: Bridge, k: nat): (r: Bridge)
    requires k <= |b.ports|
    ensures |r.ports| == |b.ports|
  {
    if k == 0 then b else SelectState(StateSelection(b, k - 1), k - 1)
  }

  /** Roles, then states: the pair of calls every reconfiguration ends with. */
  function Reconfigure(b: Bridge): (r: Bridge)
    ensures |r.ports| == |b.ports|
  {
    var c := ConfigurationUpdate(b);
    StateSelection(c, |c.ports|)
  }

  // ----- becoming root ----------------------------------------------------------------

  function BecomeRoot(b: Bridge): (r: Bridge)
    ensures |r.ports| == |b.ports|
  {
    var c := TopologyChangeDetection(b.(maxAge := b.bridgeMaxAge,
                                        helloTime := b.bridgeHelloTime,
                                        forwardDelay := b.bridgeForwardDelay));
    var d := c.(tcnTimer := c.tcnTimer.Clear());
    ConfigGeneration(d, |d.ports|).(helloTimer := Started(d.now))
  }

  function BecomeRootIfNew(b: Bridge, wasRoot: bool): (r: Bridge)
    ensures |r.ports| == |b.ports|
  {
    if IsRoot(b) && !wasRoot then BecomeRoot(b) else b
  }

  // ----- receiving --------------------------------------------------------------------

  predicate Supersedes(b: Bridge, p: Port, v: Vector) {
    if v.root != p.designated.root then v.root < p.designated.root
    else if v.cost != p.designated.cost then v.cost < p.designated.cost
    else if v.bridge != p.designated.bridge then v.bridge < p.designated.bridge
    else v.bridge != b.bridgeId || v.port <= p.designated.port
  }

  function RecordConfig(b: Bridge, i: nat, m: ConfigBpdu): (r: Bridge)
    requires i < |b.ports|
    ensures |r.ports| == |b.ports|
  {
    SetPort(b, i, b.ports[i].(designated := m.vector, messageAgeTimer := Started(b.now - m.messageAge)))
  }

  function RecordTimeouts(b: Bridge, m: ConfigBpdu): (r: Bridge)
    ensures |r.ports| == |b.ports|
  {
    b.(maxAge := m.maxAge, helloTime := m.helloTime, forwardDelay := m.forwardDelay,
       topologyChange := m.topologyChange)
  }

  /** What is left to do when a received message has cost the bridge the root role. */
  function LoseRoot(b: Bridge): (r: Bridge)
    ensures |r.ports| == |b.ports|
  {
    var c := b.(helloTimer := b.helloTimer.Clear());
    if c.topologyChangeDetected
    then TransmitTcn(c.(topologyChangeTimer := c.topologyChangeTimer.Clear())).(tcnTimer := Started(c.now))
    else c
  }

  /** A message accepted on the root port is passed on. */
  function RelayFromRoot(b: Bridge, m: ConfigBpdu): (r: Bridge)
    ensures |r.ports| == |b.ports|
  {
    var c := RecordTimeouts(b, m);
    var d := ConfigGeneration(c, |c.ports|);
    if m.topologyChangeAck then TopologyChangeAcknowledged(d) else d
  }

  function AcceptConfig(b: Bridge, i: nat, m: ConfigBpdu): (r: Bridge)
    requires i < |b.ports|
    ensures |r.ports| == |b.ports|
  {
    var c := Reconfigure(RecordConfig(b, i, m));
    var d := if IsRoot(b) && !IsRoot(c) then LoseRoot(c) else c;
    if b.ports[i].portNo == d.rootPort then RelayFromRoot(d, m) else d
  }

  function ReceivedConfig(b: Bridge, i: nat, m: ConfigBpdu): (r: Bridge)
    requires i < |b.ports|
    ensures |r.ports| == |b.ports|
  {
    var p := b.ports[i];
    if !p.Enabled() then b
    else if Supersedes(b, p, m.vector) then AcceptConfig(b, i, m)
    else if IsDesignated(b, p) then TransmitConfig(b, i)
    else b
  }

  function ReceivedTcn(b: Bridge, i: nat): (r: Bridge)
    requires i < |b.ports|
    ensures |r.ports| == |b.ports|
  {
    var p := b.ports[i];
    if p.Enabled() && IsDesignated(b, p) then
      var c := TopologyChangeDetection(b);
      TransmitConfig(SetPort(c, i, p.(topologyChangeAck := true)), i)
    else b
  }

  // ----- management -------------------------------------------------------------------

  function PortId(priority: int, portNo: int): int {
    priority * 256 + portNo
  }

  function Quiet(p: Port): Port {
    p.(topologyChangeAck := false, configPending := false,
       messageAgeTimer := p.messageAgeTimer.Clear(),
       forwardDelayTimer := p.forwardDelayTimer.Clear(),
       holdTimer := p.holdTimer.Clear())
  }

  function InitPort(b: Bridge, i: nat): (r: Bridge)
    requires i < |b.ports|
    ensures |r.ports| == |b.ports|
  {
    var p := b.ports[i].(portId := PortId(b.ports[i].priority, b.ports[i].portNo));
    SetPort(b.(trace := b.trace + [PortReset(p.portNo)]), i,
            Quiet(BecomeDesignated(b, p).(state := Blocking)))
  }

  function EnablePort(b: Bridge, i: nat): (r: Bridge)
    requires i < |b.ports|
    ensures |r.ports| == |b.ports|
  {
    var c := InitPort(b, i);
    StateSelection(c, |c.ports|)
  }

  function ClosePort(b: Bridge, i: nat): (r: Bridge)
    requires i < |b.ports|
    ensures |r.ports| == |b.ports|
  {
    SetPort(b.(trace := b.trace + [PortReset(b.ports[i].portNo)]), i,
            Quiet(BecomeDesignated(b, b.ports[i]).(state := Disabled)))
  }

  function DisablePort(b: Bridge, i: nat): (r: Bridge)
    requires i < |b.ports|
    ensures |r.ports| == |b.ports|
  {
    BecomeRootIfNew(Reconfigure(ClosePort(b, i)), IsRoot(b))
  }

  const ADDR_RANGE: int := 0x1_0000_0000_0000

  function AddrOf(id: int): int {
    id % ADDR_RANGE
  }

  function WithAddr(id: int, addr: int): int {
    id - AddrOf(id) + addr
  }

  function WithPriority(id: int, newprio: int): int {
    (newprio % 0x1_0000) * ADDR_RANGE + AddrOf(id)
  }

  function RenamedId(id: int, was: int, addr: int): int {
    if AddrOf(id) == was then WithAddr(id, addr) else id
  }

  function RenamedPort(p: Port, was: int, addr: int): Port {
    p.(designated := p.designated.(bridge := RenamedId(p.designated.bridge, was, addr),
                                   root := RenamedId(p.designated.root, was, addr)))
  }

  function Renamed(b: Bridge, addr: int): (r: Bridge)
    ensures |r.ports| == |b.ports|
  {
    var was := AddrOf(b.bridgeId);
    b.(bridgeId := WithAddr(b.bridgeId, addr),
       ports := seq(|b.ports|, i requires 0 <= i < |b.ports| => RenamedPort(b.ports[i], was, addr)))
  }

  function ChangeBridgeId(b: Bridge, addr: int): (r: Bridge)
    ensures |r.ports| == |b.ports|
  {
    BecomeRootIfNew(Reconfigure(Renamed(b, addr)), IsRoot(b))
  }

  function RankedPort(b: Bridge, p: Port, newprio: int): Port {
    if p.Enabled() && IsDesignated(b, p)
    then p.(designated := p.designated.(bridge := WithPriority(p.designated.bridge, newprio)))
    else p
  }

  function Ranked(b: Bridge, newprio: int): (r: Bridge)
    ensures |r.ports| == |b.ports|
  {
    b.(bridgeId := WithPriority(b.bridgeId, newprio),
       ports := seq(|b.ports|, i requires 0 <= i < |b.ports| => RankedPort(b, b.ports[i], newprio)))
  }

  function SetBridgePriority(b: Bridge, newprio: int): (r: Bridge)
    ensures |r.ports| == |b.ports|
  {
    BecomeRootIfNew(Reconfigure(Ranked(b, newprio)), IsRoot(b))
  }

  function SetPathCost(b: Bridge, i: nat, cost: int): (r: Bridge)
    requires i < |b.ports|
    ensures |r.ports| == |b.ports|
  {
    Reconfigure(SetPort(b, i, b.ports[i].(pathCost := cost)))
  }

  // ----- timers -----------------------------------------------------------------------

  function MessageAgeExpired(b: Bridge, i: nat): (r: Bridge)
    requires i < |b.ports|
    ensures |r.ports| == |b.ports|
  {
    BecomeRootIfNew(Reconfigure(SetPort(b, i, BecomeDesignated(b, b.ports[i]))), IsRoot(b))
  }

  predicate DesignatedForSomePort(b: Bridge) {
    exists i | 0 <= i < |b.ports| :: b.ports[i].Enabled() && b.ports[i].designated.bridge == b.bridgeId
  }

  function ForwardDelayExpired(b: Bridge, i: nat): (r: Bridge)
    requires i < |b.ports|
    ensures |r.ports| == |b.ports|
  {
    var p := b.ports[i];
    var c := b.(trace := b.trace + [DelayExpired(p.portNo)]);
    if p.state == Listening then
      SetPort(c, i, p.(state := Learning, forwardDelayTimer := Started(b.now)))
    else if p.state == Learning then
      var d := SetPort(c, i, p.(state := Forwarding));
      if DesignatedForSomePort(d) then TopologyChangeDetection(d) else d
    else c
  }

  function CheckMessageAge(b: Bridge, i: nat): (r: Bridge)
    requires i < |b.ports|
    ensures |r.ports| == |b.ports|
  {
    var p := b.ports[i];
    if p.messageAgeTimer.Expired(b.maxAge, b.now)
    then MessageAgeExpired(SetPort(b, i, p.(messageAgeTimer := p.messageAgeTimer.Clear())), i)
    else b
  }

  function CheckForwardDelay(b: Bridge, i: nat): (r: Bridge)
    requires i < |b.ports|
    ensures |r.ports| == |b.ports|
  {
    var p := b.ports[i];
    if p.forwardDelayTimer.Expired(b.forwardDelay, b.now)
    then ForwardDelayExpired(SetPort(b, i, p.(forwardDelayTimer := p.forwardDelayTimer.Clear())), i)
    else b
  }

  function CheckHold(b: Bridge, i: nat): (r: Bridge)
    requires i < |b.ports|
    ensures |r.ports| == |b.ports|
  {
    var p := b.ports[i];
    if p.holdTimer.Expired(b.hz, b.now) then
      var c := SetPort(b, i, p.(holdTimer := p.holdTimer.Clear()));
      if p.configPending then TransmitConfig(c, i) else c
    else b
  }

  function CheckPortTimers(b: Bridge, i: nat): (r: Bridge)
    requires i < |b.ports|
    ensures |r.ports| == |b.ports|
  {
    var c := CheckMessageAge(b, i);
    var d := CheckForwardDelay(c, i);
    CheckHold(d, i)
  }

  /** Port timers of the first k ports, in list order; disabled ports are skipped. */
  function CheckAllPorts(b: Bridge, k: nat): (r: Bridge)
    requires k <= |b.ports|
    ensures |r.ports| == |b.ports|
  {
    if k == 0 then b
    else
      var c := CheckAllPorts(b, k - 1);
      if c.ports[k - 1].Enabled() then CheckPortTimers(c, k - 1) else c
  }

  function CheckHello(b: Bridge): (r: Bridge)
    ensures |r.ports| == |b.ports|
  {
    if b.helloTimer.Expired(b.helloTime, b.now)
    then ConfigGeneration(b.(helloTimer := b.helloTimer.Clear()), |b.ports|).(helloTimer := Started(b.now))
    else b
  }

  function CheckTcn(b: Bridge): (r: Bridge)
    ensures |r.ports| == |b.ports|
  {
    if b.tcnTimer.Expired(b.bridgeHelloTime, b.now)
    then TransmitTcn(b.(tcnTimer := b.tcnTimer.Clear())).(tcnTimer := Started(b.now))
    else b
  }

  function CheckTopologyChange(b: Bridge): (r: Bridge)
    ensures |r.ports| == |b.ports|
  {
    if b.topologyChangeTimer.Expired(b.bridgeForwardDelay + b.bridgeMaxAge, b.now)
    then b.(topologyChangeTimer := b.topologyChangeTimer.Clear(),
            topologyChangeDetected := false, topologyChange := false)
    else b
  }

  function CheckTimers(b: Bridge): (r: Bridge)
    ensures |r.ports| == |b.ports|
  {
    var c := CheckTopologyChange(CheckTcn(CheckHello(b)));
    CheckAllPorts(c, |c.ports|)
  }
}
