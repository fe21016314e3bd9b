/**
 Further consequences of single events: an inferior message is answered, a lost root role and a blocked
 port are notified, information heard again is young again, and settings are kept.
 */
module BridgeAnswers {
  import opened BridgeTypes
  import opened BridgeSpec
  import opened BridgeRoles
  import opened BridgeInvariant
  import opened BridgeRuns
  import opened BridgeProgress
  import opened BridgeEvents
  import opened BridgeNews

  // ----- messages that are not accepted -----------------------------------------------------

  /** A message that is worse than what a designated port announces is answered there; a message that is
      not accepted changes nothing on any other port. */
  lemma InferiorIsAnswered(b: Bridge, i: nat, m: ConfigBpdu, r: nat)
    requires Inv(b) && i < |b.ports| && (b.ports[i].Enabled() ==> !Supersedes(b, b.ports[i], m.vector))
    ensures Allowed(b, ConfigReceived(i, m))
    ensures var c := Step(b, ConfigReceived(i, m));
            if b.ports[i].Enabled() && IsDesignated(b, b.ports[i]) then
              && |c.ports| == |b.ports|
              && (IsRoot(b) ==> Tells(b, c, i, 0))
              && (r < |b.ports| && b.ports[r].portNo == b.rootPort ==>
                    Tells(b, c, i, b.now - b.ports[r].messageAgeTimer.start + 1))
            else c == b
  {
    hide TransmitConfig, Tells, Supersedes, AcceptConfig;
    if b.ports[i].Enabled() && IsDesignated(b, b.ports[i]) {
      DesignatedOffers(b, i);
      TransmitTells(b, i);
      if r < |b.ports| && b.ports[r].portNo == b.rootPort {
        AgeFromRootPort(b, r);
      }
    }
  }

  /** What a port holds is accepted again, and is as old as the message that repeats it. */
  lemma HeardAgain(b: Bridge, i: nat, m: ConfigBpdu)
    requires Inv(b) && Allowed(b, ConfigReceived(i, m)) && b.ports[i].Enabled() && m.vector == b.ports[i].designated
    ensures Supersedes(b, b.ports[i], m.vector)
    ensures var c := Step(b, ConfigReceived(i, m));
            i < |c.ports| && c.ports[i].messageAgeTimer.start == b.now - m.messageAge
  {
    hide AcceptConfig, Inv, Goes;
    InvAlone(b);
    RecordedGoes(b, i, m, i);
    GoesMeans(RecordConfig(b, i, m), AcceptConfig(b, i, m), i);
  }

  // ----- the root role is lost --------------------------------------------------------------

  /** What was detected stays detected in a reconfiguration. */
  predicate Keeps(b: Bridge, c: Bridge) {
    b.topologyChangeDetected ==> c.topologyChangeDetected
  }

  lemma SelectKeepsDetected(b: Bridge, i: nat)
    requires i < |b.ports|
    ensures Keeps(b, SelectState(b, i))
  {
    hide MakeForwarding;
  }

  lemma {:induction false} SelectionKeepsDetected(b: Bridge, k: nat)
    requires k <= |b.ports|
    ensures Keeps(b, StateSelection(b, k))
    decreases k
  {
    hide SelectState;
    if k > 0 {
      SelectionKeepsDetected(b, k - 1);
      SelectKeepsDetected(StateSelection(b, k - 1), k - 1);
    }
  }

  lemma ReconfigureKeepsDetected(b: Bridge)
    ensures Keeps(b, Reconfigure(b))
  {
    hide StateSelection, RootSelection;
    RootSelectionOnly(b);
    SelectionKeepsDetected(ConfigurationUpdate(b), |b.ports|);
  }

  lemma LoseRootNotifies(c: Bridge)
    requires Inv(c) && !IsRoot(c) && c.topologyChangeDetected
    ensures var d := LoseRoot(c); Notifies(c, d) && d.tcnTimer == Started(c.now) && c.trace <= d.trace
    ensures !LoseRoot(c).topologyChangeTimer.running
  {
    var d := LoseRoot(c);
    var r := RootPortNamed(c);
    if c.stpEnabled {
      assert d.trace[|c.trace|].SentTcn? && d.trace[|c.trace|].from.portNo == d.rootPort;
    }
  }

  lemma NotifiesSince(a: Bridge, b: Bridge, c: Bridge, d: Bridge)
    requires a.trace <= b.trace && Notifies(b, c) && c.trace <= d.trace && d.rootPort == c.rootPort && d.stpEnabled == c.stpEnabled
    ensures Notifies(a, d)
  {
    if c.stpEnabled {
      var k :| |b.trace| <= k < |c.trace| && c.trace[k].SentTcn? && c.trace[k].from.portNo == c.rootPort;
      assert d.trace[k] == c.trace[k];
    }
  }

  /** A root that gives way to a better one stops its hello timer; if it has noted a topology change it
      notifies the new root, and goes on doing so unless the message acknowledges that. */
  lemma LostRootNotifies(b: Bridge, i: nat, m: ConfigBpdu)
    requires Inv(b) && IsRoot(b) && Allowed(b, ConfigReceived(i, m)) && b.ports[i].Enabled()
    requires Supersedes(b, b.ports[i], m.vector) && !IsRoot(Step(b, ConfigReceived(i, m)))
    ensures var c := Step(b, ConfigReceived(i, m));
            && !c.helloTimer.running
            && (b.topologyChangeDetected ==>
                  Notifies(b, c) && (c.tcnTimer == Started(b.now) || m.topologyChangeAck))
  {
    hide Inv, Reconfigure, LoseRoot, RelayFromRoot, Supersedes, Notifies, SameRoles;
    var a := RecordConfig(b, i, m);
    var e := Reconfigure(a);
    RecordedKeeps(b, i, m);
    ReconfigureKeepsDetected(a);
    ReconfigureHeld(a);
    ReconfigureNow(a);
    var d := Recorded(b, i, m);
    var c := Step(b, ConfigReceived(i, m));
    assert c == if b.ports[i].portNo == d.rootPort then RelayFromRoot(d, m) else d by { AcceptIs(b, i, m); }
    RecordedGoesOn(b, i, m);
    RelayKeeps(d, m);
    SameRootIds(d, RelayFromRoot(d, m));
    LoseRootKeepsRoot(e);
    LoseRootHello(e);
    RelayTimers(d, m);
    if b.topologyChangeDetected {
      LoseRootNotifies(e);
      NotifiesSince(b, e, d, c);
    }
  }

  lemma SameRootIds(b: Bridge, c: Bridge)
    requires SameRoles(b, c)
    ensures IsRoot(b) == IsRoot(c) && c.rootPort == b.rootPort && c.stpEnabled == b.stpEnabled
  {
  }

  lemma LoseRootKeepsRoot(e: Bridge)
    ensures IsRoot(LoseRoot(e)) == IsRoot(e)
  {
  }

  lemma LoseRootHello(e: Bridge)
    ensures !LoseRoot(e).helloTimer.running
  {
  }

  lemma RelayTimers(d: Bridge, m: ConfigBpdu)
    requires Inv(d)
    ensures var c := RelayFromRoot(d, m);
            && c.helloTimer == d.helloTimer && d.trace <= c.trace
            && (!m.topologyChangeAck ==> c.tcnTimer == d.tcnTimer)
  {
    hide ConfigGeneration, Consistent;
    var e := RecordTimeouts(d, m);
    PlainChangeKeeps(d, e);
    AnnouncesAll(e);
  }

  // ----- a port is blocked ------------------------------------------------------------------

  predicate Carrying(s: PortState) {
    s == Forwarding || s == Learning
  }

  /** If port i has stopped learning or forwarding, a topology change has been detected. */
  ghost predicate Noticed(b: Bridge, c: Bridge, i: nat) {
    && i < |b.ports| && |c.ports| == |b.ports| && Keeps(b, c)
    && (Carrying(b.ports[i].state) && !Carrying(c.ports[i].state) ==> c.topologyChangeDetected)
  }

  lemma NoticedTransitive(a: Bridge, b: Bridge, c: Bridge, i: nat)
    requires Noticed(a, b, i) && Noticed(b, c, i)
    ensures Noticed(a, c, i)
  {
  }

  lemma SelectNotices(b: Bridge, j: nat, i: nat)
    requires i < |b.ports| && j < |b.ports|
    ensures Noticed(b, SelectState(b, j), i)
  {
    hide TransmitTcn;
  }

  lemma {:induction false} SelectionNotices(b: Bridge, k: nat, i: nat)
    requires i < |b.ports| && k <= |b.ports|
    ensures Noticed(b, StateSelection(b, k), i)
    decreases k
  {
    hide SelectState, Noticed;
    if k == 0 {
      NothingNoticed(b, b, i);
    } else {
      var c := StateSelection(b, k - 1);
      SelectionNotices(b, k - 1, i);
      SelectNotices(c, k - 1, i);
      NoticedTransitive(b, c, SelectState(c, k - 1), i);
    }
  }

  lemma NothingNoticed(b: Bridge, c: Bridge, i: nat)
    requires i < |b.ports| && |c.ports| == |b.ports| && Keeps(b, c) && c.ports[i].state == b.ports[i].state
    ensures Noticed(b, c, i)
  {
  }

  lemma ReconfigureNotices(b: Bridge, i: nat)
    requires i < |b.ports|
    ensures Noticed(b, Reconfigure(b), i)
  {
    hide StateSelection, RootSelection, Noticed;
    RootSelectionOnly(b);
    var c := ConfigurationUpdate(b);
    NothingNoticed(b, c, i);
    SelectionNotices(c, |c.ports|, i);
    NoticedTransitive(b, c, Reconfigure(b), i);
  }

  /** Announcing changes no state. */
  lemma {:induction false} GenerationStates(b: Bridge, k: nat, i: nat)
    requires k <= |b.ports| && i < |b.ports|
    ensures ConfigGeneration(b, k).ports[i].state == b.ports[i].state
    decreases k
  {
    hide TransmitConfig;
    if k > 0 {
      GenerationStates(b, k - 1, i);
      TransmitState(ConfigGeneration(b, k - 1), k - 1, i);
    }
  }

  lemma TransmitState(b: Bridge, j: nat, i: nat)
    requires i < |b.ports| && j < |b.ports|
    ensures TransmitConfig(b, j).ports[i].state == b.ports[i].state
  {
    hide ConfigFor;
  }

  lemma BecomeRootNotices(b: Bridge, i: nat)
    requires i < |b.ports|
    ensures Noticed(b, BecomeRoot(b), i)
  {
    hide ConfigGeneration, TopologyChangeDetection;
    var a := b.(maxAge := b.bridgeMaxAge, helloTime := b.bridgeHelloTime, forwardDelay := b.bridgeForwardDelay);
    DetectionPorts(a);
    var c := TopologyChangeDetection(a);
    assert c.topologyChangeDetected by { Detects(a); }
    var d := c.(tcnTimer := c.tcnTimer.Clear());
    GenerationFlags(d, |d.ports|);
  }

  lemma Detects(a: Bridge)
    ensures TopologyChangeDetection(a).topologyChangeDetected
  {
  }

  lemma PromoteNotices(b: Bridge, a: Bridge, wasRoot: bool, i: nat)
    requires i < |a.ports| && Noticed(b, a, i)
    ensures Noticed(b, BecomeRootIfNew(Reconfigure(a), wasRoot), i)
  {
    hide Reconfigure, BecomeRoot, Noticed;
    ReconfigureNotices(a, i);
    NoticedTransitive(b, a, Reconfigure(a), i);
    BecomeRootNotices(Reconfigure(a), i);
    NoticedTransitive(b, Reconfigure(a), BecomeRoot(Reconfigure(a)), i);
  }

  lemma AcceptNotices(b: Bridge, j: nat, m: ConfigBpdu, i: nat)
    requires i < |b.ports| && j < |b.ports|
    ensures Noticed(b, AcceptConfig(b, j, m), i) || m.topologyChangeAck
  {
    hide Reconfigure, LoseRoot, RelayFromRoot, Noticed;
    var a := RecordConfig(b, j, m);
    NothingNoticed(b, a, i);
    ReconfigureNotices(a, i);
    var c := Reconfigure(a);
    NoticedTransitive(b, a, c, i);
    LoseRootNotices(c, i);
    NoticedTransitive(b, c, LoseRoot(c), i);
    var d := if IsRoot(b) && !IsRoot(c) then LoseRoot(c) else c;
    if !m.topologyChangeAck {
      RelayNotices(d, m, i);
      NoticedTransitive(b, d, RelayFromRoot(d, m), i);
    }
  }

  lemma LoseRootNotices(c: Bridge, i: nat)
    requires i < |c.ports|
    ensures Noticed(c, LoseRoot(c), i)
  {
  }

  lemma RelayNotices(d: Bridge, m: ConfigBpdu, i: nat)
    requires i < |d.ports| && !m.topologyChangeAck
    ensures Noticed(d, RelayFromRoot(d, m), i)
  {
    hide ConfigGeneration;
    var e := RecordTimeouts(d, m);
    GenerationStates(e, |e.ports|, i);
    GenerationFlags(e, |e.ports|);
  }

  /** Whatever the event, if it makes a port stop learning or forwarding without being about taking that
      port down or up, the bridge has detected a topology change, unless the event is a message that
      acknowledges one. */
  lemma BlockedIsNoted(b: Bridge, e: Input, i: nat)
    requires Inv(b) && Allowed(b, e) && !e.Tick? && e != PortDown(i) && e != PortUp(i)
    requires i < |b.ports| && Carrying(b.ports[i].state) && i < |Step(b, e).ports| && !Carrying(Step(b, e).ports[i].state)
    ensures Step(b, e).topologyChangeDetected || (e.ConfigReceived? && e.bpdu.topologyChangeAck)
  {
    hide Reconfigure, BecomeRoot, AcceptConfig, TransmitConfig, Noticed, StateSelection, BecomeRootIfNew, Inv;
    match e {
      case ConfigReceived(j, m) =>
        AcceptNotices(b, j, m, i);
        TransmitState(b, j, i);
        NoticedMeans(b, AcceptConfig(b, j, m), i);
      case TcnReceived(j) =>
        TcnStates(b, j, i);
      case PortUp(j) =>
        var c := InitPort(b, j);
        NothingNoticed(b, c, i);
        SelectionNotices(c, |c.ports|, i);
        NoticedTransitive(b, c, EnablePort(b, j), i);
        NoticedMeans(b, Step(b, e), i);
      case PortDown(j) =>
        NothingNoticed(b, ClosePort(b, j), i);
        PromoteNotices(b, ClosePort(b, j), IsRoot(b), i);
        NoticedMeans(b, Step(b, e), i);
      case NewAddress(addr) =>
        NothingNoticed(b, Renamed(b, addr), i);
        PromoteNotices(b, Renamed(b, addr), IsRoot(b), i);
        NoticedMeans(b, Step(b, e), i);
      case NewPriority(priority) =>
        NothingNoticed(b, Ranked(b, priority), i);
        PromoteNotices(b, Ranked(b, priority), IsRoot(b), i);
        NoticedMeans(b, Step(b, e), i);
      case NewPathCost(j, cost) =>
        var c := SetPort(b, j, b.ports[j].(pathCost := cost));
        NothingNoticed(b, c, i);
        ReconfigureNotices(c, i);
        NoticedTransitive(b, c, Reconfigure(c), i);
        NoticedMeans(b, Step(b, e), i);
    }
  }

  lemma NoticedMeans(b: Bridge, c: Bridge, i: nat)
    ensures Noticed(b, c, i) && Carrying(b.ports[i].state) && !Carrying(c.ports[i].state) ==> c.topologyChangeDetected
  {
  }

  lemma TcnStates(b: Bridge, j: nat, i: nat)
    requires i < |b.ports| && j < |b.ports|
    ensures ReceivedTcn(b, j).ports[i].state == b.ports[i].state
  {
    hide TransmitConfig, TopologyChangeDetection;
    DetectionPorts(b);
    var d := SetPort(TopologyChangeDetection(b), j, b.ports[j].(topologyChangeAck := true));
    TransmitState(d, j, i);
  }

  // ----- settings ---------------------------------------------------------------------------

  /** A new path cost is the port's from then on, and no other port's. */
  lemma PathCostIsSet(b: Bridge, i: nat, cost: int, j: nat)
    requires Inv(b) && Allowed(b, NewPathCost(i, cost)) && j < |b.ports|
    ensures var c := Step(b, NewPathCost(i, cost));
            |c.ports| == |b.ports| && c.ports[j].pathCost == if j == i then cost else b.ports[j].pathCost
  {
    hide StateSelection, RootSelection;
    var a := SetPort(b, i, b.ports[i].(pathCost := cost));
    var u := ConfigurationUpdate(a);
    RootSelectionOnly(a);
    StateSelectionHeld(u, |u.ports|);
    assert SameRole(u.ports[j], Step(b, NewPathCost(i, cost)).ports[j]);
  }

  /** A root that changes its address stays root: what its ports hold about it is renamed with it. */
  lemma RootStaysRoot(b: Bridge, addr: int)
    requires Inv(b) && IsRoot(b)
    ensures IsRoot(Step(b, NewAddress(addr)))
  {
    hide Reconfigure, BecomeRootIfNew, AddrOf, WithAddr, Consistent;
    var a := Renamed(b, addr);
    assert Reconfigurable(a) && forall i | 0 <= i < |a.ports| :: !Eligible(a, a.ports[i]) by { RenamedRoot(b, addr); }
    RootSelectionAgrees(a);
    ReconfigureAndPromote(a, true);
    assert IsRoot(ConfigurationUpdate(a)) by { NobodyEligible(a); }
  }

  lemma RenamedRoot(b: Bridge, addr: int)
    requires Inv(b) && IsRoot(b)
    ensures Reconfigurable(Renamed(b, addr))
    ensures var a := Renamed(b, addr); forall i | 0 <= i < |a.ports| :: !Eligible(a, a.ports[i])
  {
    hide AddrOf, WithAddr;
    var a := Renamed(b, addr);
    RelabelReconfigurable(b, a);
    forall i | 0 <= i < |a.ports|
      ensures !Eligible(a, a.ports[i])
    {
      assert RoleAgrees(b, b.ports[i]);
    }
  }

  lemma NobodyEligible(a: Bridge)
    requires forall i | 0 <= i < |a.ports| :: !Eligible(a, a.ports[i])
    ensures IsRoot(ConfigurationUpdate(a))
  {
    assert BestPort(a, |a.ports|) == -1;
  }
}
