/**
 The bridge as the kernel runs it: an object with port objects, updated in place by loops over
 the port list.  Every method is proved to compute what BridgeSpec says.
 */
module BridgeObject {
  import opened BridgeTypes
  import opened BridgeRoles
  import opened BridgeInvariant
  import opened BridgeRuns
  import opened BridgeProgress
  import opened BridgeTheorems
  import S = BridgeSpec

  class PortObject {
    const portNo: int
    var priority: int
    var portId: int
    var pathCost: int
    var state: PortState
    var designated: Vector
    var topologyChangeAck: bool
    var configPending: bool
    var messageAgeTimer: Timer
    var forwardDelayTimer: Timer
    var holdTimer: Timer

    constructor (no: int, cost: int)
      ensures portNo == no && pathCost == cost && state == Disabled
      ensures priority == 0x80 && portId == S.PortId(0x80, no)
      ensures !topologyChangeAck && !configPending
    {
      portNo, pathCost, state := no, cost, Disabled;
      priority, portId := 0x80, S.PortId(0x80, no);
      designated := Vector(0, 0, 0, 0);
      topologyChangeAck, configPending := false, false;
      messageAgeTimer, forwardDelayTimer, holdTimer := Timer(false, 0), Timer(false, 0), Timer(false, 0);
    }

    ghost function View(): Port
      reads this
    {
      Port(portNo, priority, portId, pathCost, state, designated, topologyChangeAck, configPending,
           messageAgeTimer, forwardDelayTimer, holdTimer)
    }
  }

  /** A root port that is named can be found. */
  ghost predicate Listed(b: Bridge) {
    S.IsRoot(b) || S.FindPort(b.ports, b.rootPort) >= 0
  }

  lemma ListedFrame(b: Bridge, c: Bridge)
    requires Listed(b) && SameCore(b, c)
    ensures Listed(c)
  {
    var r := S.FindPort(b.ports, b.rootPort);
    if r >= 0 {
      assert SameRole(b.ports[r], c.ports[r]);
    }
  }

  lemma UpdateLists(b: Bridge)
    requires WellFormed(b)
    ensures Listed(S.ConfigurationUpdate(b)) && WellFormed(S.ConfigurationUpdate(b))
  {
    UpdateAgrees(b);
    var r := RootPortNamed(S.ConfigurationUpdate(b));
  }

  lemma ConsistentLists(b: Bridge)
    requires Consistent(b)
    ensures Listed(b)
  {
    var r := RootPortNamed(b);
  }

  lemma BestStep(b: Bridge, k: nat)
    requires k < |b.ports|
    ensures var r := S.BestPort(b, k);
            S.BestPort(b, k + 1) ==
            if S.Eligible(b, b.ports[k]) && (r == -1 || S.Better(b.ports[k], b.ports[r])) then k else r
  {
  }

  lemma InvLists(b: Bridge)
    requires Inv(b)
    ensures Listed(b) && WellFormed(b)
  {
    ConsistentLists(b);
  }

  lemma SelectionLists(b: Bridge, k: nat)
    requires Listed(b) && k <= |b.ports|
    ensures Listed(S.StateSelection(b, k))
  {
    StateSelectionHeld(b, k);
    ListedFrame(b, S.StateSelection(b, k));
  }

  lemma TransmitSame(b: Bridge, i: nat)
    requires i < |b.ports|
    ensures SameCore(b, S.TransmitConfig(b, i))
  {
  }

  lemma RootTakeoverSame(b: Bridge)
    ensures var a := b.(maxAge := b.bridgeMaxAge, helloTime := b.bridgeHelloTime,
                        forwardDelay := b.bridgeForwardDelay);
            var c := S.TopologyChangeDetection(a);
            SameCore(b, c.(tcnTimer := c.tcnTimer.Clear()))
  {
  }

  lemma LoseRootSame(b: Bridge)
    ensures SameCore(b, S.LoseRoot(b))
  {
  }

  lemma RecordKeepsForm(b: Bridge, i: nat, m: ConfigBpdu)
    requires WellFormed(b) && i < |b.ports|
    ensures WellFormed(S.RecordConfig(b, i, m))
  {
    assert GoodPort(b.ports[i]);
  }

  lemma CostKeepsForm(b: Bridge, i: nat, cost: int)
    requires WellFormed(b) && i < |b.ports| && cost >= 1
    ensures WellFormed(S.SetPort(b, i, b.ports[i].(pathCost := cost)))
  {
    assert GoodPort(b.ports[i]);
  }

  lemma CloseKeepsForm(b: Bridge, i: nat)
    requires WellFormed(b) && i < |b.ports|
    ensures WellFormed(S.ClosePort(b, i))
  {
    assert GoodPort(b.ports[i]);
  }

  lemma AgedKeepsForm(b: Bridge, i: nat)
    requires WellFormed(b) && i < |b.ports|
    ensures var c := S.SetPort(b, i, b.ports[i].(messageAgeTimer := b.ports[i].messageAgeTimer.Clear()));
            WellFormed(S.SetPort(c, i, S.BecomeDesignated(c, c.ports[i])))
  {
    assert GoodPort(b.ports[i]);
  }

  /** Numbers are not touched by bringing a port up. */
  lemma InitLists(b: Bridge, i: nat)
    requires Listed(b) && i < |b.ports|
    ensures Listed(S.InitPort(b, i))
  {
    var r := S.FindPort(b.ports, b.rootPort);
    if r >= 0 {
      assert S.InitPort(b, i).ports[r].portNo == b.rootPort;
    }
  }

  lemma SetTwice(b: Bridge, i: nat, q: Port)
    requires i < |b.ports|
    ensures var c := S.SetPort(b, i, q);
            S.SetPort(c, i, S.MakeForwarding(c, c.ports[i])) == S.SetPort(b, i, S.MakeForwarding(b, q))
  {
    var p := S.MakeForwarding(b, q);
    assert b.ports[i := q][i := p] == b.ports[i := p];
  }

  /** Designated port selection applied to the first k ports only. */
  function Redesignated(b: Bridge, k: nat): Bridge {
    b.(ports := seq(|b.ports|, i requires 0 <= i < |b.ports| =>
                      if i < k then S.Redesignate(b, b.ports[i]) else b.ports[i]))
  }

  lemma RedesignatedStep(b: Bridge, k: nat)
    requires k < |b.ports|
    ensures var c := Redesignated(b, k);
            Redesignated(b, k + 1) == S.SetPort(c, k, S.Redesignate(c, c.ports[k]))
  {
    var c := Redesignated(b, k);
    assert S.Redesignate(c, c.ports[k]) == S.Redesignate(b, b.ports[k]);
    assert Redesignated(b, k + 1).ports == c.ports[k := S.Redesignate(b, b.ports[k])];
  }

  function RenamedPrefix(b: Bridge, addr: int, k: nat): Bridge {
    b.(bridgeId := S.WithAddr(b.bridgeId, addr),
       ports := seq(|b.ports|, i requires 0 <= i < |b.ports| =>
                      if i < k then S.RenamedPort(b.ports[i], S.AddrOf(b.bridgeId), addr) else b.ports[i]))
  }

  lemma RenamedStep(b: Bridge, addr: int, k: nat)
    requires k < |b.ports|
    ensures var c := RenamedPrefix(b, addr, k);
            RenamedPrefix(b, addr, k + 1)
            == S.SetPort(c, k, S.RenamedPort(c.ports[k], S.AddrOf(b.bridgeId), addr))
  {
    var c := RenamedPrefix(b, addr, k);
    assert RenamedPrefix(b, addr, k + 1).ports
           == c.ports[k := S.RenamedPort(b.ports[k], S.AddrOf(b.bridgeId), addr)];
  }

  lemma RankedStep(b: Bridge, prio: int, k: nat)
    requires k < |b.ports|
    ensures var c := RankedPrefix(b, prio, k);
            RankedPrefix(b, prio, k + 1) == S.SetPort(c, k, S.RankedPort(c, c.ports[k], prio))
  {
    var c := RankedPrefix(b, prio, k);
    assert RankedPrefix(b, prio, k + 1).ports == c.ports[k := S.RankedPort(b, b.ports[k], prio)];
  }

  function RankedPrefix(b: Bridge, prio: int, k: nat): Bridge {
    b.(ports := seq(|b.ports|, i requires 0 <= i < |b.ports| =>
                      if i < k then S.RankedPort(b, b.ports[i], prio) else b.ports[i]))
  }

  class BridgeObject {
    const hz: nat
    const ports: seq<PortObject>
    var bridgeId: int
    var designatedRoot: int
    var rootPathCost: int
    var rootPort: int
    var maxAge: int
    var helloTime: int
    var forwardDelay: int
    var bridgeMaxAge: int
    var bridgeHelloTime: int
    var bridgeForwardDelay: int
    var stpEnabled: bool
    var topologyChange: bool
    var topologyChangeDetected: bool
    var helloTimer: Timer
    var tcnTimer: Timer
    var topologyChangeTimer: Timer
    var now: int
    ghost var trace: seq<Event>

    /** The port list is fixed: distinct objects with distinct numbers in 1..255. */
    ghost predicate Valid() {
      && (forall i, j | 0 <= i < j < |ports| :: ports[i] != ports[j] && ports[i].portNo != ports[j].portNo)
      && (forall i | 0 <= i < |ports| :: 1 <= ports[i].portNo <= 255)
    }

    ghost function Views(): (s: seq<Port>)
      reads ports
      ensures |s| == |ports| && forall i | 0 <= i < |ports| :: s[i] == ports[i].View()
    {
      seq(|ports|, i requires 0 <= i < |ports| reads ports => ports[i].View())
    }

    ghost function Abs(): (b: Bridge)
      reads this, ports
      ensures |b.ports| == |ports| && forall i | 0 <= i < |ports| :: b.ports[i] == ports[i].View()
    {
      Bridge(hz, bridgeId, designatedRoot, rootPathCost, rootPort, maxAge, helloTime, forwardDelay,
             bridgeMaxAge, bridgeHelloTime, bridgeForwardDelay, stpEnabled, topologyChange,
             topologyChangeDetected, helloTimer, tcnTimer, topologyChangeTimer, Views(), now, trace)
    }

    constructor (hz: nat, ports: seq<PortObject>, id: int, maxAge: int, helloTime: int, forwardDelay: int,
                 stp: bool)
      requires forall i, j | 0 <= i < j < |ports| :: ports[i] != ports[j] && ports[i].portNo != ports[j].portNo
      requires forall i | 0 <= i < |ports| :: 1 <= ports[i].portNo <= 255
      ensures Valid() && this.ports == ports && this.hz == hz && stpEnabled == stp && bridgeId == id
      ensures WellFormed(Abs())
              && (forall i | 0 <= i < |ports| ::
                    !Abs().ports[i].Enabled() && !Abs().ports[i].configPending && !Abs().ports[i].topologyChangeAck)
              ==> Initial(Abs())
    {
      this.hz, this.ports := hz, ports;
      bridgeId, designatedRoot, rootPathCost, rootPort := id, id, 0, 0;
      this.maxAge, this.helloTime, this.forwardDelay := maxAge, helloTime, forwardDelay;
      bridgeMaxAge, bridgeHelloTime, bridgeForwardDelay := maxAge, helloTime, forwardDelay;
      stpEnabled, topologyChange, topologyChangeDetected := stp, false, false;
      helloTimer, tcnTimer, topologyChangeTimer := Timer(false, 0), Timer(false, 0), Timer(false, 0);
      now, trace := 0, [];
    }

    /** Only port i has changed. */
    twostate lemma PortChanged(i: nat)
      requires Valid() && i < |ports|
      requires unchanged(this) && forall j | 0 <= j < |ports| && j != i :: unchanged(ports[j])
      ensures Abs() == S.SetPort(old(Abs()), i, ports[i].View())
    {
      assert Views() == old(Views())[i := ports[i].View()];
    }

    /** The bridge's own fields are those of the value. */
    lemma Fields()
      ensures bridgeId == Abs().bridgeId && designatedRoot == Abs().designatedRoot && rootPort == Abs().rootPort
      ensures stpEnabled == Abs().stpEnabled && now == Abs().now && hz == Abs().hz
      ensures topologyChange == Abs().topologyChange && topologyChangeDetected == Abs().topologyChangeDetected
      ensures topologyChangeTimer == Abs().topologyChangeTimer
    {
    }

    // ----- reading ------------------------------------------------------------------------

    method IsRootBridge() returns (r: bool)
      ensures r == S.IsRoot(Abs())
    {
      r := bridgeId == designatedRoot;
    }

    method IsDesignatedPort(p: PortObject) returns (r: bool)
      ensures r == S.IsDesignated(Abs(), p.View())
    {
      r := p.designated.bridge == bridgeId && p.designated.port == p.portId;
    }

    method GetPort(no: int) returns (i: int)
      requires Valid()
      ensures i == S.FindPort(Abs().ports, no)
    {
      i := 0;
      while i < |ports|
        invariant 0 <= i <= |ports|
        invariant forall j | 0 <= j < i :: ports[j].portNo != no
      {
        if ports[i].portNo == no {
          return;
        }
        i := i + 1;
      }
      i := -1;
    }

    // ----- roles --------------------------------------------------------------------------

    /** rootNo is the number of port best, or 0 if there is no such port yet. */
    ghost predicate Names(rootNo: int, best: int) {
      if best == -1 then rootNo == 0 else 0 <= best < |ports| && rootNo == ports[best].portNo
    }

    method ShouldBecomeRootPort(p: PortObject, rootNo: int, ghost best: int) returns (r: bool)
      requires Valid() && Names(rootNo, best)
      ensures r == (S.Eligible(Abs(), p.View()) && (best == -1 || S.Better(p.View(), ports[best].View())))
    {
      var designated := IsDesignatedPort(p);
      if p.state == Disabled || designated {
        return false;
      }
      if bridgeId <= p.designated.root {
        return false;
      }
      if rootNo == 0 {
        return true;
      }
      var k := GetListedPort(rootNo, best);
      var rp := ports[k];
      if p.designated.root != rp.designated.root {
        return p.designated.root < rp.designated.root;
      }
      if p.designated.cost + p.pathCost != rp.designated.cost + rp.pathCost {
        return p.designated.cost + p.pathCost < rp.designated.cost + rp.pathCost;
      }
      if p.designated.bridge != rp.designated.bridge {
        return p.designated.bridge < rp.designated.bridge;
      }
      if p.designated.port != rp.designated.port {
        return p.designated.port < rp.designated.port;
      }
      return p.portId < rp.portId;
    }

    lemma FoundAt(k: nat)
      requires Valid() && k < |ports|
      ensures S.FindPort(Abs().ports, ports[k].portNo) == k
    {
    }

    /** Number of the best port, or 0. */
    method FindRootPort() returns (no: int)
      requires Valid()
      ensures Names(no, S.BestPort(Abs(), |ports|))
    {
      hide S.BestPort, S.Better, S.Eligible;
      no := 0;
      ghost var best := -1;
      var i := 0;
      while i < |ports|
        invariant 0 <= i <= |ports|
        invariant best == S.BestPort(Abs(), i) && Names(no, best)
      {
        var better := ShouldBecomeRootPort(ports[i], no, best);
        BestStep(Abs(), i);
        if better {
          no, best := ports[i].portNo, i;
        }
        i := i + 1;
      }
    }

    /** Looking up a number that is known to be listed. */
    method GetListedPort(no: int, ghost best: nat) returns (k: nat)
      requires Valid() && best < |ports| && no == ports[best].portNo
      ensures k == best
    {
      FoundAt(best);
      k := GetPort(no);
    }

    method AdoptRoot(no: int, ghost best: int)
      requires Valid() && Names(no, best)
      modifies this`rootPort, this`designatedRoot, this`rootPathCost
      ensures -1 <= best < |ports| && Abs() == S.AdoptRoot(old(Abs()), best)
    {
      hide Abs;
      Fields();
      if no == 0 {
        SetRoot(0, bridgeId, 0);
      } else {
        var k := GetListedPort(no, best);
        SetRoot(no, ports[k].designated.root, ports[k].designated.cost + ports[k].pathCost);
      }
    }

    method SetRoot(no: int, root: int, cost: int)
      modifies this`rootPort, this`designatedRoot, this`rootPathCost
      ensures Abs() == old(Abs()).(rootPort := no, designatedRoot := root, rootPathCost := cost)
    {
      rootPort, designatedRoot, rootPathCost := no, root, cost;
      assert Views() == old(Views());
    }

    method RootSelection()
      requires Valid()
      modifies this`rootPort, this`designatedRoot, this`rootPathCost
      ensures Abs() == S.RootSelection(old(Abs()))
    {
      var no := FindRootPort();
      AdoptRoot(no, S.BestPort(Abs(), |ports|));
    }

    method ShouldBecomeDesignatedPort(p: PortObject) returns (r: bool)
      ensures r == S.ShouldBecomeDesignated(Abs(), p.View())
    {
      var designated := IsDesignatedPort(p);
      if designated || p.designated.root != designatedRoot {
        return true;
      }
      if rootPathCost != p.designated.cost {
        return rootPathCost < p.designated.cost;
      }
      if bridgeId != p.designated.bridge {
        return bridgeId < p.designated.bridge;
      }
      return p.portId < p.designated.port;
    }

    method BecomeDesignatedPort(i: nat)
      requires Valid() && i < |ports|
      modifies ports[i]
      ensures Abs() == S.SetPort(old(Abs()), i, S.BecomeDesignated(old(Abs()), old(Abs()).ports[i]))
    {
      var p := ports[i];
      p.designated := Vector(designatedRoot, rootPathCost, bridgeId, p.portId);
      PortChanged(i);
    }

    method Redesignate(i: nat)
      requires Valid() && i < |ports|
      modifies ports[i]
      ensures Abs() == S.SetPort(old(Abs()), i, S.Redesignate(old(Abs()), old(Abs()).ports[i]))
    {
      var take := ShouldBecomeDesignatedPort(ports[i]);
      if ports[i].state != Disabled && take {
        BecomeDesignatedPort(i);
      } else {
        PortChanged(i);
      }
    }

    method DesignatedPortSelection()
      requires Valid()
      modifies ports
      ensures Abs() == S.DesignatedPortSelection(old(Abs()))
    {
      ghost var b := Abs();
      var i := 0;
      assert b.ports == Redesignated(b, 0).ports;
      while i < |ports|
        invariant 0 <= i <= |ports| && Abs() == Redesignated(b, i)
      {
        Redesignate(i);
        RedesignatedStep(b, i);
        i := i + 1;
      }
      assert Redesignated(b, |ports|).ports == S.DesignatedPortSelection(b).ports;
    }

    method ConfigurationUpdate()
      requires Valid()
      modifies this, ports
      ensures Abs() == S.ConfigurationUpdate(old(Abs()))
    {
      RootSelection();
      DesignatedPortSelection();
    }

    // ----- sending ------------------------------------------------------------------------

    /** The age for a message sent now. */
    method CurrentAge() returns (age: int)
      requires Valid() && Listed(Abs())
      ensures age == S.MessageAge(Abs())
    {
      var root := IsRootBridge();
      if root {
        return 0;
      }
      var k := GetPort(rootPort);
      age := ports[k].messageAgeTimer.Residue(now) + 1;
    }

    method SendConfig(i: nat, m: ConfigBpdu)
      requires Valid() && i < |ports|
      modifies this`trace, ports[i]
      ensures Abs() == S.SendOn(old(Abs()), i, old(Abs()).ports[i], m)
    {
      hide Abs, S.SenderOf;
      Fields();
      if stpEnabled {
        Log(SentConfig(now, S.SenderOf(Abs()), ports[i].View(), m));
      }
      StartHold(i);
    }

    method StartHold(i: nat)
      requires Valid() && i < |ports|
      modifies ports[i]
      ensures var p := old(Abs()).ports[i];
              Abs() == S.SetPort(old(Abs()), i, p.(topologyChangeAck := false, configPending := false, holdTimer := Started(now)))
    {
      var p := ports[i];
      p.topologyChangeAck := false;
      p.configPending := false;
      p.holdTimer := Started(now);
      PortChanged(i);
    }

    method TransmitConfig(i: nat)
      requires Valid() && i < |ports| && Listed(Abs())
      modifies this`trace, ports[i]
      ensures Abs() == S.TransmitConfig(old(Abs()), i)
    {
      var p := ports[i];
      if p.holdTimer.running {
        p.configPending := true;
        PortChanged(i);
      } else {
        var age := CurrentAge();
        var m := ConfigBpdu(topologyChange, p.topologyChangeAck,
                            Vector(designatedRoot, rootPathCost, bridgeId, p.portId),
                            age, maxAge, helloTime, forwardDelay);
        assert m == S.ConfigFor(Abs(), p.View());
        SendConfig(i, m);
      }
    }

    method GenerateFor(i: nat)
      requires Valid() && i < |ports| && Listed(Abs())
      modifies this`trace, ports[i]
      ensures Abs() == S.GenerateFor(old(Abs()), i) && Listed(Abs())
    {
      var designated := IsDesignatedPort(ports[i]);
      if ports[i].state != Disabled && designated {
        ghost var b := Abs();
        TransmitConfig(i);
        TransmitSame(b, i);
        ListedFrame(b, Abs());
      }
    }

    method ConfigBpduGeneration()
      requires Valid() && Listed(Abs())
      modifies this`trace, ports
      ensures Abs() == S.ConfigGeneration(old(Abs()), |ports|) && Listed(Abs())
    {
      hide Abs, Listed, S.GenerateFor;
      ghost var b := Abs();
      var i := 0;
      while i < |ports|
        invariant 0 <= i <= |ports| && Abs() == S.ConfigGeneration(b, i) && Listed(Abs())
      {
        GenerateFor(i);
        i := i + 1;
      }
    }

    method TransmitTcn()
      requires Valid() && S.FindPort(Abs().ports, rootPort) >= 0
      modifies this`trace
      ensures Abs() == S.TransmitTcn(old(Abs()))
    {
      var k := GetPort(rootPort);
      if stpEnabled {
        trace := trace + [SentTcn(now, ports[k].View())];
      }
      assert Views() == old(Views());
    }

    method TopologyChangeDetection()
      requires Valid() && Listed(Abs())
      modifies this`trace, this`topologyChange, this`topologyChangeTimer, this`tcnTimer, this`topologyChangeDetected
      ensures Abs() == S.TopologyChangeDetection(old(Abs()))
    {
      hide S.TransmitTcn, Abs;
      Fields();
      var root := IsRootBridge();
      if root {
        SetTopologyChange(true, topologyChangeDetected, Started(now));
      } else if !topologyChangeDetected {
        TransmitTcn();
        SetTcnTimer(Started(now));
      }
      Fields();
      SetTopologyChange(topologyChange, true, topologyChangeTimer);
    }

    // ----- states -------------------------------------------------------------------------

    method MakeBlocking(i: nat)
      requires Valid() && i < |ports| && Listed(Abs())
      modifies this`trace, this`topologyChange, this`topologyChangeTimer, this`tcnTimer,
               this`topologyChangeDetected, ports[i]
      ensures Abs() == S.MakeBlocking(old(Abs()), i)
    {
      var p := ports[i];
      if p.state != Disabled && p.state != Blocking {
        if p.state == Forwarding || p.state == Learning {
          TopologyChangeDetection();
        }
        label detected:
        p.state := Blocking;
        p.forwardDelayTimer := p.forwardDelayTimer.Clear();
        PortChanged@detected(i);
      }
    }

    method MakeForwarding(i: nat)
      requires Valid() && i < |ports|
      modifies ports[i]
      ensures Abs() == S.SetPort(old(Abs()), i, S.MakeForwarding(old(Abs()), old(Abs()).ports[i]))
    {
      var p := ports[i];
      if p.state == Blocking {
        p.state := if stpEnabled then Listening else Learning;
        p.forwardDelayTimer := Started(now);
      }
      PortChanged(i);
    }

    method DropPending(i: nat)
      requires Valid() && i < |ports|
      modifies ports[i]
      ensures Abs() == S.SetPort(old(Abs()), i,
                                 old(Abs()).ports[i].(configPending := false, topologyChangeAck := false))
    {
      ports[i].configPending := false;
      ports[i].topologyChangeAck := false;
      PortChanged(i);
    }

    method StopMessageAge(i: nat)
      requires Valid() && i < |ports|
      modifies ports[i]
      ensures var p := old(Abs()).ports[i];
              Abs() == S.SetPort(old(Abs()), i, p.(messageAgeTimer := p.messageAgeTimer.Clear()))
    {
      ports[i].messageAgeTimer := ports[i].messageAgeTimer.Clear();
      PortChanged(i);
    }

    method SelectState(i: nat)
      requires Valid() && i < |ports| && Listed(Abs())
      modifies this`trace, this`topologyChange, this`topologyChangeTimer, this`tcnTimer,
               this`topologyChangeDetected, ports[i]
      ensures Abs() == S.SelectState(old(Abs()), i)
    {
      hide Abs, S.MakeForwarding, S.MakeBlocking, Listed;
      ghost var b := Abs();
      Fields();
      if ports[i].state != Disabled {
        var designated := IsDesignatedPort(ports[i]);
        if ports[i].portNo == rootPort {
          DropPending(i);
          MakeForwarding(i);
          SetTwice(b, i, b.ports[i].(configPending := false, topologyChangeAck := false));
        } else if designated {
          StopMessageAge(i);
          MakeForwarding(i);
          SetTwice(b, i, b.ports[i].(messageAgeTimer := b.ports[i].messageAgeTimer.Clear()));
        } else {
          DropPending(i);
          ListedFrame(b, Abs());
          MakeBlocking(i);
        }
      }
    }

    method PortStateSelection()
      requires Valid() && Listed(Abs())
      modifies this`trace, this`topologyChange, this`topologyChangeTimer, this`tcnTimer,
               this`topologyChangeDetected, ports
      ensures Abs() == S.StateSelection(old(Abs()), |ports|) && Listed(Abs())
    {
      hide S.SelectState, Listed;
      ghost var b := Abs();
      var i := 0;
      while i < |ports|
        invariant 0 <= i <= |ports| && Abs() == S.StateSelection(b, i) && Listed(Abs())
      {
        SelectionLists(b, i + 1);
        SelectState(i);
        i := i + 1;
      }
    }

    /** Roles, then states. */
    method Reconfigure()
      requires Valid() && WellFormed(Abs())
      modifies this, ports
      ensures Abs() == S.Reconfigure(old(Abs())) && Listed(Abs())
    {
      UpdateLists(Abs());
      ConfigurationUpdate();
      PortStateSelection();
    }

    method UseTimes(age: int, hello: int, delay: int)
      modifies this`maxAge, this`helloTime, this`forwardDelay
      ensures Abs() == old(Abs()).(maxAge := age, helloTime := hello, forwardDelay := delay)
    {
      maxAge, helloTime, forwardDelay := age, hello, delay;
      assert Views() == old(Views());
    }

    method SetTcnTimer(t: Timer)
      modifies this`tcnTimer
      ensures Abs() == old(Abs()).(tcnTimer := t)
    {
      tcnTimer := t;
      assert Views() == old(Views());
    }

    method SetHelloTimer(t: Timer)
      modifies this`helloTimer
      ensures Abs() == old(Abs()).(helloTimer := t)
    {
      helloTimer := t;
      assert Views() == old(Views());
    }

    method SetTopologyChange(change: bool, detected: bool, t: Timer)
      modifies this`topologyChange, this`topologyChangeDetected, this`topologyChangeTimer
      ensures Abs() == old(Abs()).(topologyChange := change, topologyChangeDetected := detected,
                                   topologyChangeTimer := t)
    {
      topologyChange, topologyChangeDetected, topologyChangeTimer := change, detected, t;
      assert Views() == old(Views());
    }

    method BecomeRootBridge()
      requires Valid() && Listed(Abs())
      modifies this, ports
      ensures Abs() == S.BecomeRoot(old(Abs()))
    {
      ghost var b := Abs();
      UseTimes(bridgeMaxAge, bridgeHelloTime, bridgeForwardDelay);
      TopologyChangeDetection();
      SetTcnTimer(tcnTimer.Clear());
      assert Listed(Abs()) by {
        RootTakeoverSame(b);
        ListedFrame(b, Abs());
      }
      ConfigBpduGeneration();
      SetHelloTimer(Started(now));
    }

    method BecomeRootIfNew(wasRoot: bool)
      requires Valid() && Listed(Abs())
      modifies this, ports
      ensures Abs() == S.BecomeRootIfNew(old(Abs()), wasRoot)
    {
      var root := IsRootBridge();
      if root && !wasRoot {
        BecomeRootBridge();
      }
    }

    // ----- receiving ----------------------------------------------------------------------

    method SupersedesPortInfo(p: PortObject, v: Vector) returns (r: bool)
      ensures r == S.Supersedes(Abs(), p.View(), v)
    {
      if v.root != p.designated.root {
        return v.root < p.designated.root;
      }
      if v.cost != p.designated.cost {
        return v.cost < p.designated.cost;
      }
      if v.bridge != p.designated.bridge {
        return v.bridge < p.designated.bridge;
      }
      if v.bridge != bridgeId {
        return true;
      }
      return v.port <= p.designated.port;
    }

    method RecordConfigInformation(i: nat, m: ConfigBpdu)
      requires Valid() && i < |ports|
      modifies ports[i]
      ensures Abs() == S.RecordConfig(old(Abs()), i, m)
    {
      ports[i].designated := m.vector;
      ports[i].messageAgeTimer := Started(now - m.messageAge);
      PortChanged(i);
    }

    method LoseRoot()
      requires Valid() && Listed(Abs()) && !S.IsRoot(Abs())
      modifies this
      ensures Abs() == S.LoseRoot(old(Abs()))
    {
      SetHelloTimer(helloTimer.Clear());
      if topologyChangeDetected {
        SetTopologyChange(topologyChange, topologyChangeDetected, topologyChangeTimer.Clear());
        TransmitTcn();
        SetTcnTimer(Started(now));
      }
    }

    method RecordTimeoutValues(m: ConfigBpdu)
      requires Listed(Abs())
      modifies this
      ensures Abs() == S.RecordTimeouts(old(Abs()), m) && Listed(Abs())
    {
      UseTimes(m.maxAge, m.helloTime, m.forwardDelay);
      SetTopologyChange(m.topologyChange, topologyChangeDetected, topologyChangeTimer);
    }

    method TopologyChangeAcknowledged()
      modifies this
      ensures Abs() == S.TopologyChangeAcknowledged(old(Abs()))
    {
      SetTopologyChange(topologyChange, false, topologyChangeTimer);
      SetTcnTimer(tcnTimer.Clear());
    }

    method RelayFromRoot(m: ConfigBpdu)
      requires Valid() && Listed(Abs())
      modifies this, ports
      ensures Abs() == S.RelayFromRoot(old(Abs()), m)
    {
      RecordTimeoutValues(m);
      ConfigBpduGeneration();
      if m.topologyChangeAck {
        TopologyChangeAcknowledged();
      }
    }

    method AcceptConfig(i: nat, m: ConfigBpdu)
      requires Valid() && i < |ports| && WellFormed(Abs())
      modifies this, ports
      ensures Abs() == S.AcceptConfig(old(Abs()), i, m)
    {
      ghost var b := Abs();
      var wasRoot := IsRootBridge();
      RecordConfigInformation(i, m);
      assert WellFormed(Abs()) by {
        RecordKeepsForm(b, i, m);
      }
      Reconfigure();
      ghost var c := Abs();
      var root := IsRootBridge();
      if !root && wasRoot {
        LoseRoot();
        RelayHeld(c, m);
        LoseRootSame(c);
        ListedFrame(c, Abs());
      }
      if ports[i].portNo == rootPort {
        RelayFromRoot(m);
      }
    }

    method ReceivedConfigBpdu(i: nat, m: ConfigBpdu)
      requires Valid() && i < |ports| && Inv(Abs())
      modifies this, ports
      ensures Abs() == S.ReceivedConfig(old(Abs()), i, m)
      ensures Inv(Abs()) <==> !Usurps(old(Abs()), i, m)
    {
      hide Inv, Usurps, S.AcceptConfig, S.TransmitConfig, S.Supersedes, S.IsDesignated, Abs, Listed, WellFormed;
      InvLists(Abs());
      ReceivedConfigKeepsIff(Abs(), i, m);
      if ports[i].state == Disabled {
        return;
      }
      var better := SupersedesPortInfo(ports[i], m.vector);
      if better {
        AcceptConfig(i, m);
      } else {
        var designated := IsDesignatedPort(ports[i]);
        if designated {
          TransmitConfig(i);
        }
      }
    }

    method TopologyChangeAcknowledge(i: nat)
      requires Valid() && i < |ports| && Listed(Abs())
      modifies this`trace, ports[i]
      ensures Abs() == S.TransmitConfig(S.SetPort(old(Abs()), i, old(Abs()).ports[i].(topologyChangeAck := true)), i)
    {
      ghost var b := Abs();
      ports[i].topologyChangeAck := true;
      PortChanged(i);
      ListedFrame(b, Abs());
      TransmitConfig(i);
    }

    method ReceivedTcnBpdu(i: nat)
      requires Valid() && i < |ports| && Inv(Abs())
      modifies this, ports
      ensures Abs() == S.ReceivedTcn(old(Abs()), i) && Inv(Abs())
    {
      ghost var b := Abs();
      ConsistentLists(b);
      var designated := IsDesignatedPort(ports[i]);
      if ports[i].state != Disabled && designated {
        TopologyChangeDetection();
        DetectionHeld(b);
        ListedFrame(b, Abs());
        TopologyChangeAcknowledge(i);
      }
      ReceivedTcnKeeps(b, i);
    }

    // ----- management ---------------------------------------------------------------------

    method QuietPort(i: nat, state: PortState)
      requires Valid() && i < |ports|
      modifies ports[i], this`trace
      ensures Abs() == S.SetPort(old(Abs()).(trace := old(Abs()).trace + [PortReset(ports[i].portNo)]), i,
                                 S.Quiet(old(Abs()).ports[i].(state := state)))
    {
      var p := ports[i];
      p.state := state;
      p.topologyChangeAck := false;
      p.configPending := false;
      p.messageAgeTimer := p.messageAgeTimer.Clear();
      p.forwardDelayTimer := p.forwardDelayTimer.Clear();
      p.holdTimer := p.holdTimer.Clear();
      PortChanged(i);
      assert p.View() == S.Quiet(old(p.View()).(state := state));
      Log(PortReset(p.portNo));
    }

    method InitPort(i: nat)
      requires Valid() && i < |ports|
      modifies ports[i], this`trace
      ensures Abs() == S.InitPort(old(Abs()), i)
    {
      hide Abs, S.Quiet, S.PortId;
      SetPortId(i, S.PortId(ports[i].priority, ports[i].portNo));
      BecomeDesignatedPort(i);
      QuietPort(i, Blocking);
    }

    method SetPortId(i: nat, id: int)
      requires Valid() && i < |ports|
      modifies ports[i]
      ensures Abs() == S.SetPort(old(Abs()), i, old(Abs()).ports[i].(portId := id))
    {
      ports[i].portId := id;
      PortChanged(i);
    }

    method EnablePort(i: nat)
      requires Valid() && i < |ports| && Inv(Abs())
      modifies this, ports
      ensures Abs() == S.EnablePort(old(Abs()), i)
      ensures Inv(Abs()) <==> old(Abs()).ports[i].portNo != old(Abs()).rootPort
    {
      ghost var b := Abs();
      ConsistentLists(b);
      EnablePortKeepsIff(b, i);
      InitPort(i);
      InitLists(b, i);
      PortStateSelection();
    }

    method ClosePort(i: nat)
      requires Valid() && i < |ports|
      modifies ports[i], this`trace
      ensures Abs() == S.ClosePort(old(Abs()), i)
    {
      hide Abs, S.Quiet;
      BecomeDesignatedPort(i);
      QuietPort(i, Disabled);
    }

    method DisablePort(i: nat)
      requires Valid() && i < |ports| && Inv(Abs())
      modifies this, ports
      ensures Abs() == S.DisablePort(old(Abs()), i) && Inv(Abs())
    {
      ghost var b := Abs();
      var wasRoot := IsRootBridge();
      CloseKeepsForm(b, i);
      ClosePort(i);
      Reconfigure();
      BecomeRootIfNew(wasRoot);
      DisablePortKeeps(b, i);
    }

    method SetPathCost(i: nat, cost: int)
      requires Valid() && i < |ports| && Inv(Abs()) && cost >= 1
      modifies this, ports
      ensures Abs() == S.SetPathCost(old(Abs()), i, cost) && Inv(Abs())
    {
      ghost var b := Abs();
      SetPathCostKeeps(b, i, cost);
      ports[i].pathCost := cost;
      PortChanged(i);
      assert WellFormed(Abs()) by {
        CostKeepsForm(b, i, cost);
      }
      Reconfigure();
    }

    method Rename(addr: int)
      requires Valid()
      modifies this`bridgeId, ports
      ensures Abs() == S.Renamed(old(Abs()), addr)
    {
      ghost var b := Abs();
      var was := S.AddrOf(bridgeId);
      bridgeId := S.WithAddr(bridgeId, addr);
      assert Abs().ports == RenamedPrefix(b, addr, 0).ports;
      var i := 0;
      while i < |ports|
        invariant 0 <= i <= |ports| && Abs() == RenamedPrefix(b, addr, i)
      {
        RenamePort(i, was, addr);
        RenamedStep(b, addr, i);
        i := i + 1;
      }
      assert RenamedPrefix(b, addr, |ports|).ports == S.Renamed(b, addr).ports;
    }

    method ChangeBridgeId(addr: int)
      requires Valid() && Inv(Abs())
      modifies this, ports
      ensures Abs() == S.ChangeBridgeId(old(Abs()), addr) && Inv(Abs())
    {
      ghost var b := Abs();
      var wasRoot := IsRootBridge();
      RelabelReconfigurable(b, S.Renamed(b, addr));
      Rename(addr);
      Reconfigure();
      BecomeRootIfNew(wasRoot);
      ChangeBridgeIdKeeps(b, addr);
    }

    method RenamePort(i: nat, was: int, addr: int)
      requires Valid() && i < |ports|
      modifies ports[i]
      ensures Abs() == S.SetPort(old(Abs()), i, S.RenamedPort(old(Abs()).ports[i], was, addr))
    {
      var p := ports[i];
      if S.AddrOf(p.designated.bridge) == was {
        p.designated := p.designated.(bridge := S.WithAddr(p.designated.bridge, addr));
      }
      if S.AddrOf(p.designated.root) == was {
        p.designated := p.designated.(root := S.WithAddr(p.designated.root, addr));
      }
      PortChanged(i);
    }

    method RankPort(i: nat, prio: int)
      requires Valid() && i < |ports|
      modifies ports[i]
      ensures Abs() == S.SetPort(old(Abs()), i, S.RankedPort(old(Abs()), old(Abs()).ports[i], prio))
    {
      var p := ports[i];
      var designated := IsDesignatedPort(p);
      if p.state != Disabled && designated {
        p.designated := p.designated.(bridge := S.WithPriority(p.designated.bridge, prio));
      }
      PortChanged(i);
    }

    method Rank(prio: int)
      requires Valid()
      modifies this`bridgeId, ports
      ensures Abs() == S.Ranked(old(Abs()), prio)
    {
      ghost var b := Abs();
      assert b.ports == RankedPrefix(b, prio, 0).ports;
      var i := 0;
      while i < |ports|
        invariant 0 <= i <= |ports| && Abs() == RankedPrefix(b, prio, i)
        invariant bridgeId == old(bridgeId)
      {
        RankPort(i, prio);
        RankedStep(b, prio, i);
        i := i + 1;
      }
      label ranked:
      bridgeId := S.WithPriority(bridgeId, prio);
      assert Views() == old@ranked(Views());
      assert RankedPrefix(b, prio, |ports|).ports == S.Ranked(b, prio).ports;
    }

    method SetBridgePriority(prio: int)
      requires Valid() && Inv(Abs())
      modifies this, ports
      ensures Abs() == S.SetBridgePriority(old(Abs()), prio) && Inv(Abs())
    {
      ghost var b := Abs();
      var wasRoot := IsRootBridge();
      RelabelReconfigurable(b, S.Ranked(b, prio));
      Rank(prio);
      Reconfigure();
      BecomeRootIfNew(wasRoot);
      SetBridgePriorityKeeps(b, prio);
    }

    // ----- timers -------------------------------------------------------------------------

    method CheckMessageAge(i: nat)
      requires Valid() && i < |ports| && Inv(Abs())
      modifies this, ports
      ensures Abs() == S.CheckMessageAge(old(Abs()), i) && Inv(Abs())
    {
      ghost var b := Abs();
      if ports[i].messageAgeTimer.Expired(maxAge, now) {
        StopMessageAge(i);
        var wasRoot := IsRootBridge();
        BecomeDesignatedPort(i);
        AgedKeepsForm(b, i);
        Reconfigure();
        BecomeRootIfNew(wasRoot);
      }
      CheckMessageAgeKeeps(b, i);
    }

    method IsDesignatedForSomePort() returns (r: bool)
      ensures r == S.DesignatedForSomePort(Abs())
    {
      var i := 0;
      while i < |ports|
        invariant 0 <= i <= |ports|
        invariant forall j | 0 <= j < i ::
                    !(Abs().ports[j].Enabled() && Abs().ports[j].designated.bridge == Abs().bridgeId)
      {
        if ports[i].state != Disabled && ports[i].designated.bridge == bridgeId {
          assert Abs().ports[i].Enabled();
          return true;
        }
        i := i + 1;
      }
      return false;
    }

    method SetDelayState(i: nat, state: PortState, t: Timer)
      requires Valid() && i < |ports|
      modifies ports[i]
      ensures Abs() == S.SetPort(old(Abs()), i, old(Abs()).ports[i].(state := state, forwardDelayTimer := t))
    {
      ports[i].state := state;
      ports[i].forwardDelayTimer := t;
      PortChanged(i);
    }

    ghost method Log(e: Event)
      modifies this`trace
      ensures Abs() == old(Abs()).(trace := old(Abs()).trace + [e])
    {
      trace := trace + [e];
      assert Views() == old(Views());
    }

    method ForwardDelayTimerExpired(i: nat)
      requires Valid() && i < |ports| && Listed(Abs())
      modifies this, ports[i]
      ensures Abs() == S.ForwardDelayExpired(old(Abs()), i)
    {
      hide S.TopologyChangeDetection, S.DesignatedForSomePort, Abs, Listed;
      ghost var b := Abs();
      Fields();
      Log(DelayExpired(ports[i].portNo));
      if ports[i].state == Listening {
        SetDelayState(i, Learning, Started(now));
      } else if ports[i].state == Learning {
        ListedFrame(b, Abs());
        StartForwarding(i);
      }
    }

    /** The port forwards from now on; a bridge with designated ports takes that for a topology change. */
    method StartForwarding(i: nat)
      requires Valid() && i < |ports| && Listed(Abs()) && ports[i].state == Learning
      modifies this, ports[i]
      ensures var d := S.SetPort(old(Abs()), i, old(Abs()).ports[i].(state := Forwarding));
              Abs() == if S.DesignatedForSomePort(d) then S.TopologyChangeDetection(d) else d
    {
      hide S.TopologyChangeDetection, S.DesignatedForSomePort, Abs, Listed;
      ghost var b := Abs();
      SetDelayState(i, Forwarding, ports[i].forwardDelayTimer);
      ListedFrame(b, Abs());
      var some := IsDesignatedForSomePort();
      if some {
        TopologyChangeDetection();
      }
    }

    method CheckForwardDelay(i: nat)
      requires Valid() && i < |ports| && Inv(Abs()) && Abs().ports[i].Enabled()
      modifies this, ports[i]
      ensures Abs() == S.CheckForwardDelay(old(Abs()), i) && Inv(Abs()) && Abs().ports[i].Enabled()
    {
      hide Inv, S.ForwardDelayExpired, Listed, WellFormed;
      ghost var b := Abs();
      InvLists(b);
      if ports[i].forwardDelayTimer.Expired(forwardDelay, now) {
        SetDelayState(i, ports[i].state, ports[i].forwardDelayTimer.Clear());
        ListedFrame(b, Abs());
        ForwardDelayTimerExpired(i);
      }
      CheckForwardDelayKeeps(b, i);
    }

    method StopHold(i: nat)
      requires Valid() && i < |ports|
      modifies ports[i]
      ensures var p := old(Abs()).ports[i];
              Abs() == S.SetPort(old(Abs()), i, p.(holdTimer := p.holdTimer.Clear()))
    {
      ports[i].holdTimer := ports[i].holdTimer.Clear();
      PortChanged(i);
    }

    method CheckHold(i: nat)
      requires Valid() && i < |ports| && Inv(Abs()) && Abs().ports[i].Enabled()
      modifies this, ports[i]
      ensures Abs() == S.CheckHold(old(Abs()), i) && Inv(Abs())
    {
      hide Inv, S.TransmitConfig, Abs, Listed, WellFormed;
      ghost var b := Abs();
      Fields();
      InvLists(b);
      if ports[i].holdTimer.Expired(hz, now) {
        StopHold(i);
        ListedFrame(b, Abs());
        if ports[i].configPending {
          TransmitConfig(i);
        }
      }
      CheckHoldKeeps(b, i);
    }

    method CheckPortTimers(i: nat)
      requires Valid() && i < |ports| && Inv(Abs()) && Abs().ports[i].Enabled()
      modifies this, ports
      ensures Abs() == S.CheckPortTimers(old(Abs()), i) && Inv(Abs())
    {
      hide Inv, S.CheckMessageAge, S.CheckForwardDelay, S.CheckHold;
      CheckMessageAgeKeeps(Abs(), i);
      CheckMessageAge(i);
      CheckForwardDelay(i);
      CheckHold(i);
    }

    method CheckHello()
      requires Valid() && Inv(Abs())
      modifies this, ports
      ensures Abs() == S.CheckHello(old(Abs())) && Inv(Abs())
    {
      ghost var b := Abs();
      ConsistentLists(b);
      if helloTimer.Expired(helloTime, now) {
        SetHelloTimer(helloTimer.Clear());
        ConfigBpduGeneration();
        SetHelloTimer(Started(now));
      }
      CheckHelloKeeps(b);
    }

    method CheckTcn()
      requires Valid() && Inv(Abs())
      modifies this
      ensures Abs() == S.CheckTcn(old(Abs())) && Inv(Abs())
    {
      ghost var b := Abs();
      ConsistentLists(b);
      if tcnTimer.Expired(bridgeHelloTime, now) {
        SetTcnTimer(tcnTimer.Clear());
        TransmitTcn();
        SetTcnTimer(Started(now));
      }
      CheckTcnKeeps(b);
    }

    method CheckTopologyChange()
      requires Valid() && Inv(Abs())
      modifies this
      ensures Abs() == S.CheckTopologyChange(old(Abs())) && Inv(Abs())
    {
      ghost var b := Abs();
      if topologyChangeTimer.Expired(bridgeForwardDelay + bridgeMaxAge, now) {
        SetTopologyChange(false, false, topologyChangeTimer.Clear());
      }
      CheckTopologyChangeKeeps(b);
    }

    method CheckAllPorts()
      requires Valid() && Inv(Abs())
      modifies this, ports
      ensures Abs() == S.CheckAllPorts(old(Abs()), |ports|) && Inv(Abs())
    {
      hide S.CheckPortTimers, Inv;
      ghost var b := Abs();
      var i := 0;
      while i < |ports|
        invariant 0 <= i <= |ports| && Abs() == S.CheckAllPorts(b, i) && Inv(Abs())
      {
        if ports[i].state != Disabled {
          CheckPortTimers(i);
        }
        i := i + 1;
      }
    }

    /** The clock has moved on; whatever has expired is served. */
    method Tick(jiffies: int)
      requires Valid() && Inv(Abs()) && now <= jiffies
      modifies this, ports
      ensures Abs() == S.CheckTimers(old(Abs()).(now := jiffies)) && Inv(Abs())
    {
      hide Inv, S.CheckHello, S.CheckTcn, S.CheckTopologyChange, S.CheckAllPorts;
      TimePasses(Abs(), jiffies);
      now := jiffies;
      assert Views() == old(Views());
      CheckHello();
      CheckTcn();
      CheckTopologyChange();
      CheckAllPorts();
    }
  }
}
