/**
 What every run of a bridge guarantees, stated over the states and traces themselves.
 */
module BridgeTheorems {
  import opened Basics
  import opened BridgeTypes
  import opened BridgeSpec
  import opened BridgeRoles
  import opened BridgeInvariant
  import opened BridgeRuns
  import opened BridgeProgress

  /** In every reachable state the cached roles are a fixed point of configuration update, the
      bridge is root exactly when it names no root port, a named root port is found in the list,
      enabled and not designated, and the TCN timer runs only on a bridge that is not root. */
  lemma RolesInEveryRun(b: Bridge, run: seq<(int, Input)>, c: Bridge)
    requires Initial(b) && Reaches(b, run, c)
    ensures ConfigurationUpdate(c) == c
    ensures IsRoot(c) <==> c.rootPort == 0
    ensures c.rootPort != 0 ==>
              var r := FindPort(c.ports, c.rootPort);
              r >= 0 && c.ports[r].Enabled() && !IsDesignated(c, c.ports[r])
    ensures c.tcnTimer.running ==> !IsRoot(c)
  {
    InitialInv(b);
    RunKeeps(b, run, c);
    AgreementIsFixpoint(c);
    var r := RootPortNamed(c);
  }

  /** In every reachable state an enabled port is blocking exactly when it is neither root nor
      designated, its forward-delay timer runs exactly in listening and learning, its message-age
      timer runs exactly when it is not designated, a pending acknowledgement has a pending
      message, and a pending message has a running hold timer and a designated port. */
  lemma PortsInEveryRun(b: Bridge, run: seq<(int, Input)>, c: Bridge, i: nat)
    requires Initial(b) && Reaches(b, run, c) && i < |c.ports|
    ensures var p := c.ports[i];
            && (p.Enabled() ==>
                  && (p.state == Blocking <==> p.portNo != c.rootPort && !IsDesignated(c, p))
                  && (p.forwardDelayTimer.running <==> p.state == Listening || p.state == Learning)
                  && (p.messageAgeTimer.running <==> !IsDesignated(c, p)))
            && (p.topologyChangeAck ==> p.configPending)
            && (p.configPending ==> p.holdTimer.running && p.Enabled() && IsDesignated(c, p))
  {
    InitialInv(b);
    RunKeeps(b, run, c);
    assert PortOk(c, c.ports[i]);
  }

  /** From blocking to forwarding, with the protocol on, takes two forward-delay expiries of that
      port, whatever else happens on the way. */
  lemma ForwardingTakesTwoExpiries(b: Bridge, run: seq<(int, Input)>, c: Bridge, i: nat)
    requires Inv(b) && Reaches(b, run, c) && i < |b.ports| && b.stpEnabled
    requires b.ports[i].state == Blocking
    ensures |c.ports| == |b.ports| && c.ports[i].portNo == b.ports[i].portNo
    ensures c.ports[i].state == Forwarding ==>
              Expiries(c.trace, b.ports[i].portNo) >= Expiries(b.trace, b.ports[i].portNo) + 2
  {
    RunPaid(b, run, c);
    assert PortPaid(b, c, b.ports[i], c.ports[i]);
  }

  /** Without the protocol no message ever leaves, in any run. */
  lemma SilentWithoutProtocol(b: Bridge, run: seq<(int, Input)>, c: Bridge, k: nat)
    requires Initial(b) && Reaches(b, run, c) && !b.stpEnabled && k < |c.trace|
    ensures !c.trace[k].SentConfig? && !c.trace[k].SentTcn?
  {
    InitialInv(b);
    RunPaid(b, run, c);
    assert !IsMessage(c.trace[k]);
  }

  // ----- messages ---------------------------------------------------------------------------

  lemma {:induction false} EveryEventOk(trace: seq<Event>, hz: nat, j: nat)
    requires TraceOk(trace, hz) && j < |trace|
    ensures EventOk(trace[j]) && TraceOk(trace[..j], hz)
    ensures trace[j].SentConfig? ==>
              var last := LastSend(trace[..j], trace[j].from.portNo);
              last.Some? ==> trace[j].time >= last.value + hz
    decreases |trace|
  {
    if j < |trace| - 1 {
      var before := trace[..|trace| - 1];
      assert before[..j] == trace[..j] && before[j] == trace[j];
      EveryEventOk(before, hz, j);
    }
  }

  predicate IsSend(e: Event, no: int) {
    e.SentConfig? && e.from.portNo == no
  }

  /** The last send that LastSend reports, given one that no reset has wiped out. */
  lemma {:induction false} LastSendAt(trace: seq<Event>, no: int, i: nat) returns (k: nat)
    requires i < |trace| && IsSend(trace[i], no)
    requires forall j | i < j < |trace| :: trace[j] != PortReset(no)
    ensures i <= k < |trace| && IsSend(trace[k], no) && LastSend(trace, no) == Some(trace[k].time)
    decreases |trace|
  {
    var n := |trace| - 1;
    if IsSend(trace[n], no) {
      k := n;
    } else {
      k := LastSendAt(trace[..n], no, i);
    }
  }

  lemma {:induction false} HoldTimeBetween(trace: seq<Event>, hz: nat, no: int, i: nat, j: nat)
    requires TraceOk(trace, hz) && i < j < |trace|
    requires IsSend(trace[i], no) && IsSend(trace[j], no)
    requires forall k | i < k < j :: trace[k] != PortReset(no)
    ensures trace[j].time >= trace[i].time + hz
    decreases j
  {
    var before := trace[..j];
    var k := LastSendAt(before, no, i);
    EveryEventOk(trace, hz, j);
    if i < k {
      HoldTimeBetween(trace, hz, no, i, k);
    }
  }

  /** In every run, configuration messages leave only enabled designated ports and carry exactly
      the vector recorded there, an age of 0 at the root and otherwise the age of what the root port has
      heard plus one, the times and the topology change flag the bridge has at that moment, and the
      acknowledgement due on the port; two of them on one port are at least the hold time apart unless
      the port was re-initialised in between. */
  lemma MessagesInEveryRun(b: Bridge, run: seq<(int, Input)>, c: Bridge, i: nat, j: nat)
    requires Initial(b) && Reaches(b, run, c) && i < |c.trace| && j < |c.trace|
    ensures c.trace[i].SentConfig? ==>
              var p, v := c.trace[i].from, c.trace[i].bpdu.vector;
              && p.Enabled() && p.designated.bridge == c.trace[i].sender.bridgeId && p.designated.port == p.portId
              && v == p.designated
              && ContentOk(c.trace[i].time, c.trace[i].sender, p, c.trace[i].bpdu)
    ensures i < j && c.trace[i].SentConfig? && c.trace[j].SentConfig?
            && c.trace[i].from.portNo == c.trace[j].from.portNo
            && (forall k | i < k < j :: c.trace[k] != PortReset(c.trace[i].from.portNo))
            ==> c.trace[j].time >= c.trace[i].time + c.hz
  {
    InitialInv(b);
    RunKeeps(b, run, c);
    EveryEventOk(c.trace, c.hz, i);
    if i < j && c.trace[i].SentConfig? && c.trace[j].SentConfig?
       && c.trace[i].from.portNo == c.trace[j].from.portNo
       && (forall k | i < k < j :: c.trace[k] != PortReset(c.trace[i].from.portNo))
    {
      HoldTimeBetween(c.trace, c.hz, c.trace[i].from.portNo, i, j);
    }
  }

  // ----- single events ----------------------------------------------------------------------

  lemma RecordNeverWorsens(b: Bridge, i: nat, m: ConfigBpdu)
    requires Consistent(b) && i < |b.ports| && b.ports[i].Enabled() && !ClaimsOwnPort(b, i, m)
    requires Supersedes(b, b.ports[i], m.vector)
    ensures NoWorse(ConfigurationUpdate(RecordConfig(b, i, m)).ports[i].designated, b.ports[i].designated)
  {
    var a := RecordConfig(b, i, m);
    RecordReconfigurable(b, i, m);
    assert ConfigurationUpdate(a).ports[i] == Redesignate(RootSelection(a), a.ports[i]);
    TakeoverImproves(a, a.ports[i]);
  }

  /** Hearing a message never leaves a port with a worse (root, cost, bridge) record, unless the
      message claims to come from that port itself. */
  lemma ReceivingNeverWorsens(b: Bridge, i: nat, m: ConfigBpdu)
    requires Inv(b) && i < |b.ports| && !ClaimsOwnPort(b, i, m)
    ensures NoWorse(ReceivedConfig(b, i, m).ports[i].designated, b.ports[i].designated)
  {
    var p := b.ports[i];
    if p.Enabled() && Supersedes(b, p, m.vector) {
      RecordNeverWorsens(b, i, m);
      AcceptKeeps(b, i, m);
      assert SameRole(ConfigurationUpdate(RecordConfig(b, i, m)).ports[i], AcceptConfig(b, i, m).ports[i]);
    } else {
      TransmitHeld(b, i);
    }
  }

  /** Bringing a port up keeps the invariant exactly when the port is not the current root port. */
  lemma EnablePortKeepsIff(b: Bridge, i: nat)
    requires Inv(b) && i < |b.ports|
    ensures Inv(EnablePort(b, i)) <==> b.ports[i].portNo != b.rootPort
  {
    if b.ports[i].portNo != b.rootPort {
      EnablePortKeeps(b, i);
    } else {
      var c := InitPort(b, i);
      var d := EnablePort(b, i);
      assert GoodPort(b.ports[i]);
      StateSelectionHeld(c, |c.ports|);
      assert SameRole(c.ports[i], d.ports[i]);
      if Inv(d) {
        var r := RootPortNamed(d);
        assert false;
      }
    }
  }
}
