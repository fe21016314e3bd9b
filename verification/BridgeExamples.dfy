/**
 Runs from a new bridge with one port that reach the two events the runs exclude: a message that
 usurps the root port, and a root port brought up a second time.
 */
module BridgeExamples {
  import opened BridgeTypes
  import opened BridgeSpec
  import opened BridgeRoles
  import opened BridgeInvariant
  import opened BridgeRuns
  import opened BridgeProgress
  import opened BridgeTheorems

  /** A root bridge whose only port is up. */
  predicate RootOfOne(b: Bridge) {
    && |b.ports| == 1 && b.ports[0].Enabled()
    && b.rootPort == 0 && b.designatedRoot == b.bridgeId && b.rootPathCost == 0
    && b.ports[0].designated == Vector(b.bridgeId, 0, b.bridgeId, b.ports[0].portId)
  }

  lemma UpGoes(b: Bridge)
    requires Initial(b) && |b.ports| == 1
    ensures Allowed(b, PortUp(0))
    ensures var c := EnablePort(b, 0); Inv(c) && RootOfOne(c) && c.now == b.now
  {
    InitialInv(b);
    assert GoodPort(b.ports[0]);
    EnablePortKeeps(b, 0);
    var c := InitPort(b, 0);
    StateSelectionHeld(c, 1);
    assert SameRole(c.ports[0], EnablePort(b, 0).ports[0]);
  }

  /** A notification is noted, and nothing changes in the roles. */
  lemma TcnGoes(b: Bridge)
    requires Inv(b) && RootOfOne(b)
    ensures var c := ReceivedTcn(b, 0); Inv(c) && RootOfOne(c) && c.topologyChangeDetected && c.now == b.now
  {
    hide Inv;
    ReceivedTcnKeeps(b, 0);
  }

  /** A message from a better root. */
  function FromBetterRoot(b: Bridge): ConfigBpdu {
    var root := b.bridgeId - 1;
    ConfigBpdu(false, false, Vector(root, 0, root, 0), 0, b.maxAge, b.helloTime, b.forwardDelay)
  }

  /** The only port leads to the root. */
  predicate LeafOfOne(b: Bridge) {
    && |b.ports| == 1 && b.ports[0].Enabled() && b.ports[0].portNo == b.rootPort && !IsRoot(b)
    && b.ports[0].designated.root == b.designatedRoot
  }

  lemma UpdatedLeaf(b: Bridge)
    requires RootOfOne(b) && WellFormed(b)
    ensures LeafOfOne(ConfigurationUpdate(RecordConfig(b, 0, FromBetterRoot(b))))
  {
    assert GoodPort(b.ports[0]);
    var a := RecordConfig(b, 0, FromBetterRoot(b));
    assert Eligible(a, a.ports[0]) && BestPort(a, 0) == -1;
    assert BestPort(a, 1) == 0;
  }

  lemma LeafFrame(b: Bridge, c: Bridge)
    requires LeafOfOne(b) && SameRoles(b, c)
    ensures LeafOfOne(c)
  {
    assert SameRole(b.ports[0], c.ports[0]);
  }

  /** Selecting the state of the root port touches none of the bridge's flags. */
  lemma SelectedLeaf(b: Bridge)
    requires LeafOfOne(b)
    ensures var c := StateSelection(b, 1); c.topologyChangeDetected == b.topologyChangeDetected && c.now == b.now
  {
    assert StateSelection(b, 0) == b;
  }

  /** A bridge that loses the root role with a topology change noted has to notify the new root. */
  lemma RelayedLeaf(c: Bridge, m: ConfigBpdu)
    requires Consistent(c) && !IsRoot(c) && !m.topologyChangeAck && c.topologyChangeDetected
    ensures RelayFromRoot(LoseRoot(c), m).tcnTimer.running
  {
    var d := RecordTimeouts(LoseRoot(c), m);
    TimerKept(d, |d.ports|);
  }

  lemma {:induction false} TimerKept(b: Bridge, k: nat)
    requires k <= |b.ports|
    ensures ConfigGeneration(b, k).tcnTimer == b.tcnTimer
    decreases k
  {
    if k > 0 {
      TimerKept(b, k - 1);
    }
  }

  lemma RecordedFlags(b: Bridge, m: ConfigBpdu)
    requires |b.ports| == 1
    ensures var a := ConfigurationUpdate(RecordConfig(b, 0, m));
            a.topologyChangeDetected == b.topologyChangeDetected && a.now == b.now
  {
    hide BestPort;
  }

  lemma Parts(b: Bridge)
    requires Inv(b)
    ensures Consistent(b) && WellFormed(b)
  {
  }

  /** What is left of the root role. */
  lemma BetterRootSelected(b: Bridge)
    requires Inv(b) && RootOfOne(b)
    ensures var c := Reconfigure(RecordConfig(b, 0, FromBetterRoot(b)));
            Inv(c) && LeafOfOne(c) && c.topologyChangeDetected == b.topologyChangeDetected
  {
    hide Inv, ConfigurationUpdate, StateSelection, RecordConfig, SameRoles;
    var m := FromBetterRoot(b);
    Parts(b);
    RecordedKeeps(b, 0, m);
    UpdatedLeaf(b);
    RecordedFlags(b, m);
    var a := ConfigurationUpdate(RecordConfig(b, 0, m));
    SelectedLeaf(a);
    LeafFrame(a, StateSelection(a, 1));
  }

  lemma BetterRootGoes(b: Bridge)
    requires Inv(b) && RootOfOne(b)
    ensures Allowed(b, ConfigReceived(0, FromBetterRoot(b)))
    ensures var c := ReceivedConfig(b, 0, FromBetterRoot(b));
            Inv(c) && LeafOfOne(c) && (b.topologyChangeDetected ==> c.tcnTimer.running)
  {
    hide Inv, Reconfigure, LoseRoot, RelayFromRoot, RecordConfig, Consistent, SameRoles;
    var m := FromBetterRoot(b);
    var c := Reconfigure(RecordConfig(b, 0, m));
    BetterRootSelected(b);
    Parts(c);
    LoseRootKeeps(c);
    var d := LoseRoot(c);
    LeafFrame(c, d);
    RelayKeeps(d, m);
    LeafFrame(d, RelayFromRoot(d, m));
    assert b.ports[0].portNo == d.rootPort by {
      SamePort(b, m);
      LoseRootSamePort(c);
    }
    if b.topologyChangeDetected {
      RelayedLeaf(c, m);
    }
  }

  lemma SamePort(b: Bridge, m: ConfigBpdu)
    requires |b.ports| == 1
    ensures Reconfigure(RecordConfig(b, 0, m)).ports[0].portNo == b.ports[0].portNo
  {
    var a := RecordConfig(b, 0, m);
    ReconfigureHeld(a);
    assert PortHeld(a.stpEnabled, a.now, a.ports[0], Reconfigure(a).ports[0]);
  }

  lemma LoseRootSamePort(c: Bridge)
    requires LeafOfOne(c)
    ensures LoseRoot(c).rootPort == c.ports[0].portNo
  {
  }

  // ----- the runs ---------------------------------------------------------------------------

  lemma {:induction false} OneMoreEvent(b: Bridge, run: seq<(int, Input)>, c: Bridge, e: Input)
    requires Reaches(b, run, c) && Allowed(c, e)
    ensures Reaches(b, run + [(c.now, e)], Step(c, e))
    decreases |run|
  {
    hide Allowed, Step;
    var x := (c.now, e);
    if run == [] {
      assert run + [x] == [x] && [x][1..] == [];
      assert Reaches(Step(c, e), [], Step(c, e));
    } else {
      var (now, first) := run[0];
      OneMoreEvent(Step(b.(now := now), first), run[1..], c, e);
      assert (run + [x])[1..] == run[1..] + [x];
    }
  }

  /** Every new bridge with one port can reach a state in which that port is its root port, and
      bringing it up once more breaks the invariant. */
  lemma RootPortUpReached(b: Bridge) returns (run: seq<(int, Input)>, c: Bridge)
    requires Initial(b) && |b.ports| == 1
    ensures Reaches(b, run, c) && |c.ports| == 1 && c.ports[0].portNo == c.rootPort
    ensures Inv(c) && !Inv(EnablePort(c, 0))
  {
    hide Inv, EnablePort, ReceivedConfig, Reaches, Allowed, Initial;
    assert Reaches(b, [], b) by { NoEvent(b); }
    UpGoes(b);
    OneMoreEvent(b, [], b, PortUp(0));
    var up := EnablePort(b, 0);
    var run1 := [] + [(b.now, PortUp(0))];
    var m := FromBetterRoot(up);
    BetterRootGoes(up);
    OneMoreEvent(b, run1, up, ConfigReceived(0, m));
    c := ReceivedConfig(up, 0, m);
    run := run1 + [(up.now, ConfigReceived(0, m))];
    EnablePortKeepsIff(c, 0);
  }

  /** Every new bridge with one port can reach a state in which a message usurps the root port. */
  lemma UsurpsReached(b: Bridge) returns (run: seq<(int, Input)>, c: Bridge, m: ConfigBpdu)
    requires Initial(b) && |b.ports| == 1
    ensures Reaches(b, run, c) && |c.ports| == 1 && Usurps(c, 0, m)
    ensures Inv(c) && !Inv(ReceivedConfig(c, 0, m))
  {
    hide Inv, EnablePort, ReceivedConfig, ReceivedTcn, Reaches, Allowed, Initial;
    assert Reaches(b, [], b) by { NoEvent(b); }
    UpGoes(b);
    OneMoreEvent(b, [], b, PortUp(0));
    var up := EnablePort(b, 0);
    var run1 := [] + [(b.now, PortUp(0))];
    assert Allowed(up, TcnReceived(0)) by { TcnAllowed(up); }
    TcnGoes(up);
    OneMoreEvent(b, run1, up, TcnReceived(0));
    var told := ReceivedTcn(up, 0);
    var run2 := run1 + [(up.now, TcnReceived(0))];
    var better := FromBetterRoot(told);
    BetterRootGoes(told);
    OneMoreEvent(b, run2, told, ConfigReceived(0, better));
    c := ReceivedConfig(told, 0, better);
    run := run2 + [(told.now, ConfigReceived(0, better))];
    m := better.(vector := Vector(c.designatedRoot - 1, 0, c.bridgeId, c.ports[0].portId));
    ReceivedConfigKeepsIff(c, 0, m);
  }

  lemma NoEvent(b: Bridge)
    ensures Reaches(b, [], b)
  {
  }

  lemma TcnAllowed(b: Bridge)
    requires |b.ports| == 1
    ensures Allowed(b, TcnReceived(0))
  {
  }
}
