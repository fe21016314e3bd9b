/**
 Runs of a network that has settled: announcements are heard and clocks tick, in any order and at any
 times, and as long as no information ages out no role ever changes.
 */
module NetworkRuns {
  import opened BridgeTypes
  import opened BridgeSpec
  import opened BridgeRoles
  import opened BridgeInvariant
  import opened BridgeRuns
  import opened Network

  // ----- ticks of one bridge ----------------------------------------------------------------

  /** Roles and ages are the same. */
  ghost predicate Calm(b: Bridge, c: Bridge) {
    && SameCore(b, c) && c.now == b.now && c.maxAge == b.maxAge
    && forall i | 0 <= i < |b.ports| :: c.ports[i].messageAgeTimer == b.ports[i].messageAgeTimer
  }

  /** Nothing that a port has heard is too old. */
  predicate Fresh(b: Bridge) {
    forall i | 0 <= i < |b.ports| :: !b.ports[i].messageAgeTimer.Expired(b.maxAge, b.now)
  }

  lemma CalmTransitive(a: Bridge, b: Bridge, c: Bridge)
    requires Calm(a, b) && Calm(b, c)
    ensures Calm(a, c)
  {
    forall i | 0 <= i < |a.ports|
      ensures SameRole(a.ports[i], c.ports[i])
    {
      assert SameRole(a.ports[i], b.ports[i]) && SameRole(b.ports[i], c.ports[i]);
    }
  }

  lemma CalmFresh(b: Bridge, c: Bridge)
    requires Calm(b, c) && Fresh(b)
    ensures Fresh(c)
  {
  }

  lemma PortSetCalm(b: Bridge, i: nat, q: Port)
    requires i < |b.ports| && SameRole(b.ports[i], q) && q.messageAgeTimer == b.ports[i].messageAgeTimer
    ensures Calm(b, SetPort(b, i, q))
  {
  }

  /** Only flags, timers and the trace of the bridge itself change. */
  lemma SamePortsCalm(b: Bridge, c: Bridge)
    requires c.ports == b.ports && c.bridgeId == b.bridgeId && c.designatedRoot == b.designatedRoot
    requires c.rootPathCost == b.rootPathCost && c.rootPort == b.rootPort && c.now == b.now && c.maxAge == b.maxAge
    ensures Calm(b, c)
  {
  }

  lemma TransmitCalm(b: Bridge, i: nat)
    requires i < |b.ports|
    ensures Calm(b, TransmitConfig(b, i))
  {
  }

  lemma {:induction false} GenerationCalm(b: Bridge, k: nat)
    requires k <= |b.ports|
    ensures Calm(b, ConfigGeneration(b, k))
    decreases k
  {
    hide TransmitConfig, Calm;
    if k == 0 {
      SamePortsCalm(b, b);
    } else {
      var c := ConfigGeneration(b, k - 1);
      GenerationCalm(b, k - 1);
      TransmitCalm(c, k - 1);
      CalmTransitive(b, c, TransmitConfig(c, k - 1));
    }
  }

  lemma DetectionCalm(b: Bridge)
    ensures Calm(b, TopologyChangeDetection(b))
  {
    SamePortsCalm(b, TopologyChangeDetection(b));
  }

  lemma BridgeTimersCalm(b: Bridge)
    ensures Calm(b, CheckTopologyChange(CheckTcn(CheckHello(b))))
  {
    hide ConfigGeneration, Calm;
    var off := b.(helloTimer := b.helloTimer.Clear());
    var g := ConfigGeneration(off, |b.ports|);
    var c := CheckHello(b);
    SamePortsCalm(b, off);
    GenerationCalm(off, |b.ports|);
    CalmTransitive(b, off, g);
    SamePortsCalm(g, g.(helloTimer := Started(b.now)));
    CalmTransitive(b, g, g.(helloTimer := Started(b.now)));
    SamePortsCalm(b, b);
    OwnTimersCalm(c);
    CalmTransitive(b, c, CheckTopologyChange(CheckTcn(c)));
  }

  lemma OwnTimersCalm(c: Bridge)
    ensures Calm(c, CheckTopologyChange(CheckTcn(c)))
  {
    hide TransmitTcn, Calm;
    TcnCalm(c);
    SamePortsCalm(CheckTcn(c), CheckTopologyChange(CheckTcn(c)));
    CalmTransitive(c, CheckTcn(c), CheckTopologyChange(CheckTcn(c)));
  }

  lemma TcnCalm(c: Bridge)
    ensures Calm(c, CheckTcn(c))
  {
    SamePortsCalm(c, CheckTcn(c));
  }

  lemma AdvanceCalm(b: Bridge, i: nat)
    requires i < |b.ports| && (b.ports[i].state == Listening || b.ports[i].state == Learning)
    ensures var q := Advanced(b, b.ports[i]);
            var d := SetPort(b.(trace := b.trace + [DelayExpired(q.portNo)]), i, q);
            Calm(b, d) && Calm(b, TopologyChangeDetection(d))
  {
    hide TopologyChangeDetection, Calm;
    var q := Advanced(b, b.ports[i]);
    var l := b.(trace := b.trace + [DelayExpired(q.portNo)]);
    var d := SetPort(l, i, q);
    SamePortsCalm(b, l);
    PortSetCalm(l, i, q);
    CalmTransitive(b, l, d);
    DetectionCalm(d);
    CalmTransitive(b, d, TopologyChangeDetection(d));
  }

  lemma DelayCalm(b: Bridge, i: nat)
    requires i < |b.ports| && b.ports[i].Enabled()
    ensures Calm(b, CheckForwardDelay(b, i))
  {
    hide TopologyChangeDetection, DesignatedForSomePort, Calm;
    var p := b.ports[i];
    if p.forwardDelayTimer.Expired(b.forwardDelay, b.now) {
      if p.state == Listening || p.state == Learning {
        CheckForwardDelayIs(b, i);
        AdvanceCalm(b, i);
      } else {
        var off := SetPort(b, i, p.(forwardDelayTimer := p.forwardDelayTimer.Clear()));
        PortSetCalm(b, i, off.ports[i]);
        SamePortsCalm(off, CheckForwardDelay(b, i));
        CalmTransitive(b, off, CheckForwardDelay(b, i));
      }
    } else {
      SamePortsCalm(b, b);
    }
  }

  lemma HoldCalm(b: Bridge, i: nat)
    requires i < |b.ports|
    ensures Calm(b, CheckHold(b, i))
  {
    hide TransmitConfig, Calm;
    var p := b.ports[i];
    var c := SetPort(b, i, p.(holdTimer := p.holdTimer.Clear()));
    PortSetCalm(b, i, c.ports[i]);
    TransmitCalm(c, i);
    CalmTransitive(b, c, TransmitConfig(c, i));
    SamePortsCalm(b, b);
  }

  lemma {:induction false} AllPortsCalm(b: Bridge, k: nat)
    requires k <= |b.ports| && Fresh(b)
    ensures Calm(b, CheckAllPorts(b, k))
    decreases k
  {
    hide Calm, CheckForwardDelay, CheckHold, Fresh;
    if k == 0 {
      SamePortsCalm(b, b);
    } else {
      var c := CheckAllPorts(b, k - 1);
      AllPortsCalm(b, k - 1);
      CalmFresh(b, c);
      if c.ports[k - 1].Enabled() {
        assert CheckMessageAge(c, k - 1) == c by { NoneExpired(c, k - 1); }
        var d := CheckForwardDelay(c, k - 1);
        DelayCalm(c, k - 1);
        HoldCalm(d, k - 1);
        CalmTransitive(c, d, CheckHold(d, k - 1));
        CalmTransitive(b, c, CheckHold(d, k - 1));
      }
    }
  }

  lemma NoneExpired(b: Bridge, i: nat)
    requires Fresh(b) && i < |b.ports|
    ensures CheckMessageAge(b, i) == b
  {
  }

  /** A tick at which nothing ages out changes no role. */
  lemma TickCalm(b: Bridge)
    requires Fresh(b)
    ensures SameCore(b, CheckTimers(b))
  {
    hide CheckTopologyChange, CheckTcn, CheckHello, CheckAllPorts, Fresh;
    var c := CheckTopologyChange(CheckTcn(CheckHello(b)));
    BridgeTimersCalm(b);
    CalmFresh(b, c);
    AllPortsCalm(c, |c.ports|);
    CalmTransitive(b, c, CheckTimers(b));
  }

  // ----- runs of the network ----------------------------------------------------------------

  /** A bridge hears what a designated port of the LAN announces, or its timers are checked. */
  datatype Happening = Hears(d: Delivery) | Ticks(x: nat, time: int)

  /** A tick at which something has aged out is excluded. */
  predicate CanHappen(n: Network, h: Happening) {
    match h
    case Hears(d) => Deliverable(n, d)
    case Ticks(x, time) => x < |n.bridges| && n.bridges[x].now <= time && Fresh(n.bridges[x].(now := time))
  }

  function Happens(n: Network, h: Happening): Network
    requires CanHappen(n, h)
  {
    match h
    case Hears(d) => Deliver(n, d)
    case Ticks(x, time) => n.(bridges := n.bridges[x := CheckTimers(n.bridges[x].(now := time))])
  }

  lemma TickingBridge(b: Bridge, time: int)
    requires Inv(b) && b.now <= time && Fresh(b.(now := time))
    ensures var c := CheckTimers(b.(now := time)); Inv(c) && SameCore(b, c)
  {
    hide Inv, CheckTimers;
    TimePasses(b, time);
    CheckTimersKeeps(b.(now := time));
    TickCalm(b.(now := time));
    var c := CheckTimers(b.(now := time));
    forall i | 0 <= i < |b.ports|
      ensures SameRole(b.ports[i], c.ports[i])
    {
      assert SameRole(b.(now := time).ports[i], c.ports[i]);
    }
  }

  lemma TickKeeps(n: Network, x: nat, time: int)
    requires Settled(n) && AllInv(n) && CanHappen(n, Ticks(x, time))
    ensures var k := Happens(n, Ticks(x, time)); Settled(k) && AllInv(k) && SameNetwork(n, k)
  {
    hide Settled, SameCore, Inv, CheckTimers, Fresh;
    var k := Happens(n, Ticks(x, time));
    TickingBridge(n.bridges[x], time);
    forall y | 0 <= y < |n.bridges|
      ensures SameCore(n.bridges[y], k.bridges[y]) && Inv(k.bridges[y])
    {
      SameCoreReflexive(n.bridges[y]);
    }
    SettledFrame(n, k);
  }

  /** k is reached from n by what can happen. */
  ghost predicate Becomes(n: Network, hs: seq<Happening>, k: Network)
    decreases |hs|
  {
    if hs == [] then k == n else CanHappen(n, hs[0]) && Becomes(Happens(n, hs[0]), hs[1..], k)
  }

  /** Over any run of announcements heard and of ticks, a settled network stays settled, every bridge
      keeps the run invariant, and no role changes. */
  lemma {:induction false} SettledForever(n: Network, hs: seq<Happening>, k: Network)
    requires Settled(n) && AllInv(n) && Becomes(n, hs, k)
    ensures Settled(k) && AllInv(k) && SameNetwork(n, k)
    decreases |hs|
  {
    hide Settled, AllInv, Deliver, Deliverable, SameCore, CheckTimers, Fresh;
    if hs == [] {
      forall x | 0 <= x < |n.bridges|
        ensures SameCore(n.bridges[x], k.bridges[x])
      {
        SameCoreReflexive(n.bridges[x]);
      }
    } else {
      var h := Happens(n, hs[0]);
      match hs[0] {
        case Hears(d) => DeliveryKeeps(n, d);
        case Ticks(x, time) => TickKeeps(n, x, time);
      }
      SettledForever(h, hs[1..], k);
      SameNetworkTransitive(n, h, k);
    }
  }
}
