/**
 What a bridge passes on: every message it accepts from the direction of the root, every hello, every
 change of the root role and every topology change reach the bridges behind it.
 */
module BridgeNews {
  import opened BridgeTypes
  import opened BridgeSpec
  import opened BridgeRoles
  import opened BridgeInvariant
  import opened BridgeRuns
  import opened BridgeProgress
  import opened BridgeEvents

  // ----- announcing on every designated port ------------------------------------------------

  /** A message that says what c has to say on port j, with the given age. */
  predicate Says(c: Bridge, j: nat, age: int, e: Event)
    requires j < |c.ports|
  {
    && e.SentConfig? && e.time == c.now && e.from.portNo == c.ports[j].portNo
    && e.bpdu.vector == c.ports[j].designated && e.bpdu.messageAge == age
    && e.bpdu.maxAge == c.maxAge && e.bpdu.helloTime == c.helloTime && e.bpdu.forwardDelay == c.forwardDelay
    && e.bpdu.topologyChange == c.topologyChange
  }

  /** From b to c such a message has left port j, or it waits there for a hold time to pass that was
      running before. */
  ghost predicate Tells(b: Bridge, c: Bridge, j: nat, age: int)
    requires j < |c.ports|
  {
    || (Waits(b, c, j) && c.ports[j].configPending)
    || (&& c.ports[j].holdTimer == Started(c.now) && !c.ports[j].configPending && !c.ports[j].topologyChangeAck
        && (c.stpEnabled ==> exists k | |b.trace| <= k < |c.trace| :: Says(c, j, age, c.trace[k])))
  }

  predicate Waits(b: Bridge, c: Bridge, j: nat)
    requires j < |c.ports|
  {
    j < |b.ports| && b.ports[j].holdTimer.running && c.ports[j].holdTimer == b.ports[j].holdTimer
  }

  /** On every enabled designated port. */
  ghost predicate TellsAll(b: Bridge, c: Bridge, age: int) {
    && b.trace <= c.trace
    && forall j | 0 <= j < |c.ports| && c.ports[j].Enabled() && IsDesignated(c, c.ports[j]) :: Tells(b, c, j, age)
  }

  /** c differs from b in nothing that is announced on port j. */
  ghost predicate SameNews(b: Bridge, c: Bridge, j: nat) {
    && SameRoles(b, c) && j < |b.ports| && c.ports[j] == b.ports[j] && b.trace <= c.trace
    && c.maxAge == b.maxAge && c.helloTime == b.helloTime && c.forwardDelay == b.forwardDelay
    && c.topologyChange == b.topologyChange && c.stpEnabled == b.stpEnabled
  }

  lemma SameNewsTransitive(a: Bridge, b: Bridge, c: Bridge, j: nat)
    requires SameNews(a, b, j) && SameNews(b, c, j)
    ensures SameNews(a, c, j)
  {
    SameRolesTransitive(a, b, c);
  }

  lemma TransmitOther(b: Bridge, i: nat, j: nat)
    requires i < |b.ports| && j < |b.ports| && i != j
    ensures SameNews(b, TransmitConfig(b, i), j)
  {
    hide ConfigFor;
  }

  /** Announcing on the first k ports does nothing to the ports from k on. */
  lemma {:induction false} GenerationBefore(b: Bridge, k: nat, j: nat)
    requires k <= j < |b.ports|
    ensures SameNews(b, ConfigGeneration(b, k), j)
    decreases k
  {
    hide SameNews, TransmitConfig;
    if k == 0 {
      assert SameNews(b, b, j) by { NoNews(b, j); }
    } else {
      var c := ConfigGeneration(b, k - 1);
      GenerationBefore(b, k - 1, j);
      SameLength(b, c, j);
      TransmitOther(c, k - 1, j);
      SameNewsTransitive(b, c, TransmitConfig(c, k - 1), j);
    }
  }

  lemma NoNews(b: Bridge, j: nat)
    requires j < |b.ports|
    ensures SameNews(b, b, j)
  {
  }

  lemma SameLength(b: Bridge, c: Bridge, j: nat)
    requires SameNews(b, c, j)
    ensures |c.ports| == |b.ports| && j < |c.ports|
  {
  }

  lemma {:induction false} GenerationAfter(b: Bridge, k: nat, n: nat, j: nat)
    requires j < k <= n <= |b.ports|
    ensures SameNews(ConfigGeneration(b, k), ConfigGeneration(b, n), j)
    decreases n
  {
    hide SameNews, TransmitConfig;
    if n == k {
      NoNews(ConfigGeneration(b, k), j);
    } else {
      var c := ConfigGeneration(b, n - 1);
      GenerationAfter(b, k, n - 1, j);
      TransmitOther(c, n - 1, j);
      SameNewsTransitive(ConfigGeneration(b, k), c, TransmitConfig(c, n - 1), j);
    }
  }

  lemma FindSame(ps: seq<Port>, qs: seq<Port>, no: int)
    requires |qs| == |ps| && forall j | 0 <= j < |ps| :: qs[j].portNo == ps[j].portNo
    ensures FindPort(qs, no) == FindPort(ps, no)
  {
    hide FindPort;
    var r, s := FindPort(ps, no), FindPort(qs, no);
    assert r >= 0 ==> qs[r].portNo == no;
    assert s >= 0 ==> ps[s].portNo == no;
  }

  lemma TransmitTimers(b: Bridge, i: nat)
    requires i < |b.ports|
    ensures var c := TransmitConfig(b, i);
            && c.rootPort == b.rootPort && c.now == b.now && IsRoot(c) == IsRoot(b)
            && forall j | 0 <= j < |b.ports| ::
                 c.ports[j].portNo == b.ports[j].portNo && c.ports[j].messageAgeTimer == b.ports[j].messageAgeTimer
  {
    hide ConfigFor;
  }

  /** The age of a message does not depend on what has been sent. */
  lemma AgeSame(b: Bridge, i: nat)
    requires i < |b.ports|
    ensures MessageAge(TransmitConfig(b, i)) == MessageAge(b)
  {
    hide TransmitConfig, FindPort;
    var c := TransmitConfig(b, i);
    TransmitTimers(b, i);
    FindSame(b.ports, c.ports, b.rootPort);
  }

  lemma {:induction false} AgeBefore(b: Bridge, k: nat)
    requires k <= |b.ports|
    ensures MessageAge(ConfigGeneration(b, k)) == MessageAge(b)
    decreases k
  {
    hide TransmitConfig, MessageAge;
    if k > 0 {
      AgeBefore(b, k - 1);
      AgeSame(ConfigGeneration(b, k - 1), k - 1);
    }
  }

  lemma TransmitTells(b: Bridge, j: nat)
    requires j < |b.ports| && b.ports[j].designated == Offer(b, b.ports[j])
    ensures Tells(b, TransmitConfig(b, j), j, MessageAge(b))
  {
    hide MessageAge;
    var p := b.ports[j];
    var c := TransmitConfig(b, j);
    if !p.holdTimer.running && b.stpEnabled {
      var e := SentConfig(b.now, SenderOf(b), p, ConfigFor(b, p));
      assert c.trace == b.trace + [e] && c.trace[|b.trace|] == e;
      assert Says(c, j, MessageAge(b), c.trace[|b.trace|]);
    }
  }

  lemma TellsFrame(a: Bridge, b: Bridge, c: Bridge, d: Bridge, j: nat, age: int)
    requires SameNews(a, b, j) && j < |c.ports| && Tells(b, c, j, age) && SameNews(c, d, j)
    ensures Tells(a, d, j, age)
  {
    if !(Waits(b, c, j) && c.ports[j].configPending) && c.stpEnabled {
      var k :| |b.trace| <= k < |c.trace| && Says(c, j, age, c.trace[k]);
      assert d.trace[k] == c.trace[k];
      assert Says(d, j, age, d.trace[k]);
    }
  }

  lemma GenerationTells(b: Bridge, j: nat)
    requires j < |b.ports| && b.ports[j].Enabled() && IsDesignated(b, b.ports[j])
    requires b.ports[j].designated == Offer(b, b.ports[j])
    ensures Tells(b, ConfigGeneration(b, |b.ports|), j, MessageAge(b))
  {
    hide ConfigGeneration, Tells, TransmitConfig, MessageAge;
    var c := ConfigGeneration(b, j);
    GenerationBefore(b, j, j);
    AgeBefore(b, j);
    TransmitTells(c, j);
    var d := TransmitConfig(c, j);
    assert d == ConfigGeneration(b, j + 1) by { GenerationStep(b, j); }
    GenerationAfter(b, j + 1, |b.ports|, j);
    TellsFrame(b, c, d, ConfigGeneration(b, |b.ports|), j, MessageAge(b));
  }

  lemma GenerationStep(b: Bridge, j: nat)
    requires j < |b.ports|
    requires var c := ConfigGeneration(b, j); c.ports[j].Enabled() && IsDesignated(c, c.ports[j])
    ensures ConfigGeneration(b, j + 1) == TransmitConfig(ConfigGeneration(b, j), j)
  {
    hide TransmitConfig;
  }

  /** What is announced on every designated port. */
  lemma AnnouncesAll(b: Bridge)
    requires Consistent(b)
    ensures TellsAll(b, ConfigGeneration(b, |b.ports|), MessageAge(b))
    ensures Kept(b, ConfigGeneration(b, |b.ports|)) && SameFlags(b, ConfigGeneration(b, |b.ports|))
  {
    hide ConfigGeneration, Tells, MessageAge, Consistent;
    var c := ConfigGeneration(b, |b.ports|);
    GenerationKeeps(b, |b.ports|);
    GenerationHeld(b, |b.ports|);
    GenerationFlags(b, |b.ports|);
    forall j | 0 <= j < |c.ports| && c.ports[j].Enabled() && IsDesignated(c, c.ports[j])
      ensures Tells(b, c, j, MessageAge(b))
    {
      assert SameRole(b.ports[j], c.ports[j]);
      DesignatedOffers(b, j);
      GenerationTells(b, j);
    }
  }

  lemma DesignatedOffers(b: Bridge, j: nat)
    requires Consistent(b) && j < |b.ports| && b.ports[j].Enabled() && IsDesignated(b, b.ports[j])
    ensures b.ports[j].designated == Offer(b, b.ports[j])
  {
    assert RoleAgrees(b, b.ports[j]);
  }

  /** Times, flags and timers of the bridge itself, but the one that only the TCN concerns. */
  predicate SameFlags(b: Bridge, c: Bridge) {
    && c.maxAge == b.maxAge && c.helloTime == b.helloTime && c.forwardDelay == b.forwardDelay
    && c.bridgeMaxAge == b.bridgeMaxAge && c.bridgeHelloTime == b.bridgeHelloTime
    && c.bridgeForwardDelay == b.bridgeForwardDelay && c.stpEnabled == b.stpEnabled
    && c.topologyChange == b.topologyChange && c.topologyChangeDetected == b.topologyChangeDetected
    && c.topologyChangeTimer == b.topologyChangeTimer && c.helloTimer == b.helloTimer
  }

  lemma TransmitFlags(b: Bridge, i: nat)
    requires i < |b.ports|
    ensures SameFlags(b, TransmitConfig(b, i))
  {
    hide ConfigFor;
  }

  lemma {:induction false} GenerationFlags(b: Bridge, k: nat)
    requires k <= |b.ports|
    ensures SameFlags(b, ConfigGeneration(b, k))
    decreases k
  {
    hide TransmitConfig;
    if k > 0 {
      GenerationFlags(b, k - 1);
      TransmitFlags(ConfigGeneration(b, k - 1), k - 1);
    }
  }

  /** The hold timers of all ports. */
  ghost predicate SameHolds(b: Bridge, c: Bridge) {
    |c.ports| == |b.ports| && forall j | 0 <= j < |b.ports| :: c.ports[j].holdTimer == b.ports[j].holdTimer
  }

  lemma SelectHolds(b: Bridge, i: nat)
    requires i < |b.ports|
    ensures SameHolds(b, SelectState(b, i))
  {
    hide MakeBlocking;
    BlockingHolds(SetPort(b, i, b.ports[i].(configPending := false, topologyChangeAck := false)), i);
  }

  lemma BlockingHolds(b: Bridge, i: nat)
    requires i < |b.ports|
    ensures SameHolds(b, MakeBlocking(b, i))
  {
    hide TopologyChangeDetection;
    DetectionPorts(b);
  }

  lemma {:induction false} SelectionHolds(b: Bridge, k: nat)
    requires k <= |b.ports|
    ensures SameHolds(b, StateSelection(b, k))
    decreases k
  {
    hide SelectState;
    if k > 0 {
      SelectionHolds(b, k - 1);
      SelectHolds(StateSelection(b, k - 1), k - 1);
    }
  }

  lemma ReconfigureHolds(b: Bridge)
    ensures SameHolds(b, Reconfigure(b))
  {
    hide StateSelection, RootSelection;
    RootSelectionOnly(b);
    SelectionHolds(ConfigurationUpdate(b), |b.ports|);
  }

  lemma LoseRootHolds(b: Bridge)
    ensures SameHolds(b, LoseRoot(b))
  {
  }

  /** What was told since b was told since a, and nothing but bookkeeping of the bridge comes after. */
  lemma TellsSince(a: Bridge, b: Bridge, c: Bridge, d: Bridge, age: int)
    requires a.trace <= b.trace && SameHolds(a, b) && TellsAll(b, c, age)
    requires d == c.(topologyChangeDetected := d.topologyChangeDetected, tcnTimer := d.tcnTimer, helloTimer := d.helloTimer)
    ensures TellsAll(a, d, age)
  {
    forall j | 0 <= j < |d.ports| && d.ports[j].Enabled() && IsDesignated(d, d.ports[j])
      ensures Tells(a, d, j, age)
    {
      assert Tells(b, c, j, age);
      if !(Waits(b, c, j) && c.ports[j].configPending) && c.stpEnabled {
        var k :| |b.trace| <= k < |c.trace| && Says(c, j, age, c.trace[k]);
        assert Says(d, j, age, d.trace[k]);
      }
    }
  }

  // ----- a message from the direction of the root -------------------------------------------

  /** The bridge after roles and states have been selected anew, and the root role perhaps lost. */
  function Recorded(b: Bridge, i: nat, m: ConfigBpdu): Bridge
    requires i < |b.ports|
  {
    var c := Reconfigure(RecordConfig(b, i, m));
    if IsRoot(b) && !IsRoot(c) then LoseRoot(c) else c
  }

  lemma RecordedGoesOn(b: Bridge, i: nat, m: ConfigBpdu)
    requires Inv(b) && Allowed(b, ConfigReceived(i, m)) && b.ports[i].Enabled() && Supersedes(b, b.ports[i], m.vector)
    ensures var d := Recorded(b, i, m);
            && Inv(d) && SameNumbers(b, d) && SameHolds(b, d) && b.trace <= d.trace && d.now == b.now
            && d.ports[i].messageAgeTimer.start == b.now - m.messageAge
  {
    hide Inv, Reconfigure, LoseRoot, Goes, SameRoles, Supersedes;
    var a := RecordConfig(b, i, m);
    var c := Reconfigure(a);
    RecordedKeeps(b, i, m);
    if IsRoot(b) && !IsRoot(c) {
      LoseRootKeeps(c);
    }
    InvAlone(b);
    RecordAlone(b, i, m, i);
    ReconfigureGoes(a, i);
    AloneAfter(a, c, i);
    LoseRootGoes(c, i);
    GoesTransitive(a, c, LoseRoot(c), i);
    GoesMeans(a, Recorded(b, i, m), i);
    ReconfigureNow(a);
    LoseRootNow(c);
    ReconfigureHolds(a);
    LoseRootHolds(c);
  }

  lemma GoesMeans(b: Bridge, c: Bridge, i: nat)
    requires Goes(b, c, i)
    ensures SameNumbers(b, c) && b.trace <= c.trace
    ensures c.ports[i].messageAgeTimer.start == b.ports[i].messageAgeTimer.start
  {
  }

  lemma ReconfigureNow(b: Bridge)
    ensures Reconfigure(b).now == b.now
  {
    hide StateSelection, RootSelection, SameCore;
    RootSelectionOnly(b);
    StateSelectionHeld(ConfigurationUpdate(b), |b.ports|);
  }

  lemma LoseRootNow(b: Bridge)
    ensures LoseRoot(b).now == b.now
  {
  }

  /** The age of the next message is that of what the root port has heard, and one more. */
  lemma AgeFromRootPort(d: Bridge, i: nat)
    requires Consistent(d) && i < |d.ports| && d.ports[i].portNo == d.rootPort
    ensures MessageAge(d) == d.now - d.ports[i].messageAgeTimer.start + 1 && !IsRoot(d)
  {
    assert GoodPort(d.ports[i]);
    var r := RootPortNamed(d);
    assert RoleAgrees(d, d.ports[r]) && PortOk(d, d.ports[r]);
    assert r == i && FindPort(d.ports, d.rootPort) == i;
  }

  lemma RelayTells(d: Bridge, i: nat, m: ConfigBpdu)
    requires Inv(d) && i < |d.ports| && d.ports[i].portNo == d.rootPort
    ensures var c := RelayFromRoot(d, m);
            && TellsAll(d, c, d.now - d.ports[i].messageAgeTimer.start + 1)
            && c.maxAge == m.maxAge && c.helloTime == m.helloTime && c.forwardDelay == m.forwardDelay
            && c.topologyChange == m.topologyChange && c.helloTimer == d.helloTimer
            && (m.topologyChangeAck ==> !c.topologyChangeDetected && !c.tcnTimer.running)
  {
    hide ConfigGeneration, TellsAll, Consistent, MessageAge, Kept;
    var e := RecordTimeouts(d, m);
    PlainChangeKeeps(d, e);
    AgeFromRootPort(e, i);
    AnnouncesAll(e);
    var g := ConfigGeneration(e, |e.ports|);
    TellsSince(d, e, g, RelayFromRoot(d, m), MessageAge(e));
  }

  /** A message accepted on the port that is then the root port is passed on: on every other enabled
      designated port a message leaves that says what the bridge now knows, one older than the message
      heard, or it waits for the hold time to pass. The bridge takes over times and topology change, and
      an acknowledgement ends its own notification. */
  lemma AcceptedIsPassedOn(b: Bridge, i: nat, m: ConfigBpdu)
    requires Inv(b) && Allowed(b, ConfigReceived(i, m)) && b.ports[i].Enabled() && Supersedes(b, b.ports[i], m.vector)
    requires var c := Step(b, ConfigReceived(i, m)); i < |c.ports| && c.ports[i].portNo == c.rootPort
    ensures var c := Step(b, ConfigReceived(i, m));
            && TellsAll(b, c, m.messageAge + 1)
            && c.maxAge == m.maxAge && c.helloTime == m.helloTime && c.forwardDelay == m.forwardDelay
            && c.topologyChange == m.topologyChange
            && (m.topologyChangeAck ==> !c.topologyChangeDetected && !c.tcnTimer.running)
            && (IsRoot(b) ==> !c.helloTimer.running)
  {
    hide Inv, RelayFromRoot, TellsAll, Recorded, SameRoles, Supersedes;
    var d := Recorded(b, i, m);
    RecordedGoesOn(b, i, m);
    var c := Step(b, ConfigReceived(i, m));
    assert c == if b.ports[i].portNo == d.rootPort then RelayFromRoot(d, m) else d by { AcceptIs(b, i, m); }
    RelayKeeps(d, m);
    assert d.rootPort == c.rootPort by { SameRootPort(d, RelayFromRoot(d, m)); }
    assert c.ports[i].portNo == b.ports[i].portNo by { SameNumbered(b, d, RelayFromRoot(d, m), i); }
    RelayTells(d, i, m);
    TellsSince(b, d, c, c, m.messageAge + 1);
    if IsRoot(b) {
      AgeFromRoot(d, i);
      LostHello(b, i, m);
    }
  }

  lemma AcceptIs(b: Bridge, i: nat, m: ConfigBpdu)
    requires Inv(b) && Allowed(b, ConfigReceived(i, m)) && b.ports[i].Enabled() && Supersedes(b, b.ports[i], m.vector)
    ensures var d := Recorded(b, i, m);
            Step(b, ConfigReceived(i, m)) == if b.ports[i].portNo == d.rootPort then RelayFromRoot(d, m) else d
  {
    hide Reconfigure, LoseRoot, RelayFromRoot, Supersedes, RecordConfig;
  }

  lemma SameRootPort(b: Bridge, c: Bridge)
    requires SameRoles(b, c)
    ensures c.rootPort == b.rootPort
  {
  }

  lemma SameNumbered(a: Bridge, b: Bridge, c: Bridge, i: nat)
    requires i < |a.ports| && SameNumbers(a, b) && SameRoles(b, c)
    ensures |c.ports| == |a.ports| && b.ports[i].portNo == c.ports[i].portNo == a.ports[i].portNo
  {
    assert SameRole(b.ports[i], c.ports[i]);
  }

  lemma AgeFromRoot(d: Bridge, i: nat)
    requires Inv(d) && i < |d.ports| && d.ports[i].portNo == d.rootPort
    ensures !IsRoot(d)
  {
    AgeFromRootPort(d, i);
  }

  lemma LostHello(b: Bridge, i: nat, m: ConfigBpdu)
    requires i < |b.ports| && IsRoot(b) && !IsRoot(Recorded(b, i, m))
    ensures !Recorded(b, i, m).helloTimer.running
  {
    hide Reconfigure, RecordConfig;
  }

  /** What a port holds after an accepted message: the message's vector, unless the bridge has something
      better to offer on that LAN. */
  lemma AcceptedIsHeld(b: Bridge, i: nat, m: ConfigBpdu)
    requires Inv(b) && Allowed(b, ConfigReceived(i, m)) && b.ports[i].Enabled() && Supersedes(b, b.ports[i], m.vector)
    requires !ClaimsOwnPort(b, i, m)
    ensures var c := Step(b, ConfigReceived(i, m));
            && i < |c.ports|
            && (c.ports[i].designated == m.vector
                || (c.ports[i].designated == Offer(c, c.ports[i]) && Less(c.ports[i].designated, m.vector)))
  {
    hide Inv, AcceptConfig, Supersedes;
    var a := RecordConfig(b, i, m);
    var u := ConfigurationUpdate(a);
    AcceptKeeps(b, i, m);
    var c := AcceptConfig(b, i, m);
    assert SameRole(u.ports[i], c.ports[i]);
    assert u.ports[i].designated == m.vector || (u.ports[i].designated == Offer(u, u.ports[i]) && Less(u.ports[i].designated, m.vector)) by {
      HeldAfterUpdate(b, i, m);
    }
  }

  lemma HeldAfterUpdate(b: Bridge, i: nat, m: ConfigBpdu)
    requires Inv(b) && i < |b.ports| && b.ports[i].Enabled() && !ClaimsOwnPort(b, i, m)
    ensures var u := ConfigurationUpdate(RecordConfig(b, i, m));
            || u.ports[i].designated == m.vector
            || (u.ports[i].designated == Offer(u, u.ports[i]) && Less(u.ports[i].designated, m.vector))
  {
    hide Inv, RootSelection;
    var a := RecordConfig(b, i, m);
    assert Reconfigurable(a) && WellFormed(a) by { RecordedReconfigurable(b, i, m); }
    RootSelectionOnly(a);
    var s := RootSelection(a);
    assert ConfigurationUpdate(a).ports[i] == Redesignate(s, a.ports[i]);
    TakeoverImproves(a, a.ports[i]);
  }

  lemma RecordedReconfigurable(b: Bridge, i: nat, m: ConfigBpdu)
    requires Inv(b) && i < |b.ports| && b.ports[i].Enabled()
    ensures Reconfigurable(RecordConfig(b, i, m)) && WellFormed(RecordConfig(b, i, m))
  {
    RecordReconfigurable(b, i, m);
  }

  // ----- hello ------------------------------------------------------------------------------

  /** When the hello time has passed every enabled designated port tells, with age 0 at the root and
      otherwise one more than the age of what the root port has heard, and the timer starts again. */
  lemma HelloIsTold(b: Bridge, i: nat)
    requires Inv(b) && b.helloTimer.Expired(b.helloTime, b.now)
    ensures var c := CheckHello(b);
            && c.helloTimer == Started(b.now)
            && (IsRoot(b) ==> TellsAll(b, c, 0))
            && (i < |b.ports| && b.ports[i].portNo == b.rootPort ==>
                  TellsAll(b, c, b.now - b.ports[i].messageAgeTimer.start + 1))
  {
    hide ConfigGeneration, TellsAll, Consistent, Kept;
    var a := b.(helloTimer := b.helloTimer.Clear());
    PlainChangeKeeps(b, a);
    AnnouncesAll(a);
    var g := ConfigGeneration(a, |a.ports|);
    TellsSince(b, a, g, CheckHello(b), MessageAge(a));
    if i < |b.ports| && b.ports[i].portNo == b.rootPort {
      AgeFromRootPort(a, i);
    }
  }

  /** A message that waits leaves when the hold time has passed, with the acknowledgement that waits. */
  lemma WaitingIsSent(b: Bridge, i: nat)
    requires Inv(b) && i < |b.ports| && b.ports[i].Enabled() && b.ports[i].configPending
    requires b.ports[i].holdTimer.Expired(b.hz, b.now) && b.stpEnabled
    ensures var c := CheckHold(b, i);
            && i < |c.ports| && c.ports[i].holdTimer == Started(b.now) && !c.ports[i].configPending
            && exists k | |b.trace| <= k < |c.trace| ::
                 && c.trace[k].SentConfig? && c.trace[k].time == b.now && c.trace[k].from.portNo == b.ports[i].portNo
                 && c.trace[k].bpdu.vector == c.ports[i].designated
                 && c.trace[k].bpdu.topologyChangeAck == b.ports[i].topologyChangeAck
  {
    hide MessageAge;
    var p := b.ports[i];
    assert PortOk(b, p) && RoleAgrees(b, p);
    var c := CheckHold(b, i);
    var e := c.trace[|b.trace|];
    assert e.SentConfig? && e.time == b.now && e.from.portNo == p.portNo;
    assert e.bpdu.vector == c.ports[i].designated && e.bpdu.topologyChangeAck == p.topologyChangeAck;
  }

  // ----- a new root -------------------------------------------------------------------------

  /** Between b and c the bridge has taken over the root role: it uses its own times, notes a topology
      change, has nobody left to notify, and has told so on every enabled designated port. */
  ghost predicate TakesOver(b: Bridge, c: Bridge) {
    && IsRoot(c) && TellsAll(b, c, 0)
    && c.maxAge == b.bridgeMaxAge && c.helloTime == b.bridgeHelloTime && c.forwardDelay == b.bridgeForwardDelay
    && c.topologyChange && c.topologyChangeDetected && c.topologyChangeTimer == Started(b.now)
    && c.helloTimer == Started(b.now) && !c.tcnTimer.running
  }

  lemma RootDetects(a: Bridge)
    requires IsRoot(a)
    ensures TopologyChangeDetection(a)
            == a.(topologyChange := true, topologyChangeTimer := Started(a.now), topologyChangeDetected := true)
  {
  }

  lemma BecomeRootTells(b: Bridge)
    requires Consistent(b) && IsRoot(b)
    ensures TakesOver(b, BecomeRoot(b))
  {
    hide ConfigGeneration, TellsAll, Consistent, Kept, TopologyChangeDetection;
    var a := b.(maxAge := b.bridgeMaxAge, helloTime := b.bridgeHelloTime, forwardDelay := b.bridgeForwardDelay);
    RootDetects(a);
    var c := TopologyChangeDetection(a);
    var d := c.(tcnTimer := c.tcnTimer.Clear());
    PlainChangeKeeps(b, d);
    AnnouncesAll(d);
    var g := ConfigGeneration(d, |d.ports|);
    BecomeRootKeeps(b);
    TellsSince(b, d, g, BecomeRoot(b), MessageAge(d));
    assert g.tcnTimer == d.tcnTimer by { KeptTimer(d, g); }
  }

  lemma KeptTimer(b: Bridge, c: Bridge)
    requires Kept(b, c)
    ensures c.tcnTimer == b.tcnTimer
  {
  }

  /** The bridge's own settings do not change in a reconfiguration. */
  lemma ReconfigureSettings(b: Bridge)
    ensures var c := Reconfigure(b);
            && c.bridgeMaxAge == b.bridgeMaxAge && c.bridgeHelloTime == b.bridgeHelloTime
            && c.bridgeForwardDelay == b.bridgeForwardDelay && c.bridgeId == b.bridgeId
  {
    hide StateSelection, RootSelection, SameCore;
    RootSelectionOnly(b);
    SelectionSettings(ConfigurationUpdate(b), |b.ports|);
  }

  lemma {:induction false} SelectionSettings(b: Bridge, k: nat)
    requires k <= |b.ports|
    ensures var c := StateSelection(b, k);
            && c.bridgeMaxAge == b.bridgeMaxAge && c.bridgeHelloTime == b.bridgeHelloTime
            && c.bridgeForwardDelay == b.bridgeForwardDelay && c.bridgeId == b.bridgeId
    decreases k
  {
    hide SelectState;
    if k > 0 {
      SelectionSettings(b, k - 1);
      SelectSettings(StateSelection(b, k - 1), k - 1);
    }
  }

  lemma SelectSettings(b: Bridge, i: nat)
    requires i < |b.ports|
    ensures var c := SelectState(b, i);
            && c.bridgeMaxAge == b.bridgeMaxAge && c.bridgeHelloTime == b.bridgeHelloTime
            && c.bridgeForwardDelay == b.bridgeForwardDelay && c.bridgeId == b.bridgeId
  {
    hide MakeForwarding, TopologyChangeDetection;
    DetectionSettings(SetPort(b, i, b.ports[i].(configPending := false, topologyChangeAck := false)));
  }

  lemma DetectionSettings(b: Bridge)
    ensures var c := TopologyChangeDetection(b);
            && c.bridgeMaxAge == b.bridgeMaxAge && c.bridgeHelloTime == b.bridgeHelloTime
            && c.bridgeForwardDelay == b.bridgeForwardDelay && c.bridgeId == b.bridgeId
  {
  }

  /** What was told since d was told since b, if the ports that are up had their hold timers then. */
  lemma TellsFrom(b: Bridge, a: Bridge, d: Bridge, c: Bridge)
    requires Held(a, d) && SameHolds(a, d) && SameRoles(d, c) && TellsAll(d, c, 0)
    requires b.trace <= a.trace && |a.ports| == |b.ports|
    requires forall j | 0 <= j < |a.ports| && d.ports[j].Enabled() :: a.ports[j].holdTimer == b.ports[j].holdTimer
    ensures TellsAll(b, c, 0)
  {
    hide Held;
    assert a.trace <= d.trace by { HeldTrace(a, d); }
    forall j | 0 <= j < |c.ports| && c.ports[j].Enabled() && IsDesignated(c, c.ports[j])
      ensures Tells(b, c, j, 0)
    {
      assert Tells(d, c, j, 0);
      assert SameRole(d.ports[j], c.ports[j]);
      if !(Waits(d, c, j) && c.ports[j].configPending) && c.stpEnabled {
        var k :| |d.trace| <= k < |c.trace| && Says(c, j, 0, c.trace[k]);
      }
    }
  }

  lemma ReconfigureUps(a: Bridge)
    requires Reconfigurable(a)
    ensures var d := Reconfigure(a);
            |d.ports| == |a.ports| && forall j | 0 <= j < |a.ports| :: d.ports[j].Enabled() == a.ports[j].Enabled()
  {
    hide Reconfigure, RootSelection, Reconfigurable, Consistent;
    ReconfigureKeeps(a);
    RootSelectionOnly(a);
    var u, d := ConfigurationUpdate(a), Reconfigure(a);
    forall j | 0 <= j < |a.ports|
      ensures d.ports[j].Enabled() == a.ports[j].Enabled()
    {
      assert SameRole(u.ports[j], d.ports[j]);
    }
  }

  lemma HeldTrace(b: Bridge, c: Bridge)
    requires Held(b, c)
    ensures b.trace <= c.trace
  {
  }

  lemma PromotedTells(b: Bridge, a: Bridge)
    requires Reconfigurable(a) && b.trace <= a.trace && a.now == b.now
    requires |a.ports| == |b.ports| && forall j | 0 <= j < |a.ports| && a.ports[j].Enabled() :: a.ports[j].holdTimer == b.ports[j].holdTimer
    requires a.bridgeMaxAge == b.bridgeMaxAge && a.bridgeHelloTime == b.bridgeHelloTime
    requires a.bridgeForwardDelay == b.bridgeForwardDelay
    ensures var c := BecomeRootIfNew(Reconfigure(a), false); IsRoot(c) ==> TakesOver(b, c)
  {
    hide Reconfigure, BecomeRoot, TellsAll, Reconfigurable, Consistent, ConfigurationUpdate, SameRoles;
    var d := Reconfigure(a);
    ReconfigureKeeps(a);
    ReconfigureNow(a);
    ReconfigureSettings(a);
    ReconfigureHeld(a);
    ReconfigureHolds(a);
    ReconfigureUps(a);
    if IsRoot(d) {
      BecomeRootTells(d);
      BecomeRootKeeps(d);
      TellsFrom(b, a, d, BecomeRoot(d));
    }
  }

  /** A bridge that takes the root role because a port is taken down or because of a new address or
      priority says so at once. */
  lemma NewRootTells(b: Bridge, e: Input)
    requires Inv(b) && Allowed(b, e) && !IsRoot(b) && (e.PortDown? || e.NewAddress? || e.NewPriority?)
    ensures IsRoot(Step(b, e)) ==> TakesOver(b, Step(b, e))
  {
    hide Reconfigure, BecomeRoot, TakesOver, Reconfigurable, BecomeRootIfNew;
    match e {
      case PortDown(i) =>
        var a := ClosePort(b, i);
        ClosedReconfigurable(b, i);
        PromotedTells(b, a);
      case NewAddress(addr) =>
        var a := Renamed(b, addr);
        RelabelReconfigurable(b, a);
        PromotedTells(b, a);
      case NewPriority(priority) =>
        var a := Ranked(b, priority);
        RelabelReconfigurable(b, a);
        PromotedTells(b, a);
    }
  }

  lemma ClosedReconfigurable(b: Bridge, i: nat)
    requires Inv(b) && i < |b.ports|
    ensures Reconfigurable(ClosePort(b, i))
  {
    var c := ClosePort(b, i);
    assert PortOk(b, b.ports[i]) && GoodPort(b.ports[i]);
    TraceGrows(b.trace, b.hz, PortReset(b.ports[i].portNo));
    PortChangeReconfigurable(b, c, i);
  }

  /** So does a bridge whose last information from a better root has aged out. */
  lemma AgedRootTells(b: Bridge, i: nat)
    requires Inv(b) && i < |b.ports| && !IsRoot(b)
    ensures var c := CheckMessageAge(b, i); IsRoot(c) ==> TakesOver(b, c)
  {
    hide Reconfigure, TakesOver, Reconfigurable, BecomeRootIfNew, CheckMessageAge;
    CheckMessageAgeIs(b, i);
    if b.ports[i].messageAgeTimer.Expired(b.maxAge, b.now) {
      var a := Forgotten(b, i);
      ForgottenReconfigurable(b, i);
      PromotedTells(b, a);
    }
  }

  // ----- topology changes -------------------------------------------------------------------

  /** An acknowledgement has left port i since b, or waits there for a hold time to pass that was
      running before. */
  ghost predicate Acknowledges(b: Bridge, c: Bridge, i: nat)
    requires i < |c.ports|
  {
    || (Waits(b, c, i) && c.ports[i].configPending && c.ports[i].topologyChangeAck)
    || (c.stpEnabled ==>
          exists k | |b.trace| <= k < |c.trace| ::
            c.trace[k].SentConfig? && c.trace[k].from.portNo == c.ports[i].portNo && c.trace[k].bpdu.topologyChangeAck)
  }

  /** Since b a notification has left the root port. */
  ghost predicate Notifies(b: Bridge, c: Bridge) {
    c.stpEnabled ==>
      exists k | |b.trace| <= k < |c.trace| :: c.trace[k].SentTcn? && c.trace[k].from.portNo == c.rootPort
  }

  /** A topology change is noted: the root tells everybody from now on, another bridge notifies the root
      unless it is already doing so. */
  ghost predicate Notes(b: Bridge, c: Bridge) {
    && c.topologyChangeDetected
    && (IsRoot(b) ==> c.topologyChange && c.topologyChangeTimer == Started(b.now))
    && (!IsRoot(b) && !b.topologyChangeDetected ==> Notifies(b, c) && c.tcnTimer == Started(b.now))
  }

  lemma DetectionNotes(b: Bridge)
    requires Consistent(b)
    ensures Notes(b, TopologyChangeDetection(b)) && b.trace <= TopologyChangeDetection(b).trace
  {
    var c := TopologyChangeDetection(b);
    var r := RootPortNamed(b);
    if !IsRoot(b) && !b.topologyChangeDetected && b.stpEnabled {
      assert c.trace[|b.trace|].SentTcn? && c.trace[|b.trace|].from.portNo == c.rootPort;
    }
  }

  lemma NotesSince(b: Bridge, c: Bridge, d: Bridge)
    requires Notes(b, c) && c.trace <= d.trace && SameFlags(c, d) && d.tcnTimer == c.tcnTimer && d.rootPort == c.rootPort
    ensures Notes(b, d)
  {
    if !IsRoot(b) && !b.topologyChangeDetected && c.stpEnabled {
      var k :| |b.trace| <= k < |c.trace| && c.trace[k].SentTcn? && c.trace[k].from.portNo == c.rootPort;
      assert d.trace[k] == c.trace[k];
    }
  }

  lemma TransmitAcknowledges(b: Bridge, c: Bridge, i: nat)
    requires i < |c.ports| && c.ports[i].topologyChangeAck && b.trace <= c.trace
    requires i < |b.ports| && c.ports[i].holdTimer == b.ports[i].holdTimer
    ensures Acknowledges(b, TransmitConfig(c, i), i)
  {
    hide MessageAge;
    var d := TransmitConfig(c, i);
    if !c.ports[i].holdTimer.running && c.stpEnabled {
      assert d.trace[|c.trace|].SentConfig? && d.trace[|c.trace|].bpdu.topologyChangeAck;
    }
  }

  /** A notification heard on an enabled designated port is acknowledged there and noted; on any other
      port nothing happens. */
  lemma NotificationIsNoted(b: Bridge, i: nat)
    requires Inv(b) && i < |b.ports|
    ensures var c := Step(b, TcnReceived(i));
            if b.ports[i].Enabled() && IsDesignated(b, b.ports[i])
            then i < |c.ports| && Notes(b, c) && Acknowledges(b, c, i)
            else c == b
  {
    hide TopologyChangeDetection, TransmitConfig, Notes, Acknowledges;
    if b.ports[i].Enabled() && IsDesignated(b, b.ports[i]) {
      var c := TopologyChangeDetection(b);
      DetectionNotes(b);
      DetectionPorts(b);
      var d := SetPort(c, i, b.ports[i].(topologyChangeAck := true));
      TransmitAcknowledges(b, d, i);
      TransmitFlags(d, i);
      TransmitTimers(d, i);
      TransmitHeld(d, i);
      TransmitTcnTimer(d, i);
      NotesSince(b, c, TransmitConfig(d, i));
    }
  }

  lemma TransmitTcnTimer(b: Bridge, i: nat)
    requires i < |b.ports|
    ensures TransmitConfig(b, i).tcnTimer == b.tcnTimer
  {
    hide ConfigFor;
  }

  /** A port that starts to forward on a bridge with a designated port is noted as a topology change. */
  lemma ForwardingIsNoted(b: Bridge, i: nat)
    requires Inv(b) && i < |b.ports| && b.ports[i].state == Learning
    requires b.ports[i].forwardDelayTimer.Expired(b.forwardDelay, b.now)
    requires exists j | 0 <= j < |b.ports| :: b.ports[j].Enabled() && b.ports[j].designated.bridge == b.bridgeId
    ensures var c := CheckForwardDelay(b, i); i < |c.ports| && c.ports[i].state == Forwarding && Notes(b, c)
  {
    hide TopologyChangeDetection, Notes, Consistent;
    var d := Advancing(b, i);
    assert CheckForwardDelay(b, i) == TopologyChangeDetection(d) by { ForwardingIs(b, i); }
    assert Consistent(d) by { AdvancingKeeps(b, i); }
    DetectionNotes(d);
    DetectionPorts(d);
    NotesEarlier(b, d, TopologyChangeDetection(d));
  }

  function Advancing(b: Bridge, i: nat): Bridge
    requires i < |b.ports|
  {
    var q := Advanced(b, b.ports[i]);
    SetPort(b.(trace := b.trace + [DelayExpired(q.portNo)]), i, q)
  }

  lemma ForwardingIs(b: Bridge, i: nat)
    requires i < |b.ports| && b.ports[i].state == Learning
    requires b.ports[i].forwardDelayTimer.Expired(b.forwardDelay, b.now)
    requires exists j | 0 <= j < |b.ports| :: b.ports[j].Enabled() && b.ports[j].designated.bridge == b.bridgeId
    ensures CheckForwardDelay(b, i) == TopologyChangeDetection(Advancing(b, i))
  {
    hide TopologyChangeDetection;
    var p := b.ports[i];
    var off := p.(forwardDelayTimer := p.forwardDelayTimer.Clear());
    assert b.ports[i := off][i := Advanced(b, p)] == b.ports[i := Advanced(b, p)];
    var d := Advancing(b, i);
    var j :| 0 <= j < |b.ports| && b.ports[j].Enabled() && b.ports[j].designated.bridge == b.bridgeId;
    assert d.ports[j].Enabled() && d.ports[j].designated.bridge == d.bridgeId;
    assert DesignatedForSomePort(d);
  }

  lemma AdvancingKeeps(b: Bridge, i: nat)
    requires Inv(b) && i < |b.ports| && b.ports[i].state == Learning
    ensures Consistent(Advancing(b, i))
  {
    DelayPortKeeps(b, i, Advanced(b, b.ports[i]));
  }

  lemma NotesEarlier(a: Bridge, b: Bridge, c: Bridge)
    requires a.trace <= b.trace && IsRoot(a) == IsRoot(b) && a.now == b.now
    requires a.topologyChangeDetected == b.topologyChangeDetected && Notes(b, c)
    ensures Notes(a, c)
  {
  }

  // ----- a new bridge id --------------------------------------------------------------------

  /** A new priority replaces the upper two bytes of the bridge id, and every port the bridge was
      designated on carries the new id. */
  lemma PriorityIsSet(b: Bridge, priority: int, j: nat)
    requires Inv(b) && j < |b.ports|
    ensures var c := Step(b, NewPriority(priority));
            && c.bridgeId / ADDR_RANGE == priority % 0x1_0000 && c.bridgeId % ADDR_RANGE == b.bridgeId % ADDR_RANGE
            && |c.ports| == |b.ports| && c.ports[j].Enabled() == b.ports[j].Enabled()
            && (b.ports[j].Enabled() && IsDesignated(b, b.ports[j]) ==> IsDesignated(c, c.ports[j]))
  {
    hide Reconfigure, BecomeRootIfNew, WithPriority, AddrOf;
    var a := Ranked(b, priority);
    RelabelReconfigurable(b, a);
    RelabelledPorts(b, a, j);
    assert a.bridgeId / ADDR_RANGE == priority % 0x1_0000 && a.bridgeId % ADDR_RANGE == b.bridgeId % ADDR_RANGE by {
      PriorityBytes(b.bridgeId, priority);
    }
  }

  lemma PriorityBytes(id: int, priority: int)
    ensures WithPriority(id, priority) / ADDR_RANGE == priority % 0x1_0000
    ensures WithPriority(id, priority) % ADDR_RANGE == id % ADDR_RANGE
  {
  }

  /** A new address replaces the lower six bytes. */
  lemma AddressIsSet(b: Bridge, addr: int, j: nat)
    requires Inv(b) && j < |b.ports| && 0 <= addr < ADDR_RANGE
    ensures var c := Step(b, NewAddress(addr));
            && c.bridgeId / ADDR_RANGE == b.bridgeId / ADDR_RANGE && c.bridgeId % ADDR_RANGE == addr
            && |c.ports| == |b.ports| && c.ports[j].Enabled() == b.ports[j].Enabled()
            && (b.ports[j].Enabled() && IsDesignated(b, b.ports[j]) ==> IsDesignated(c, c.ports[j]))
  {
    hide Reconfigure, BecomeRootIfNew, WithAddr, AddrOf;
    var a := Renamed(b, addr);
    RelabelReconfigurable(b, a);
    RelabelledPorts(b, a, j);
    assert a.bridgeId / ADDR_RANGE == b.bridgeId / ADDR_RANGE && a.bridgeId % ADDR_RANGE == addr by {
      AddressBytes(b.bridgeId, addr);
    }
  }

  lemma AddressBytes(id: int, addr: int)
    requires 0 <= addr < ADDR_RANGE
    ensures WithAddr(id, addr) / ADDR_RANGE == id / ADDR_RANGE && WithAddr(id, addr) % ADDR_RANGE == addr
  {
  }

  lemma RelabelledPorts(b: Bridge, a: Bridge, j: nat)
    requires Inv(b) && Reconfigurable(a) && j < |b.ports| == |a.ports| && a.tcnTimer == b.tcnTimer
    requires a.ports[j] == b.ports[j].(designated := a.ports[j].designated)
    requires b.ports[j].Enabled() && IsDesignated(b, b.ports[j]) ==> IsDesignated(a, a.ports[j])
    ensures var c := BecomeRootIfNew(Reconfigure(a), IsRoot(b));
            && c.bridgeId == a.bridgeId && |c.ports| == |b.ports| && c.ports[j].Enabled() == b.ports[j].Enabled()
            && (b.ports[j].Enabled() && IsDesignated(b, b.ports[j]) ==> IsDesignated(c, c.ports[j]))
  {
    hide Reconfigure, BecomeRootIfNew, RootSelection, Reconfigurable, Consistent;
    ReconfigureAndPromote(a, IsRoot(b));
    RootSelectionOnly(a);
    var u := ConfigurationUpdate(a);
    assert u.ports[j] == Redesignate(RootSelection(a), a.ports[j]);
    assert SameRole(u.ports[j], BecomeRootIfNew(Reconfigure(a), IsRoot(b)).ports[j]);
  }
}
