/**
 What holds of a bridge between any two events, and why each operation keeps it.
 */
module BridgeInvariant {
  import opened Basics
  import opened BridgeTypes
  import opened BridgeSpec
  import opened BridgeRoles

  // ----- ports ------------------------------------------------------------------------

  /** The forward-delay timer runs exactly while the port is on its way to forwarding. */
  predicate DelayOk(p: Port) {
    p.Enabled() ==> (p.forwardDelayTimer.running <==> p.state == Listening || p.state == Learning)
  }

  /** An enabled port is blocked exactly when it is neither root port nor designated. */
  predicate StateOk(b: Bridge, p: Port) {
    p.Enabled() ==> (p.state == Blocking <==> p.portNo != b.rootPort && !IsDesignated(b, p))
  }

  /** The message-age timer runs exactly on enabled ports that listen to another bridge. */
  predicate AgeOk(b: Bridge, p: Port) {
    p.Enabled() ==> (p.messageAgeTimer.running <==> !IsDesignated(b, p))
  }

  /** A pending acknowledgement waits for a pending message, and that for the hold timer. */
  predicate PendingOk(p: Port) {
    && (p.topologyChangeAck ==> p.configPending)
    && (p.configPending ==> p.holdTimer.running && p.Enabled())
  }

  predicate SendOk(b: Bridge, p: Port) {
    PendingOk(p) && (p.configPending ==> IsDesignated(b, p))
  }

  /** When the last configuration message left port no, unless the port was reset since. */
  function LastSend(trace: seq<Event>, no: int): Option<int> {
    if trace == [] then None
    else
      var e := trace[|trace| - 1];
      if e.SentConfig? && e.from.portNo == no then Some(e.time)
      else if e == PortReset(no) then None
      else LastSend(trace[..|trace| - 1], no)
  }

  /** Until the hold time has passed since the last message, the hold timer runs. */
  predicate HoldOk(b: Bridge, p: Port) {
    var last := LastSend(b.trace, p.portNo);
    last.Some? ==> (p.holdTimer.running && last.value <= p.holdTimer.start) || b.now >= last.value + b.hz
  }

  predicate PortOk(b: Bridge, p: Port) {
    DelayOk(p) && StateOk(b, p) && AgeOk(b, p) && SendOk(b, p) && HoldOk(b, p)
  }

  /** What is left of this in the middle of a reconfiguration, before states are selected. */
  predicate PortStale(b: Bridge, p: Port) {
    && DelayOk(p)
    && PendingOk(p)
    && HoldOk(b, p)
    && (p.Enabled() && !IsDesignated(b, p) ==> p.messageAgeTimer.running)
  }

  // ----- the trace --------------------------------------------------------------------

  /** The position of a sender's root port. */
  predicate RootOf(s: Sender, r: nat) {
    r < |s.ports| && s.ports[r].portNo == s.rootPort && s.ports[r].Enabled()
  }

  /** What a message says besides its vector: nothing has aged at the root, elsewhere the age is the
      time since the root port's information started to age, and one more; the times and the topology
      change are the sender's, the acknowledgement is the port's. */
  predicate ContentOk(time: int, s: Sender, p: Port, m: ConfigBpdu) {
    && m.maxAge == s.maxAge && m.helloTime == s.helloTime && m.forwardDelay == s.forwardDelay
    && m.topologyChange == s.topologyChange && m.topologyChangeAck == p.topologyChangeAck
    && (s.bridgeId == s.designatedRoot ==> m.messageAge == 0)
    && (s.bridgeId != s.designatedRoot ==>
          exists r | 0 <= r < |s.ports| ::
            RootOf(s, r) && m.messageAge == time - s.ports[r].messageAgeTimer.start + 1)
  }

  /** Messages leave only through enabled ports, and a configuration message leaves only through a
      designated port and carries exactly what is recorded there. */
  predicate EventOk(e: Event) {
    match e
    case SentConfig(t, s, p, m) =>
      && p.Enabled() && m.vector == p.designated && m.vector.port == p.portId && m.vector.bridge == s.bridgeId
      && ContentOk(t, s, p, m)
    case SentTcn(_, p) => p.Enabled()
    case _ => true
  }

  /** Each configuration message comes at least hz after the previous one on its port, unless
      the port was reset in between. */
  predicate TraceOk(trace: seq<Event>, hz: nat) {
    trace == []
    || var e, before := trace[|trace| - 1], trace[..|trace| - 1];
       && TraceOk(before, hz)
       && EventOk(e)
       && (e.SentConfig? ==>
             var last := LastSend(before, e.from.portNo);
             last.Some? ==> e.time >= last.value + hz)
  }

  lemma TraceGrows(trace: seq<Event>, hz: nat, e: Event)
    ensures TraceOk(trace + [e], hz) <==>
              && TraceOk(trace, hz)
              && EventOk(e)
              && (e.SentConfig? ==>
                    var last := LastSend(trace, e.from.portNo);
                    last.Some? ==> e.time >= last.value + hz)
    ensures forall no :: LastSend(trace + [e], no) ==
              if e.SentConfig? && e.from.portNo == no then Some(e.time)
              else if e == PortReset(no) then None
              else LastSend(trace, no)
  {
    assert (trace + [e])[..|trace|] == trace;
  }

  // ----- the bridge -------------------------------------------------------------------

  ghost predicate Consistent(b: Bridge) {
    && WellFormed(b)
    && RolesAgree(b)
    && TraceOk(b.trace, b.hz)
    && forall i | 0 <= i < |b.ports| :: PortOk(b, b.ports[i])
  }

  /** The invariant of a bridge between events. */
  ghost predicate Inv(b: Bridge) {
    Consistent(b) && (b.tcnTimer.running ==> !IsRoot(b))
  }

  /** Roles are settled, states of the ports from k on are not yet. */
  ghost predicate Selecting(b: Bridge, k: nat) {
    && WellFormed(b)
    && RolesAgree(b)
    && TraceOk(b.trace, b.hz)
    && k <= |b.ports|
    && (forall i | 0 <= i < k :: PortOk(b, b.ports[i]))
    && (forall i | k <= i < |b.ports| :: PortStale(b, b.ports[i]))
  }

  /** Nothing but the TCN bookkeeping changes from b to c. */
  ghost predicate OnlyTcn(b: Bridge, c: Bridge) {
    && SameRoles(b, c)
    && c.ports == b.ports
    && (c.trace == b.trace
        || exists p: Port :: p.Enabled() && c.trace == b.trace + [SentTcn(b.now, p)])
    && (b.tcnTimer.running ==> c.tcnTimer.running)
    && (c.tcnTimer.running ==> b.tcnTimer.running || !IsRoot(b))
  }

  lemma TransmitTcnOnly(b: Bridge)
    requires WellFormed(b) && RolesAgree(b)
    ensures OnlyTcn(b, TransmitTcn(b)) && TransmitTcn(b).tcnTimer == b.tcnTimer
  {
    var r := RootPortNamed(b);
  }

  lemma DetectionOnlyTcn(b: Bridge)
    requires WellFormed(b) && RolesAgree(b)
    ensures OnlyTcn(b, TopologyChangeDetection(b))
  {
    TransmitTcnOnly(b);
  }

  lemma OnlyTcnKeeps(b: Bridge, c: Bridge)
    requires OnlyTcn(b, c) && TraceOk(b.trace, b.hz)
    ensures TraceOk(c.trace, c.hz)
    ensures forall p :: PortOk(b, p) ==> PortOk(c, p)
    ensures forall p :: PortStale(b, p) ==> PortStale(c, p)
  {
    if c.trace != b.trace {
      var p: Port :| p.Enabled() && c.trace == b.trace + [SentTcn(b.now, p)];
      TraceGrows(b.trace, b.hz, SentTcn(b.now, p));
    }
  }

  lemma OnlyTcnKeepsSelecting(b: Bridge, c: Bridge, k: nat)
    requires OnlyTcn(b, c) && Selecting(b, k)
    ensures Selecting(c, k)
  {
    OnlyTcnKeeps(b, c);
    RolesFrame(b, c);
  }

  // ----- sending ----------------------------------------------------------------------

  /** c keeps everything that holds between events, and the roles, of b. */
  ghost predicate Kept(b: Bridge, c: Bridge) {
    Consistent(c) && SameRoles(b, c) && c.tcnTimer == b.tcnTimer
  }

  lemma KeptTransitive(a: Bridge, b: Bridge, c: Bridge)
    requires Kept(a, b) && Kept(b, c)
    ensures Kept(a, c)
  {
    SameRolesTransitive(a, b, c);
  }

  /** One port changes outside its role and its state; one event is logged at most. */
  lemma PortChangeKeeps(b: Bridge, c: Bridge, i: nat)
    requires Consistent(b) && i < |b.ports|
    requires SameRoles(b, c) && c.tcnTimer == b.tcnTimer
    requires c.ports == b.ports[i := c.ports[i]]
    requires TraceOk(c.trace, c.hz)
    requires forall no | no != b.ports[i].portNo :: LastSend(c.trace, no) == LastSend(b.trace, no)
    requires PortOk(c, c.ports[i])
    ensures Kept(b, c)
  {
    RolesFrame(b, c);
    forall j | 0 <= j < |c.ports|
      ensures PortOk(c, c.ports[j])
    {
      if j != i {
        assert c.ports[j] == b.ports[j];
        assert PortOk(b, b.ports[j]);
        assert b.ports[j].portNo != b.ports[i].portNo;
      }
    }
  }

  lemma PostponeKeeps(b: Bridge, i: nat, q: Port)
    requires Consistent(b) && i < |b.ports|
    requires q == b.ports[i].(topologyChangeAck := q.topologyChangeAck, configPending := true,
                              holdTimer := q.holdTimer)
    requires q.Enabled() && IsDesignated(b, q) && q.holdTimer.running && HoldOk(b, q)
    ensures Kept(b, SetPort(b, i, q))
  {
    assert PortOk(b, b.ports[i]);
    PortChangeKeeps(b, SetPort(b, i, q), i);
  }

  lemma SendKeeps(b: Bridge, i: nat, q: Port, s: Sender, m: ConfigBpdu)
    requires Consistent(b) && i < |b.ports|
    requires q == b.ports[i].(topologyChangeAck := q.topologyChangeAck,
                              configPending := q.configPending, holdTimer := q.holdTimer)
    requires q.Enabled() && IsDesignated(b, q) && !q.holdTimer.running && HoldOk(b, q)
    requires m.vector == Offer(b, q) && s.bridgeId == b.bridgeId && ContentOk(b.now, s, q, m)
    ensures var p := q.(topologyChangeAck := false, configPending := false, holdTimer := Started(b.now));
            Kept(b, SetPort(Emit(b, SentConfig(b.now, s, q, m)), i, p))
  {
    hide ContentOk, TraceOk, LastSend, RootAgrees;
    var e := SentConfig(b.now, s, q, m);
    var p := q.(topologyChangeAck := false, configPending := false, holdTimer := Started(b.now));
    var c := SetPort(Emit(b, e), i, p);
    assert PortOk(b, b.ports[i]) && RoleAgrees(b, b.ports[i]);
    assert EventOk(e) by { OfferIsHeld(b, q); }
    TraceGrows(b.trace, b.hz, e);
    SentOnce(b, i, q, e, p);
    PortChangeKeeps(b, c, i);
  }

  lemma OfferIsHeld(b: Bridge, q: Port)
    requires q.Enabled() && IsDesignated(b, q) && RoleAgrees(b, q)
    ensures q.designated == Offer(b, q)
  {
  }

  /** What a message does to its port and to the log, apart from roles. */
  lemma SentOnce(b: Bridge, i: nat, q: Port, e: Event, p: Port)
    requires i < |b.ports| && PortOk(b, b.ports[i]) && TraceOk(b.trace, b.hz)
    requires q == b.ports[i].(topologyChangeAck := q.topologyChangeAck,
                              configPending := q.configPending, holdTimer := q.holdTimer)
    requires !q.holdTimer.running && HoldOk(b, q) && e.SentConfig? && e.time == b.now && e.from == q && EventOk(e)
    requires p == q.(topologyChangeAck := false, configPending := false, holdTimer := Started(b.now))
    ensures var c := SetPort(Emit(b, e), i, p);
            && TraceOk(c.trace, c.hz) && PortOk(c, p)
            && forall no | no != q.portNo :: LastSend(c.trace, no) == LastSend(b.trace, no)
  {
    hide TraceOk, LastSend, EventOk;
    TraceGrows(b.trace, b.hz, e);
  }

  /** What is sent on a port says what it should. */
  lemma ContentIs(b: Bridge, i: nat, q: Port)
    requires Consistent(b) && i < |b.ports| && q.Enabled() && IsDesignated(b, q)
    requires q == b.ports[i].(topologyChangeAck := q.topologyChangeAck,
                              configPending := q.configPending, holdTimer := q.holdTimer)
    ensures var c := SetPort(b, i, q); ContentOk(b.now, SenderOf(c), q, ConfigFor(c, q))
  {
    var c := SetPort(b, i, q);
    if !IsRoot(b) {
      var r := RootPortNamed(b);
      assert RoleAgrees(b, b.ports[r]) && PortOk(b, b.ports[r]);
      assert c.ports[r] == b.ports[r];
      assert FindPort(c.ports, c.rootPort) == r;
      assert RootOf(SenderOf(c), r);
    }
  }

  /** Sending on an enabled designated port, whatever its flags, provided its hold timer is honest. */
  lemma TransmitKeeps(b: Bridge, i: nat, q: Port)
    requires Consistent(b) && i < |b.ports|
    requires q == b.ports[i].(topologyChangeAck := q.topologyChangeAck,
                              configPending := q.configPending, holdTimer := q.holdTimer)
    requires q.Enabled() && IsDesignated(b, q) && HoldOk(b, q)
    ensures Kept(b, TransmitConfig(SetPort(b, i, q), i))
  {
    var c := SetPort(b, i, q);
    if q.holdTimer.running {
      PostponeKeeps(b, i, q.(configPending := true));
      assert c.ports[i := q.(configPending := true)] == b.ports[i := q.(configPending := true)];
    } else {
      hide ContentOk, ConfigFor;
      ContentIs(b, i, q);
      assert ConfigFor(c, q).vector == Offer(b, q) by { VectorIs(c, q); }
      SendKeeps(b, i, q, SenderOf(c), ConfigFor(c, q));
      SendOnOverwrites(b, i, q, ConfigFor(c, q));
    }
  }

  lemma VectorIs(b: Bridge, p: Port)
    ensures ConfigFor(b, p).vector == Offer(b, p)
  {
  }

  lemma SendOnOverwrites(b: Bridge, i: nat, q: Port, m: ConfigBpdu)
    requires i < |b.ports|
    ensures var c := SetPort(b, i, q);
            var p := q.(topologyChangeAck := false, configPending := false, holdTimer := Started(b.now));
            SendOn(c, i, q, m) == SetPort(Emit(b, SentConfig(b.now, SenderOf(c), q, m)), i, p)
  {
    var p := q.(topologyChangeAck := false, configPending := false, holdTimer := Started(b.now));
    assert b.ports[i := q][i := p] == b.ports[i := p];
  }

  lemma GenerateKeeps(b: Bridge, i: nat)
    requires Consistent(b) && i < |b.ports|
    ensures Kept(b, GenerateFor(b, i))
  {
    if b.ports[i].Enabled() && IsDesignated(b, b.ports[i]) {
      assert PortOk(b, b.ports[i]);
      assert SetPort(b, i, b.ports[i]) == b;
      TransmitKeeps(b, i, b.ports[i]);
    }
  }

  lemma {:induction false} GenerationKeeps(b: Bridge, k: nat)
    requires Consistent(b) && k <= |b.ports|
    ensures Kept(b, ConfigGeneration(b, k))
    decreases k
  {
    hide GenerateFor, Consistent;
    if k > 0 {
      var c := ConfigGeneration(b, k - 1);
      GenerationKeeps(b, k - 1);
      GenerateKeeps(c, k - 1);
      KeptTransitive(b, c, ConfigGeneration(b, k));
    }
  }

  // ----- selecting states -------------------------------------------------------------

  /** c keeps the roles of b and starts the TCN timer only on a bridge that is not root. */
  ghost predicate RolesKept(b: Bridge, c: Bridge) {
    && SameRoles(b, c)
    && (b.tcnTimer.running ==> c.tcnTimer.running)
    && (c.tcnTimer.running ==> b.tcnTimer.running || !IsRoot(b))
  }

  lemma RolesKeptTransitive(a: Bridge, b: Bridge, c: Bridge)
    requires RolesKept(a, b) && RolesKept(b, c)
    ensures RolesKept(a, c)
  {
    SameRolesTransitive(a, b, c);
  }

  lemma RolesKeptReflexive(b: Bridge)
    ensures RolesKept(b, b)
  {
  }

  /** Only port i changes, and it is in order afterwards. */
  lemma SelectingStep(b: Bridge, c: Bridge, i: nat)
    requires Selecting(b, i) && i < |b.ports|
    requires SameRoles(b, c) && c.trace == b.trace
    requires c.ports == b.ports[i := c.ports[i]]
    requires PortOk(c, c.ports[i])
    ensures Selecting(c, i + 1)
  {
    RolesFrame(b, c);
    forall j | 0 <= j < |c.ports| && j != i
      ensures c.ports[j] == b.ports[j]
      ensures PortOk(b, b.ports[j]) ==> PortOk(c, c.ports[j])
      ensures PortStale(b, b.ports[j]) ==> PortStale(c, c.ports[j])
    {
    }
  }

  /** Only port i changes, and no other port can tell. */
  lemma StillSelecting(b: Bridge, c: Bridge, i: nat)
    requires Selecting(b, i) && i < |b.ports|
    requires SameRoles(b, c) && c.trace == b.trace
    requires c.ports == b.ports[i := c.ports[i]]
    requires PortStale(c, c.ports[i])
    ensures Selecting(c, i)
  {
    RolesFrame(b, c);
    forall j | 0 <= j < |c.ports| && j != i
      ensures c.ports[j] == b.ports[j]
      ensures PortOk(b, b.ports[j]) ==> PortOk(c, c.ports[j])
      ensures PortStale(b, b.ports[j]) ==> PortStale(c, c.ports[j])
    {
    }
  }

  lemma BlockPortKeeps(b: Bridge, i: nat)
    requires Selecting(b, i) && i < |b.ports|
    requires var p := b.ports[i];
             p.Enabled() && p.portNo != b.rootPort && !IsDesignated(b, p) && !p.configPending
    ensures var p := b.ports[i];
            var c := SetPort(b, i, p.(state := Blocking, forwardDelayTimer := p.forwardDelayTimer.Clear()));
            Selecting(c, i + 1) && RolesKept(b, c)
  {
    var p := b.ports[i];
    assert PortStale(b, p);
    var q := p.(state := Blocking, forwardDelayTimer := p.forwardDelayTimer.Clear());
    SelectingStep(b, SetPort(b, i, q), i);
  }

  lemma DetectingKeeps(b: Bridge, i: nat)
    requires Selecting(b, i)
    ensures var c := TopologyChangeDetection(b);
            Selecting(c, i) && RolesKept(b, c) && c.ports == b.ports
  {
    DetectionOnlyTcn(b);
    OnlyTcnKeepsSelecting(b, TopologyChangeDetection(b), i);
  }

  lemma BlockKeeps(b: Bridge, i: nat)
    requires Selecting(b, i) && i < |b.ports|
    requires var p := b.ports[i];
             p.Enabled() && p.portNo != b.rootPort && !IsDesignated(b, p) && !p.configPending
    ensures Selecting(MakeBlocking(b, i), i + 1) && RolesKept(b, MakeBlocking(b, i))
  {
    var p := b.ports[i];
    if p.state == Blocking {
      assert PortStale(b, p);
      assert b.ports[i := p] == b.ports;
      SelectingStep(b, b, i);
    } else if p.state == Listening {
      BlockPortKeeps(b, i);
    } else {
      var c := TopologyChangeDetection(b);
      DetectingKeeps(b, i);
      BlockPortKeeps(c, i);
      RolesKeptTransitive(b, c, MakeBlocking(b, i));
    }
  }

  lemma SelectRootPortKeeps(b: Bridge, i: nat)
    requires Selecting(b, i) && i < |b.ports| && b.ports[i].Enabled() && b.ports[i].portNo == b.rootPort
    ensures Selecting(SelectState(b, i), i + 1) && RolesKept(b, SelectState(b, i))
  {
    hide HoldOk, TraceOk, MakeBlocking;
    var p := b.ports[i];
    assert PortStale(b, p) && GoodPort(p);
    var r := RootPortNamed(b);
    assert r == i;
    HoldFrame(b, SelectState(b, i), p, SelectState(b, i).ports[i]);
    SelectingStep(b, SelectState(b, i), i);
  }

  lemma SelectDesignatedKeeps(b: Bridge, i: nat)
    requires Selecting(b, i) && i < |b.ports| && b.ports[i].Enabled()
    requires b.ports[i].portNo != b.rootPort && IsDesignated(b, b.ports[i])
    ensures Selecting(SelectState(b, i), i + 1) && RolesKept(b, SelectState(b, i))
  {
    hide HoldOk, TraceOk, MakeBlocking;
    var p := b.ports[i];
    assert PortStale(b, p);
    HoldFrame(b, SelectState(b, i), p, SelectState(b, i).ports[i]);
    SelectingStep(b, SelectState(b, i), i);
  }

  /** The hold timer's honesty depends on the trace and the clock only. */
  lemma HoldFrame(b: Bridge, c: Bridge, p: Port, q: Port)
    requires HoldOk(b, p) && c.trace == b.trace && c.now == b.now && c.hz == b.hz
    requires q.portNo == p.portNo && q.holdTimer == p.holdTimer
    ensures HoldOk(c, q)
  {
  }

  lemma SelectStateKeeps(b: Bridge, i: nat)
    requires Selecting(b, i) && i < |b.ports|
    ensures Selecting(SelectState(b, i), i + 1) && RolesKept(b, SelectState(b, i))
  {
    var p := b.ports[i];
    assert PortStale(b, p);
    if !p.Enabled() {
      assert b.ports[i := p] == b.ports;
      SelectingStep(b, b, i);
    } else if p.portNo == b.rootPort {
      SelectRootPortKeeps(b, i);
    } else if IsDesignated(b, p) {
      SelectDesignatedKeeps(b, i);
    } else {
      var c := SetPort(b, i, p.(configPending := false, topologyChangeAck := false));
      StillSelecting(b, c, i);
      BlockKeeps(c, i);
      RolesKeptTransitive(b, c, SelectState(b, i));
    }
  }

  lemma {:induction false} StateSelectionKeeps(b: Bridge, k: nat)
    requires Selecting(b, 0) && k <= |b.ports|
    ensures Selecting(StateSelection(b, k), k) && RolesKept(b, StateSelection(b, k))
    decreases k
  {
    hide SelectState, Selecting, RolesKept;
    if k > 0 {
      var c := StateSelection(b, k - 1);
      StateSelectionKeeps(b, k - 1);
      SelectStateKeeps(c, k - 1);
      RolesKeptTransitive(b, c, SelectState(c, k - 1));
    } else {
      RolesKeptReflexive(b);
    }
  }

  /** State selection completes a reconfiguration. */
  lemma StateSelectionRestores(b: Bridge)
    requires Selecting(b, 0)
    ensures var c := StateSelection(b, |b.ports|);
            Consistent(c) && RolesKept(b, c)
  {
    StateSelectionKeeps(b, |b.ports|);
  }

  // ----- reconfiguration --------------------------------------------------------------

  /** What a reconfiguration may start from: roles may be wrong, the rest is merely stale.
      A port that will count as not designated must have its message-age timer running. */
  ghost predicate Reconfigurable(b: Bridge) {
    && WellFormed(b)
    && TraceOk(b.trace, b.hz)
    && forall i | 0 <= i < |b.ports| :: PortStale(b, b.ports[i])
  }

  lemma RootSelectionOnly(b: Bridge)
    ensures var c := RootSelection(b);
            c == b.(rootPort := c.rootPort, designatedRoot := c.designatedRoot, rootPathCost := c.rootPathCost)
  {
    hide BestPort;
  }

  lemma UpdateKeepsStale(b: Bridge)
    requires Reconfigurable(b)
    ensures Selecting(ConfigurationUpdate(b), 0)
  {
    hide RootSelection, TraceOk, WellFormed, RolesAgree, HoldOk;
    var c := ConfigurationUpdate(b);
    UpdateAgrees(b);
    RootSelectionOnly(b);
    forall i | 0 <= i < |c.ports|
      ensures PortStale(c, c.ports[i])
    {
      assert PortStale(b, b.ports[i]);
      assert c.ports[i] == Redesignate(RootSelection(b), b.ports[i]);
      HoldFrame(b, c, b.ports[i], c.ports[i]);
    }
  }

  lemma ReconfigureKeeps(b: Bridge)
    requires Reconfigurable(b)
    ensures Consistent(Reconfigure(b))
    ensures RolesKept(ConfigurationUpdate(b), Reconfigure(b))
  {
    UpdateKeepsStale(b);
    StateSelectionRestores(ConfigurationUpdate(b));
  }

  // ----- becoming root ----------------------------------------------------------------

  lemma PlainChangeKeeps(b: Bridge, c: Bridge)
    requires Consistent(b) && SameRoles(b, c) && c.ports == b.ports && c.trace == b.trace
    ensures Consistent(c)
  {
    RolesFrame(b, c);
    forall i | 0 <= i < |c.ports|
      ensures PortOk(c, c.ports[i])
    {
      assert PortOk(b, b.ports[i]);
    }
  }

  lemma TcnChangeKeeps(b: Bridge, c: Bridge)
    requires Consistent(b) && OnlyTcn(b, c)
    ensures Consistent(c)
  {
    OnlyTcnKeeps(b, c);
    RolesFrame(b, c);
    forall i | 0 <= i < |c.ports|
      ensures PortOk(c, c.ports[i])
    {
      assert PortOk(b, b.ports[i]);
    }
  }

  lemma DetectionKeeps(b: Bridge)
    requires Consistent(b)
    ensures var c := TopologyChangeDetection(b);
            Consistent(c) && RolesKept(b, c) && c.ports == b.ports
  {
    DetectionOnlyTcn(b);
    TcnChangeKeeps(b, TopologyChangeDetection(b));
  }

  lemma BecomeRootKeeps(b: Bridge)
    requires Consistent(b)
    ensures Inv(BecomeRoot(b)) && SameRoles(b, BecomeRoot(b))
  {
    var a := b.(maxAge := b.bridgeMaxAge, helloTime := b.bridgeHelloTime, forwardDelay := b.bridgeForwardDelay);
    PlainChangeKeeps(b, a);
    var c := TopologyChangeDetection(a);
    DetectionKeeps(a);
    var d := c.(tcnTimer := c.tcnTimer.Clear());
    PlainChangeKeeps(c, d);
    var e := ConfigGeneration(d, |d.ports|);
    GenerationKeeps(d, |d.ports|);
    PlainChangeKeeps(e, BecomeRoot(b));
    SameRolesTransitive(b, c, d);
    SameRolesTransitive(b, d, e);
  }

  /** The tail shared by all reconfigurations that may promote the bridge to root. */
  lemma ReconfigureAndPromote(b: Bridge, wasRoot: bool)
    requires Reconfigurable(b)
    requires b.tcnTimer.running ==> !wasRoot
    ensures Inv(BecomeRootIfNew(Reconfigure(b), wasRoot))
    ensures SameRoles(ConfigurationUpdate(b), BecomeRootIfNew(Reconfigure(b), wasRoot))
  {
    ReconfigureKeeps(b);
    var c := Reconfigure(b);
    if IsRoot(c) && !wasRoot {
      BecomeRootKeeps(c);
      SameRolesTransitive(ConfigurationUpdate(b), c, BecomeRoot(c));
    }
  }
}
