/**
 Port roles: what configuration update computes, why it computes it only once, and why it
 does not depend on the order in which the ports are listed.
 */
module BridgeRoles {
  import opened BridgeTypes
  import opened BridgeSpec

  /** Port numbers are distinct and in 1..255, port ids are built from them, costs are positive. */
  ghost predicate WellFormed(b: Bridge) {
    && (forall i, j | 0 <= i < j < |b.ports| :: b.ports[i].portNo != b.ports[j].portNo)
    && (forall i | 0 <= i < |b.ports| :: GoodPort(b.ports[i]))
  }

  predicate GoodPort(p: Port) {
    && 1 <= p.portNo <= 255
    && 0 <= p.priority <= 255
    && p.portId == PortId(p.priority, p.portNo)
    && p.pathCost >= 1
  }

  lemma DistinctPortIds(b: Bridge, i: nat, j: nat)
    requires WellFormed(b) && i < |b.ports| && j < |b.ports| && i != j
    ensures b.ports[i].portId != b.ports[j].portId
  {
    assert GoodPort(b.ports[i]) && GoodPort(b.ports[j]);
  }

  /** Port r holds the root role: it is eligible, nobody beats it, and the bridge copied its record. */
  ghost predicate RootAt(b: Bridge, r: nat) {
    && r < |b.ports|
    && b.ports[r].portNo == b.rootPort
    && Eligible(b, b.ports[r])
    && b.designatedRoot == b.ports[r].designated.root
    && b.rootPathCost == b.ports[r].designated.cost + b.ports[r].pathCost
    && forall j | 0 <= j < |b.ports| && Eligible(b, b.ports[j]) :: !Better(b.ports[j], b.ports[r])
  }

  ghost predicate RootAgrees(b: Bridge) {
    if b.rootPort == 0 then
      && b.designatedRoot == b.bridgeId
      && b.rootPathCost == 0
      && forall i | 0 <= i < |b.ports| :: !Eligible(b, b.ports[i])
    else
      exists r: nat :: RootAt(b, r)
  }

  /** An enabled port either announces the bridge's own vector or has heard a better one for the same root. */
  predicate RoleAgrees(b: Bridge, p: Port) {
    p.Enabled() ==>
      if IsDesignated(b, p) then p.designated == Offer(b, p)
      else p.designated.root == b.designatedRoot && Less(p.designated, Offer(b, p))
  }

  /** All the cached role information of a bridge is consistent. */
  ghost predicate RolesAgree(b: Bridge) {
    && RootAgrees(b)
    && forall i | 0 <= i < |b.ports| :: RoleAgrees(b, b.ports[i])
  }

  // ----- root selection ---------------------------------------------------------------

  /** Two eligible ports that nobody beats are the same port. */
  lemma BestIsUnique(b: Bridge, i: nat, j: nat)
    requires WellFormed(b) && i < |b.ports| && j < |b.ports|
    requires !Better(b.ports[i], b.ports[j]) && !Better(b.ports[j], b.ports[i])
    ensures i == j
  {
    if i != j {
      DistinctPortIds(b, i, j);
    }
  }

  lemma RootSelectionAgrees(b: Bridge)
    requires WellFormed(b)
    ensures RootAgrees(RootSelection(b)) && WellFormed(RootSelection(b))
    ensures RootSelection(b).rootPort == 0 <==> forall i | 0 <= i < |b.ports| :: !Eligible(b, b.ports[i])
  {
    var r := BestPort(b, |b.ports|);
    var c := RootSelection(b);
    assert forall p :: Eligible(c, p) <==> Eligible(b, p);
    if r >= 0 {
      assert GoodPort(b.ports[r]);
      assert RootAt(c, r);
    }
  }

  /** Root selection picks the one port that beats every other eligible port in the order
      (root, cost through the port, bridge, port, own id). */
  lemma RootSelectionIsMinimum(b: Bridge, r: nat)
    requires WellFormed(b) && r < |b.ports|
    ensures RootSelection(b).rootPort == b.ports[r].portNo
            <==> (Eligible(b, b.ports[r])
                  && forall j | 0 <= j < |b.ports| && j != r && Eligible(b, b.ports[j]) ::
                       Better(b.ports[r], b.ports[j]))
  {
    var best := BestPort(b, |b.ports|);
    assert GoodPort(b.ports[r]);
    if best >= 0 {
      forall j | 0 <= j < |b.ports| && j != best && Eligible(b, b.ports[j])
        ensures Better(b.ports[best], b.ports[j])
      {
        if !Better(b.ports[best], b.ports[j]) {
          BestIsUnique(b, best, j);
        }
      }
    }
  }

  /** The result is the same for every ordering of the port list. */
  lemma RootSelectionIgnoresOrder(b: Bridge, ports: seq<Port>)
    requires WellFormed(b) && multiset(ports) == multiset(b.ports)
    ensures var c := b.(ports := ports);
            && RootSelection(c).rootPort == RootSelection(b).rootPort
            && RootSelection(c).designatedRoot == RootSelection(b).designatedRoot
            && RootSelection(c).rootPathCost == RootSelection(b).rootPathCost
  {
    var c := b.(ports := ports);
    var r := BestPort(b, |b.ports|);
    var s := BestPort(c, |ports|);
    forall p | p in ports
      ensures p in b.ports
    {
      assert p in multiset(ports);
    }
    forall p | p in b.ports
      ensures p in ports
    {
      assert p in multiset(b.ports);
    }
    assert forall p :: Eligible(c, p) <==> Eligible(b, p);
    if r >= 0 {
      assert b.ports[r] in ports;
      assert s >= 0;
    }
    if s >= 0 {
      assert ports[s] in b.ports;
      assert r >= 0;
      var t :| 0 <= t < |b.ports| && b.ports[t] == ports[s];
      var u :| 0 <= u < |ports| && ports[u] == b.ports[r];
      assert !Better(ports[u], ports[s]);
      assert !Better(b.ports[t], b.ports[r]);
      BestIsUnique(b, t, r);
    }
  }

  // ----- designated port selection ----------------------------------------------------

  /** Root selection has just made the bridge's root no larger than what any other bridge told it. */
  lemma RootIsSmallest(b: Bridge, p: Port)
    requires WellFormed(b) && p in b.ports && p.Enabled() && !IsDesignated(b, p)
    ensures RootSelection(b).designatedRoot <= p.designated.root
  {
    var i :| 0 <= i < |b.ports| && b.ports[i] == p;
    var r := BestPort(b, |b.ports|);
    if r == -1 {
      assert !Eligible(b, b.ports[i]);
    } else if Eligible(b, p) {
      assert !Better(b.ports[i], b.ports[r]);
    }
  }

  /** Taking a port over always strictly improves what is recorded there, although the test
      asks only whether the roots differ. */
  lemma TakeoverImproves(b: Bridge, p: Port)
    requires WellFormed(b) && p in b.ports && p.Enabled() && !IsDesignated(b, p)
    ensures var c := RootSelection(b);
            ShouldBecomeDesignated(c, p) <==> Less(Offer(c, p), p.designated)
  {
    RootIsSmallest(b, p);
  }

  /** The port chosen as root port is left alone by designated port selection exactly when its
      cost is positive, or is zero and its record still beats the bridge's own offer. */
  lemma RootPortKeptIff(b: Bridge, r: nat)
    requires r < |b.ports| && BestPort(b, |b.ports|) == r
    ensures var p := b.ports[r];
            ShouldBecomeDesignated(RootSelection(b), p)
            <==> (p.pathCost < 0
                  || (p.pathCost == 0
                      && (b.bridgeId < p.designated.bridge
                          || (b.bridgeId == p.designated.bridge && p.portId < p.designated.port))))
  {
    assert Eligible(b, b.ports[r]);
  }

  // ----- configuration update ---------------------------------------------------------

  lemma RedesignateAgrees(b: Bridge, i: nat)
    requires WellFormed(b) && i < |b.ports|
    ensures var d := ConfigurationUpdate(b);
            && GoodPort(d.ports[i])
            && d.ports[i].portNo == b.ports[i].portNo
            && RoleAgrees(d, d.ports[i])
            && (Eligible(d, d.ports[i]) ==> d.ports[i] == b.ports[i] && Eligible(b, b.ports[i]))
  {
    var c := RootSelection(b);
    var p := b.ports[i];
    assert GoodPort(p);
    assert ConfigurationUpdate(b).ports[i] == Redesignate(c, p);
    if p.Enabled() && !IsDesignated(b, p) {
      TakeoverImproves(b, p);
    }
  }

  lemma UpdateKeepsForm(b: Bridge)
    requires WellFormed(b)
    ensures WellFormed(ConfigurationUpdate(b))
  {
    forall i | 0 <= i < |b.ports|
      ensures GoodPort(ConfigurationUpdate(b).ports[i])
      ensures ConfigurationUpdate(b).ports[i].portNo == b.ports[i].portNo
    {
      RedesignateAgrees(b, i);
    }
  }

  lemma UpdateAgreesOnRoot(b: Bridge)
    requires WellFormed(b)
    ensures RootAgrees(ConfigurationUpdate(b))
  {
    var c := RootSelection(b);
    var d := ConfigurationUpdate(b);
    var r := BestPort(b, |b.ports|);
    forall i | 0 <= i < |b.ports| && Eligible(d, d.ports[i])
      ensures Eligible(b, b.ports[i]) && d.ports[i] == b.ports[i]
    {
      RedesignateAgrees(b, i);
    }
    if r >= 0 {
      var p := b.ports[r];
      assert GoodPort(p) && Eligible(b, p);
      RootPortKeptIff(b, r);
      assert d.ports[r] == p;
      assert RootAt(d, r);
    }
  }

  /** Configuration update makes every cached role agree, from any well-formed state. */
  lemma UpdateAgrees(b: Bridge)
    requires WellFormed(b)
    ensures WellFormed(ConfigurationUpdate(b)) && RolesAgree(ConfigurationUpdate(b))
  {
    UpdateKeepsForm(b);
    UpdateAgreesOnRoot(b);
    forall i | 0 <= i < |b.ports|
      ensures RoleAgrees(ConfigurationUpdate(b), ConfigurationUpdate(b).ports[i])
    {
      RedesignateAgrees(b, i);
    }
  }

  lemma AgreedRootIsSelected(b: Bridge)
    requires WellFormed(b) && RolesAgree(b)
    ensures RootSelection(b) == b
  {
    var s := BestPort(b, |b.ports|);
    if b.rootPort == 0 {
      assert s == -1;
    } else {
      var r: nat :| RootAt(b, r);
      assert s >= 0;
      BestIsUnique(b, r, s);
    }
  }

  /** Consistent roles are exactly the fixed points of configuration update. */
  lemma AgreementIsFixpoint(b: Bridge)
    requires WellFormed(b)
    ensures RolesAgree(b) <==> ConfigurationUpdate(b) == b
  {
    if RolesAgree(b) {
      AgreedRootIsSelected(b);
      forall i | 0 <= i < |b.ports|
        ensures Redesignate(b, b.ports[i]) == b.ports[i]
      {
        assert RoleAgrees(b, b.ports[i]);
      }
      assert DesignatedPortSelection(b).ports == b.ports;
    } else {
      UpdateAgrees(b);
    }
  }

  lemma UpdateIsIdempotent(b: Bridge)
    requires WellFormed(b)
    ensures ConfigurationUpdate(ConfigurationUpdate(b)) == ConfigurationUpdate(b)
  {
    UpdateAgrees(b);
    AgreementIsFixpoint(ConfigurationUpdate(b));
  }

  /** After an update every enabled port carries the bridge's root and a record no worse than the
      bridge's own offer there, and the port named as root port has not become designated. */
  lemma UpdateResult(b: Bridge, i: nat)
    requires WellFormed(b) && i < |b.ports| && b.ports[i].Enabled()
    ensures var c := ConfigurationUpdate(b);
            && c.ports[i].designated.root == c.designatedRoot
            && (c.ports[i].designated == Offer(c, c.ports[i]) || Less(c.ports[i].designated, Offer(c, c.ports[i])))
            && (c.ports[i].portNo == c.rootPort ==> !IsDesignated(c, c.ports[i]) && c.ports[i] == b.ports[i])
  {
    var c := ConfigurationUpdate(b);
    UpdateAgrees(b);
    assert RoleAgrees(c, c.ports[i]);
    if c.ports[i].portNo == c.rootPort {
      assert GoodPort(c.ports[i]);
      var r: nat :| RootAt(c, r);
      assert r == i;
    }
  }

  /** A bridge is root exactly when it names no root port; a named root port is listed, enabled
      and not designated. */
  lemma RootPortNamed(b: Bridge) returns (r: int)
    requires WellFormed(b) && RolesAgree(b)
    ensures IsRoot(b) <==> b.rootPort == 0
    ensures r == FindPort(b.ports, b.rootPort)
    ensures b.rootPort == 0 ==> r == -1
    ensures b.rootPort != 0 ==> r >= 0 && RootAt(b, r) && b.ports[r].Enabled() && !IsDesignated(b, b.ports[r])
  {
    r := FindPort(b.ports, b.rootPort);
    if b.rootPort == 0 {
      assert forall i | 0 <= i < |b.ports| :: GoodPort(b.ports[i]);
    } else {
      var s: nat :| RootAt(b, s);
      assert r == s;
    }
  }

  // ----- frames -----------------------------------------------------------------------

  predicate SameRole(p: Port, q: Port) {
    && p.portNo == q.portNo
    && p.priority == q.priority
    && p.portId == q.portId
    && p.pathCost == q.pathCost
    && p.designated == q.designated
    && p.Enabled() == q.Enabled()
  }

  /** b and c carry the same role information. */
  ghost predicate SameCore(b: Bridge, c: Bridge) {
    && c.bridgeId == b.bridgeId
    && c.designatedRoot == b.designatedRoot
    && c.rootPathCost == b.rootPathCost
    && c.rootPort == b.rootPort
    && |c.ports| == |b.ports|
    && forall i | 0 <= i < |b.ports| :: SameRole(b.ports[i], c.ports[i])
  }

  /** The same roles at the same moment under the same settings. */
  ghost predicate SameRoles(b: Bridge, c: Bridge) {
    SameCore(b, c) && c.hz == b.hz && c.stpEnabled == b.stpEnabled && c.now == b.now
  }

  lemma SameRolesTransitive(a: Bridge, b: Bridge, c: Bridge)
    requires SameRoles(a, b) && SameRoles(b, c)
    ensures SameRoles(a, c)
  {
    forall i | 0 <= i < |a.ports|
      ensures SameRole(a.ports[i], c.ports[i])
    {
      assert SameRole(a.ports[i], b.ports[i]) && SameRole(b.ports[i], c.ports[i]);
    }
  }

  lemma RolesFrame(b: Bridge, c: Bridge)
    requires SameCore(b, c) && WellFormed(b)
    ensures WellFormed(c)
    ensures RolesAgree(b) ==> RolesAgree(c)
  {
    forall i | 0 <= i < |b.ports|
      ensures c.ports[i].portNo == b.ports[i].portNo
      ensures GoodPort(c.ports[i])
      ensures Eligible(c, c.ports[i]) == Eligible(b, b.ports[i])
      ensures RoleAgrees(c, c.ports[i]) == RoleAgrees(b, b.ports[i])
    {
      assert SameRole(b.ports[i], c.ports[i]) && GoodPort(b.ports[i]);
    }
    if RolesAgree(b) {
      if b.rootPort != 0 {
        var r: nat :| RootAt(b, r);
        assert SameRole(b.ports[r], c.ports[r]);
        forall j | 0 <= j < |c.ports| && Eligible(c, c.ports[j])
          ensures !Better(c.ports[j], c.ports[r])
        {
          assert SameRole(b.ports[j], c.ports[j]);
          assert !Better(b.ports[j], b.ports[r]);
        }
        assert RootAt(c, r);
      }
    }
  }
}
