/**
 Settled networks exist: two bridges joined by two LANs, one of them the root, the other with a
 root port and a blocked port.
 */
module SettledExample {
  import opened BridgeTypes
  import opened BridgeSpec
  import opened BridgeRoles
  import opened BridgeInvariant
  import opened Network

  function APort(no: int, state: PortState, v: Vector, listening: bool): Port {
    var off := Timer(false, 0);
    Port(no, 128, PortId(128, no), 10, state, v, false, false, Timer(listening, 0), off, off)
  }

  function ABridge(id: int, cost: int, rootPort: int, ports: seq<Port>): Bridge {
    var off := Timer(false, 0);
    Bridge(100, id, 1, cost, rootPort, 2000, 200, 1500, 2000, 200, 1500, true, false, false, off, off, off, ports, 0, [])
  }

  /** What bridge 1 announces on its port with this number. */
  function FromRoot(no: int): Vector {
    Vector(1, 0, 1, PortId(128, no))
  }

  function Upper(): Bridge {
    ABridge(1, 0, 0, [APort(1, Forwarding, FromRoot(1), false), APort(2, Forwarding, FromRoot(2), false)])
  }

  function Lower(): Bridge {
    ABridge(2, 10, 1, [APort(1, Forwarding, FromRoot(1), true), APort(2, Blocking, FromRoot(2), true)])
  }

  function TwoLans(): Network {
    Network([Upper(), Lower()], [[7, 8], [7, 8]])
  }

  lemma BridgesAgree()
    ensures WellFormed(Upper()) && RolesAgree(Upper()) && WellFormed(Lower()) && RolesAgree(Lower())
  {
    assert RootAt(Lower(), 0);
  }

  /** Both bridges are in order between events, timers included. */
  lemma BridgesInOrder()
    ensures AllInv(TwoLans())
  {
    BridgesAgree();
    hide WellFormed, RolesAgree;
    assert forall i | 0 <= i < 2 :: PortOk(Upper(), Upper().ports[i]);
    assert forall i | 0 <= i < 2 :: PortOk(Lower(), Lower().ports[i]);
    assert Inv(Upper()) && Inv(Lower());
  }

  /** Each of the four ports, at a glance. */
  lemma Ports(a: At)
    requires Live(TwoLans(), a)
    ensures a.x < 2 && a.i < 2 && LanAt(TwoLans(), a) == 7 + a.i
    ensures PortAt(TwoLans(), a).designated == FromRoot(a.i + 1)
    ensures Announces(TwoLans(), a) <==> a.x == 0
    ensures a.x == 0 ==> Announced(TwoLans(), a) == FromRoot(a.i + 1)
  {
  }

  lemma Joined()
    ensures WellJoined(TwoLans())
    ensures forall x | 0 <= x < |TwoLans().bridges| :: ConfigurationUpdate(TwoLans().bridges[x]) == TwoLans().bridges[x]
  {
    BridgesAgree();
    hide ConfigurationUpdate, WellFormed, RolesAgree;
    AgreementIsFixpoint(Upper());
    AgreementIsFixpoint(Lower());
  }

  lemma Alive(x: nat, i: nat)
    requires x < 2 && i < 2
    ensures Live(TwoLans(), At(x, i))
  {
  }

  /** The network is settled, its LANs form a loop, and bridge 2 blocks it. */
  lemma TwoLansSettle()
    ensures Settled(TwoLans()) && AllInv(TwoLans())
    ensures SameLan(TwoLans(), At(0, 0), At(1, 0)) && SameLan(TwoLans(), At(0, 1), At(1, 1))
    ensures !Announces(TwoLans(), At(1, 1)) && TwoLans().bridges[1].rootPort != 2
  {
    hide ConfigurationUpdate, WellFormed, WellJoined, Live, LanAt, PortAt, Announces, Announced, Supersedes, Inv;
    var n := TwoLans();
    Joined();
    BridgesInOrder();
    Alive(0, 0);
    Alive(0, 1);
    Alive(1, 0);
    Alive(1, 1);
    Ports(At(0, 0));
    Ports(At(0, 1));
    Ports(At(1, 0));
    Ports(At(1, 1));
    forall a | Live(n, a) && !Announces(n, a)
      ensures exists c :: HeardFrom(n, a, c)
    {
      Ports(a);
      assert a.i == 0 || a.i == 1;
      assert HeardFrom(n, a, At(0, a.i));
    }
    forall a, c | SameLan(n, a, c) && Announces(n, c)
      ensures Settles(n, a, c)
    {
      Ports(a);
      Ports(c);
    }
  }
}
