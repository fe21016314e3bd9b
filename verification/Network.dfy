/**
 Bridges joined by LANs.  In every settled state of the network the cached roles describe a
 shortest-path tree of each connected part, and no frame can loop.
 */
module Network {
  import opened BridgeTypes
  import opened BridgeSpec
  import opened BridgeRoles
  import opened BridgeInvariant
  import opened BridgeRuns

  /** lan[x][i] is the LAN that port i of bridge x is plugged into. */
  datatype Network = Network(bridges: seq<Bridge>, lan: seq<seq<int>>)

  /** A port of the network: bridge and position. */
  datatype At = At(x: nat, i: nat)

  ghost predicate WellJoined(n: Network) {
    && |n.lan| == |n.bridges|
    && (forall x | 0 <= x < |n.bridges| :: |n.lan[x]| == |n.bridges[x].ports| && WellFormed(n.bridges[x]))
    && (forall x, y | 0 <= x < y < |n.bridges| :: n.bridges[x].bridgeId != n.bridges[y].bridgeId)
  }

  /** An enabled port of the network. */
  predicate Live(n: Network, a: At) {
    && |n.lan| == |n.bridges|
    && a.x < |n.bridges|
    && |n.lan[a.x]| == |n.bridges[a.x].ports|
    && a.i < |n.bridges[a.x].ports|
    && n.bridges[a.x].ports[a.i].Enabled()
  }

  function PortAt(n: Network, a: At): Port
    requires Live(n, a)
  {
    n.bridges[a.x].ports[a.i]
  }

  function LanAt(n: Network, a: At): int
    requires Live(n, a)
  {
    n.lan[a.x][a.i]
  }

  predicate SameLan(n: Network, a: At, c: At) {
    Live(n, a) && Live(n, c) && LanAt(n, a) == LanAt(n, c)
  }

  predicate Announces(n: Network, a: At) {
    Live(n, a) && IsDesignated(n.bridges[a.x], PortAt(n, a))
  }

  /** The vector port a announces. */
  function Announced(n: Network, a: At): Vector
    requires Live(n, a)
  {
    Offer(n.bridges[a.x], PortAt(n, a))
  }

  ghost predicate HeardFrom(n: Network, a: At, c: At) {
    SameLan(n, a, c) && Announces(n, c) && PortAt(n, a).designated == Announced(n, c)
  }

  /** What c announces would not change what a holds. */
  predicate Settles(n: Network, a: At, c: At)
    requires Live(n, a) && Live(n, c)
  {
    Supersedes(n.bridges[a.x], PortAt(n, a), Announced(n, c)) ==> PortAt(n, a).designated == Announced(n, c)
  }

  /** Each bridge is at a fixed point of configuration update, each port that is not designated
      holds what a designated port of its LAN announces now, and no announcement would change
      what any other port of its LAN holds. */
  ghost predicate Settled(n: Network) {
    && WellJoined(n)
    && (forall x | 0 <= x < |n.bridges| :: ConfigurationUpdate(n.bridges[x]) == n.bridges[x])
    && (forall a | Live(n, a) && !Announces(n, a) :: exists c :: HeardFrom(n, a, c))
    && (forall a, c | SameLan(n, a, c) && a != c && Announces(n, c) :: Settles(n, a, c))
  }

  function Cost(n: Network, x: nat): int
    requires x < |n.bridges|
  {
    n.bridges[x].rootPathCost
  }

  function Root(n: Network, x: nat): int
    requires x < |n.bridges|
  {
    n.bridges[x].designatedRoot
  }

  // ----- one designated port per LAN ------------------------------------------------------

  lemma SettledRoles(n: Network, x: nat)
    requires Settled(n) && x < |n.bridges|
    ensures WellFormed(n.bridges[x]) && RolesAgree(n.bridges[x])
  {
    AgreementIsFixpoint(n.bridges[x]);
  }

  lemma LiveRole(n: Network, a: At)
    requires Settled(n) && Live(n, a)
    ensures RoleAgrees(n.bridges[a.x], PortAt(n, a)) && GoodPort(PortAt(n, a))
  {
    SettledRoles(n, a.x);
  }

  lemma SameBridge(n: Network, x: nat, y: nat)
    requires WellJoined(n) && x < |n.bridges| && y < |n.bridges|
    requires n.bridges[x].bridgeId == n.bridges[y].bridgeId
    ensures x == y
  {
  }

  lemma SamePort(n: Network, a: At, c: At)
    requires WellJoined(n) && Live(n, a) && Live(n, c) && a.x == c.x
    requires PortAt(n, a).portId == PortAt(n, c).portId
    ensures a == c
  {
    if a.i != c.i {
      DistinctPortIds(n.bridges[a.x], a.i, c.i);
    }
  }

  /** Two designated ports of one LAN are the same port. */
  lemma OneDesignatedPort(n: Network, a: At, c: At)
    requires Settled(n) && SameLan(n, a, c) && Announces(n, a) && Announces(n, c)
    ensures a == c
  {
    if a != c {
      LiveRole(n, a);
      LiveRole(n, c);
      assert SameLan(n, c, a);
      assert Settles(n, a, c) && Settles(n, c, a);
      var v, w := Announced(n, a), Announced(n, c);
      if v.bridge == w.bridge {
        SameBridge(n, a.x, c.x);
      }
      if v.bridge == w.bridge && v.port == w.port {
        SamePort(n, a, c);
      }
    }
  }

  /** Every LAN with an enabled port has a designated port, and every port of the LAN holds its
      vector and agrees with its bridge about the root. */
  lemma DesignatedPortOf(n: Network, a: At) returns (d: At)
    requires Settled(n) && Live(n, a)
    ensures SameLan(n, a, d) && Announces(n, d)
    ensures PortAt(n, a).designated == Announced(n, d) == PortAt(n, d).designated
    ensures Root(n, a.x) == Root(n, d.x)
    ensures Cost(n, d.x) <= Cost(n, a.x)
  {
    LiveRole(n, a);
    if Announces(n, a) {
      d := a;
    } else {
      d :| HeardFrom(n, a, d);
    }
    LiveRole(n, d);
  }

  lemma LanAgrees(n: Network, a: At, c: At)
    requires Settled(n) && SameLan(n, a, c)
    ensures PortAt(n, a).designated == PortAt(n, c).designated
    ensures Root(n, a.x) == Root(n, c.x)
  {
    var d := DesignatedPortOf(n, a);
    var e := DesignatedPortOf(n, c);
    OneDesignatedPort(n, d, e);
  }

  // ----- routes -----------------------------------------------------------------------------

  /** Leaving a bridge through one port and entering the next through another port of that LAN. */
  datatype Hop = Hop(out: At, into: At)

  /** hops leads from bridge x to bridge z. */
  predicate Route(n: Network, x: nat, hops: seq<Hop>, z: nat)
    decreases |hops|
  {
    && x < |n.bridges|
    && if hops == [] then x == z
       else
         && hops[0].out.x == x
         && SameLan(n, hops[0].out, hops[0].into)
         && Route(n, hops[0].into.x, hops[1..], z)
  }

  /** What a message pays on its way along hops from z to x: the cost of each port it is heard on. */
  function Price(n: Network, x: nat, hops: seq<Hop>, z: nat): int
    requires Route(n, x, hops, z)
    decreases |hops|
  {
    if hops == [] then 0
    else PortAt(n, hops[0].out).pathCost + Price(n, hops[0].into.x, hops[1..], z)
  }

  /** All bridges of a connected part agree about the root. */
  lemma {:induction false} ConnectedAgree(n: Network, x: nat, hops: seq<Hop>, z: nat)
    requires Settled(n) && Route(n, x, hops, z)
    ensures z < |n.bridges| && Root(n, x) == Root(n, z)
    decreases |hops|
  {
    if hops != [] {
      LanAgrees(n, hops[0].out, hops[0].into);
      ConnectedAgree(n, hops[0].into.x, hops[1..], z);
    }
  }

  /** One hop cannot save more than the cost of the port it leaves by. */
  lemma HopCost(n: Network, a: At, c: At)
    requires Settled(n) && SameLan(n, a, c) && !IsRoot(n.bridges[a.x])
    ensures Cost(n, a.x) <= PortAt(n, a).pathCost + Cost(n, c.x)
  {
    var b, p := n.bridges[a.x], PortAt(n, a);
    var d := DesignatedPortOf(n, c);
    LanAgrees(n, a, c);
    LiveRole(n, a);
    SettledRoles(n, a.x);
    var r := RootPortNamed(b);
    if !IsDesignated(b, p) {
      assert p in b.ports;
      assert Eligible(b, p);
      assert !Better(p, b.ports[r]);
    }
  }

  /** No route to the root is cheaper than the root path cost. */
  lemma {:induction false} NoCheaperRoute(n: Network, x: nat, hops: seq<Hop>, z: nat)
    requires Settled(n) && Route(n, x, hops, z) && z < |n.bridges| && n.bridges[z].rootPort == 0
    ensures Cost(n, x) <= Price(n, x, hops, z)
    decreases |hops|
  {
    SettledRoles(n, x);
    var r := RootPortNamed(n.bridges[x]);
    if hops != [] {
      var a, c := hops[0].out, hops[0].into;
      NoCheaperRoute(n, c.x, hops[1..], z);
      if IsRoot(n.bridges[x]) {
        RouteIsPositive(n, x, hops, z);
      } else {
        HopCost(n, a, c);
      }
    }
  }

  lemma {:induction false} RouteIsPositive(n: Network, x: nat, hops: seq<Hop>, z: nat)
    requires WellJoined(n) && Route(n, x, hops, z)
    ensures Price(n, x, hops, z) >= |hops|
    decreases |hops|
  {
    if hops != [] {
      assert GoodPort(PortAt(n, hops[0].out));
      RouteIsPositive(n, hops[0].into.x, hops[1..], z);
    }
  }

  // ----- following root ports ---------------------------------------------------------------

  /** The root port of x and the designated port it listens to: the next step towards the root. */
  ghost predicate StepUp(n: Network, a: At, d: At) {
    && SameLan(n, a, d)
    && PortAt(n, a).portNo == n.bridges[a.x].rootPort
    && Announces(n, d)
    && Root(n, d.x) == Root(n, a.x)
    && Cost(n, a.x) == Cost(n, d.x) + PortAt(n, a).pathCost
    && Cost(n, d.x) < Cost(n, a.x)
  }

  /** Following the root port strictly lowers the cost. */
  lemma FollowRootPort(n: Network, x: nat) returns (a: At, d: At)
    requires Settled(n) && x < |n.bridges| && n.bridges[x].rootPort != 0
    ensures a.x == x && StepUp(n, a, d)
  {
    SettledRoles(n, x);
    var r := RootPortNamed(n.bridges[x]);
    a := At(x, r);
    d := DesignatedPortOf(n, a);
    LiveRole(n, a);
  }

  ghost function Cheaper(n: Network, x: nat): set<nat>
    requires x < |n.bridges|
  {
    set y: nat | y < |n.bridges| && Cost(n, y) < Cost(n, x)
  }

  lemma CheaperShrinks(n: Network, x: nat, y: nat)
    requires x < |n.bridges| && y < |n.bridges| && Cost(n, y) < Cost(n, x)
    ensures Cheaper(n, y) < Cheaper(n, x)
  {
    assert y in Cheaper(n, x) && y !in Cheaper(n, y);
  }

  /** hops leaves every bridge by its root port and enters the next by its designated port. */
  ghost predicate Upwards(n: Network, hops: seq<Hop>) {
    forall k | 0 <= k < |hops| :: StepUp(n, hops[k].out, hops[k].into)
  }

  /** hops is a climb by root ports from x to a bridge that calls itself root. */
  ghost predicate Climb(n: Network, x: nat, hops: seq<Hop>, z: nat) {
    && Route(n, x, hops, z)
    && Upwards(n, hops)
    && z < |n.bridges|
    && n.bridges[z].rootPort == 0
    && n.bridges[z].bridgeId == Root(n, z) == Root(n, x)
    && Price(n, x, hops, z) == Cost(n, x)
  }

  lemma ClimbExtends(n: Network, a: At, d: At, rest: seq<Hop>, z: nat)
    requires StepUp(n, a, d) && Climb(n, d.x, rest, z)
    ensures Climb(n, a.x, [Hop(a, d)] + rest, z)
  {
    var hops := [Hop(a, d)] + rest;
    assert hops[1..] == rest;
  }

  lemma ClimbEnds(n: Network, x: nat)
    requires Settled(n) && x < |n.bridges| && n.bridges[x].rootPort == 0
    ensures Climb(n, x, [], x)
  {
    SettledRoles(n, x);
    var r := RootPortNamed(n.bridges[x]);
  }

  /** Following root ports ends at the root bridge, and pays exactly the root path cost. */
  lemma {:induction false} RootRoute(n: Network, x: nat) returns (hops: seq<Hop>, z: nat)
    requires Settled(n) && x < |n.bridges|
    ensures Climb(n, x, hops, z)
    decreases Cheaper(n, x)
  {
    if n.bridges[x].rootPort == 0 {
      hops, z := [], x;
      ClimbEnds(n, x);
    } else {
      var a, d := FollowRootPort(n, x);
      CheaperShrinks(n, x, d.x);
      var rest;
      rest, z := RootRoute(n, d.x);
      hops := [Hop(a, d)] + rest;
      ClimbExtends(n, a, d, rest, z);
    }
  }

  /** Whatever a route from x reaches names the same root, which is no larger than its own id;
      only the bridge with that id calls itself root. */
  lemma ConnectedRoot(n: Network, x: nat, hops: seq<Hop>, y: nat, z: nat)
    requires Settled(n) && Route(n, x, hops, y)
    requires z < |n.bridges| && n.bridges[z].bridgeId == Root(n, x) && n.bridges[z].rootPort == 0
    ensures y < |n.bridges|
    ensures Root(n, y) == Root(n, x) <= n.bridges[y].bridgeId
    ensures n.bridges[y].rootPort == 0 <==> y == z
  {
    ConnectedAgree(n, x, hops, y);
    SettledRoles(n, y);
    var r := RootPortNamed(n.bridges[y]);
    if n.bridges[y].rootPort == 0 {
      SameBridge(n, y, z);
    }
  }

  /** No route from x to z is cheaper than the root path cost of x. */
  ghost predicate CheapestIsCost(n: Network, x: nat, z: nat) {
    x < |n.bridges| && forall hops | Route(n, x, hops, z) :: Cost(n, x) <= Price(n, x, hops, z)
  }

  /** Bridge z has the smallest id of all bridges x can reach, they all name it as root, and it
      alone calls itself root. */
  ghost predicate RootIsSmallestId(n: Network, x: nat, z: nat) {
    forall hops, y: nat | Route(n, x, hops, y) ::
      && y < |n.bridges| && z < |n.bridges|
      && Root(n, y) == n.bridges[z].bridgeId <= n.bridges[y].bridgeId
      && (n.bridges[y].rootPort == 0 <==> y == z)
  }

  lemma ClimbIsCheapest(n: Network, x: nat, best: seq<Hop>, z: nat)
    requires Settled(n) && x < |n.bridges| && Climb(n, x, best, z)
    ensures CheapestIsCost(n, x, z)
  {
    forall hops | Route(n, x, hops, z)
      ensures Cost(n, x) <= Price(n, x, hops, z)
    {
      NoCheaperRoute(n, x, hops, z);
    }
  }

  lemma ClimbFindsSmallestId(n: Network, x: nat, best: seq<Hop>, z: nat)
    requires Settled(n) && x < |n.bridges| && Climb(n, x, best, z)
    ensures RootIsSmallestId(n, x, z)
  {
    forall hops, y: nat | Route(n, x, hops, y)
      ensures y < |n.bridges| && Root(n, y) == n.bridges[z].bridgeId <= n.bridges[y].bridgeId
      ensures n.bridges[y].rootPort == 0 <==> y == z
    {
      ConnectedRoot(n, x, hops, y, z);
    }
  }

  /** In a settled network, every bridge climbs by its root ports to the bridge with the smallest id
      it can reach; everyone it can reach names that root; and its root path cost is the price of
      the climb and of no cheaper route. */
  lemma SettledIsShortestPathTree(n: Network, x: nat) returns (best: seq<Hop>, z: nat)
    requires Settled(n) && x < |n.bridges|
    ensures Climb(n, x, best, z) && CheapestIsCost(n, x, z) && RootIsSmallestId(n, x, z)
  {
    best, z := RootRoute(n, x);
    ClimbIsCheapest(n, x, best, z);
    ClimbFindsSmallestId(n, x, best, z);
  }

  // ----- no loops ---------------------------------------------------------------------------

  /** A port frames may pass: root port or designated. */
  predicate Active(n: Network, a: At) {
    Live(n, a) && (PortAt(n, a).portNo == n.bridges[a.x].rootPort || Announces(n, a))
  }

  /** A frame crosses a bridge from one port to another. */
  datatype Crossing = Crossing(inp: At, out: At)

  function Next(k: nat, size: nat): nat {
    if k + 1 == size then 0 else k + 1
  }

  /** A closed walk that never turns back: each crossing leaves by another port than it came, onto a
      LAN from which the next crossing enters by another port of that LAN. */
  ghost predicate Loop(n: Network, cs: seq<Crossing>) {
    && cs != []
    && (forall k | 0 <= k < |cs| ::
          Live(n, cs[k].inp) && Live(n, cs[k].out) && cs[k].inp.x == cs[k].out.x && cs[k].inp != cs[k].out)
    && (forall k | 0 <= k < |cs| ::
          SameLan(n, cs[k].out, cs[Next(k, |cs|)].inp) && cs[k].out != cs[Next(k, |cs|)].inp)
  }

  /** One of two active ports of a bridge is designated. */
  lemma OneLeadsDown(n: Network, a: At, c: At)
    requires Settled(n) && Active(n, a) && Active(n, c) && a.x == c.x && a != c
    ensures Announces(n, a) || Announces(n, c)
  {
    SettledRoles(n, a.x);
  }

  /** Across a LAN from a designated port, any other active port belongs to a costlier bridge. */
  lemma DownIsCostlier(n: Network, a: At, c: At)
    requires Settled(n) && SameLan(n, a, c) && a != c && Announces(n, a) && Active(n, c)
    ensures Cost(n, c.x) > Cost(n, a.x)
  {
    hide Settles, WellFormed;
    if Announces(n, c) {
      OneDesignatedPort(n, a, c);
    } else {
      LanAgrees(n, a, c);
      LiveRole(n, a);
      LiveRole(n, c);
      SettledRoles(n, c.x);
      var r := RootPortNamed(n.bridges[c.x]);
      assert r == c.i;
    }
  }

  lemma {:induction false} Costliest(n: Network, cs: seq<Crossing>) returns (k: nat)
    requires cs != [] && forall j | 0 <= j < |cs| :: cs[j].inp.x < |n.bridges|
    ensures k < |cs| && forall j | 0 <= j < |cs| :: Cost(n, cs[j].inp.x) <= Cost(n, cs[k].inp.x)
    decreases |cs|
  {
    var last := |cs| - 1;
    if last == 0 {
      k := 0;
    } else {
      k := Costliest(n, cs[..last]);
      assert forall j | 0 <= j < last :: cs[..last][j] == cs[j];
      if Cost(n, cs[k].inp.x) < Cost(n, cs[last].inp.x) {
        k := last;
      }
    }
  }

  /** Round any loop of active ports there is always a costlier bridge. */
  lemma AlwaysCostlier(n: Network, cs: seq<Crossing>, k: nat) returns (j: nat)
    requires Settled(n) && Loop(n, cs) && k < |cs|
    requires forall i | 0 <= i < |cs| :: Active(n, cs[i].inp) && Active(n, cs[i].out)
    ensures j < |cs| && Cost(n, cs[j].inp.x) > Cost(n, cs[k].inp.x)
  {
    var c := cs[k];
    OneLeadsDown(n, c.inp, c.out);
    if Announces(n, c.out) {
      j := Next(k, |cs|);
      DownIsCostlier(n, c.out, cs[j].inp);
    } else {
      j := if k == 0 then |cs| - 1 else k - 1;
      assert Next(j, |cs|) == k;
      DownIsCostlier(n, c.inp, cs[j].out);
    }
  }

  /** Active ports form no loop. */
  lemma NoLoop(n: Network, cs: seq<Crossing>)
    requires Settled(n) && Loop(n, cs)
    ensures exists k :: 0 <= k < |cs| && !(Active(n, cs[k].inp) && Active(n, cs[k].out))
  {
    if forall i | 0 <= i < |cs| :: Active(n, cs[i].inp) && Active(n, cs[i].out) {
      var k := Costliest(n, cs);
      var j := AlwaysCostlier(n, cs, k);
      assert false;
    }
  }

  /** In reachable states every loop of the wiring is cut by a blocked port, so no frame goes round. */
  lemma EveryLoopIsBlocked(n: Network, cs: seq<Crossing>)
    requires Settled(n) && forall x | 0 <= x < |n.bridges| :: Inv(n.bridges[x])
    requires Loop(n, cs)
    ensures exists k :: 0 <= k < |cs|
                        && (PortAt(n, cs[k].inp).state == Blocking || PortAt(n, cs[k].out).state == Blocking)
  {
    hide Settled, Inv;
    NoLoop(n, cs);
    var k :| 0 <= k < |cs| && !(Active(n, cs[k].inp) && Active(n, cs[k].out));
    if !Active(n, cs[k].inp) {
      InactiveIsBlocked(n, cs[k].inp);
    } else {
      InactiveIsBlocked(n, cs[k].out);
    }
  }

  lemma InactiveIsBlocked(n: Network, a: At)
    requires Live(n, a) && Inv(n.bridges[a.x]) && !Active(n, a)
    ensures PortAt(n, a).state == Blocking
  {
    assert PortOk(n.bridges[a.x], PortAt(n, a));
  }

  // ----- stability --------------------------------------------------------------------------

  /** A designated port's announcement, delivered to another port of its LAN, changes no role. */
  lemma AnnouncementsChangeNothing(n: Network, a: At, c: At, m: ConfigBpdu)
    requires Settled(n) && SameLan(n, a, c) && a != c && Announces(n, c)
    requires m.vector == Announced(n, c) && Inv(n.bridges[a.x])
    ensures SameCore(n.bridges[a.x], ReceivedConfig(n.bridges[a.x], a.i, m))
  {
    var b, p := n.bridges[a.x], PortAt(n, a);
    LiveRole(n, c);
    if ClaimsOwnPort(b, a.i, m) {
      SameBridge(n, a.x, c.x);
      SamePort(n, a, c);
    }
    if Supersedes(b, p, m.vector) {
      RehearingChangesNothing(b, a.i, m);
    } else if IsDesignated(b, p) {
      GenerateKeeps(b, a.i);
    }
  }

  lemma RehearingChangesNothing(b: Bridge, i: nat, m: ConfigBpdu)
    requires Inv(b) && i < |b.ports| && b.ports[i].Enabled() && !ClaimsOwnPort(b, i, m)
    requires m.vector == b.ports[i].designated && Supersedes(b, b.ports[i], m.vector)
    ensures SameCore(b, ReceivedConfig(b, i, m))
  {
    var r := RecordConfig(b, i, m);
    assert SameRoles(b, r);
    RolesFrame(b, r);
    AgreementIsFixpoint(r);
    AcceptKeeps(b, i, m);
    SameRolesTransitive(b, r, AcceptConfig(b, i, m));
  }

  // ----- runs of deliveries -----------------------------------------------------------------

  /** A bridge hears, at some time, what a designated port of the LAN announces. */
  datatype Delivery = Delivery(time: int, to: At, from: At, m: ConfigBpdu)

  predicate Deliverable(n: Network, d: Delivery) {
    && SameLan(n, d.to, d.from) && d.to != d.from && Announces(n, d.from)
    && d.m.vector == Announced(n, d.from)
    && n.bridges[d.to.x].now <= d.time
  }

  function Deliver(n: Network, d: Delivery): Network
    requires Deliverable(n, d)
  {
    var b := n.bridges[d.to.x].(now := d.time);
    n.(bridges := n.bridges[d.to.x := ReceivedConfig(b, d.to.i, d.m)])
  }

  ghost predicate AllInv(n: Network) {
    forall x | 0 <= x < |n.bridges| :: Inv(n.bridges[x])
  }

  /** The same bridges with the same roles on the same wiring. */
  ghost predicate SameNetwork(n: Network, k: Network) {
    && k.lan == n.lan && |k.bridges| == |n.bridges|
    && forall x | 0 <= x < |n.bridges| :: SameCore(n.bridges[x], k.bridges[x])
  }

  lemma SamePorts(n: Network, k: Network, a: At)
    requires SameNetwork(n, k)
    ensures Live(k, a) == Live(n, a)
    ensures Live(n, a) ==> PortAt(k, a).designated == PortAt(n, a).designated
    ensures Live(n, a) ==> LanAt(k, a) == LanAt(n, a) && Announces(k, a) == Announces(n, a)
    ensures Live(n, a) ==> Announced(k, a) == Announced(n, a)
  {
    if a.x < |n.bridges| && a.i < |n.bridges[a.x].ports| {
      assert SameRole(n.bridges[a.x].ports[a.i], k.bridges[a.x].ports[a.i]);
    }
  }

  lemma JoinedFrame(n: Network, k: Network)
    requires Settled(n) && SameNetwork(n, k)
    ensures WellJoined(k) && forall x | 0 <= x < |k.bridges| :: ConfigurationUpdate(k.bridges[x]) == k.bridges[x]
  {
    hide WellFormed, RolesAgree, ConfigurationUpdate;
    forall x | 0 <= x < |n.bridges|
      ensures WellFormed(k.bridges[x]) && ConfigurationUpdate(k.bridges[x]) == k.bridges[x]
    {
      SettledRoles(n, x);
      RolesFrame(n.bridges[x], k.bridges[x]);
      AgreementIsFixpoint(k.bridges[x]);
    }
  }

  lemma HeardFrame(n: Network, k: Network, a: At)
    requires Settled(n) && SameNetwork(n, k) && Live(k, a) && !Announces(k, a)
    ensures exists c :: HeardFrom(k, a, c)
  {
    hide Live, PortAt, LanAt, Announces, Announced, WellJoined, ConfigurationUpdate, Supersedes;
    SamePorts(n, k, a);
    var c :| HeardFrom(n, a, c);
    SamePorts(n, k, c);
    assert HeardFrom(k, a, c);
  }

  lemma SettlesFrame(n: Network, k: Network, a: At, c: At)
    requires SameNetwork(n, k) && Live(n, a) && Live(n, c) && Live(k, a) && Live(k, c) && Settles(n, a, c)
    ensures Settles(k, a, c)
  {
    assert SameRole(n.bridges[a.x].ports[a.i], k.bridges[a.x].ports[a.i]);
    assert SameRole(n.bridges[c.x].ports[c.i], k.bridges[c.x].ports[c.i]);
  }

  /** Being settled is a matter of roles and wiring only. */
  lemma SettledFrame(n: Network, k: Network)
    requires Settled(n) && SameNetwork(n, k)
    ensures Settled(k)
  {
    hide Live, PortAt, LanAt, Announces, Announced, WellJoined, ConfigurationUpdate, SameCore;
    JoinedFrame(n, k);
    forall a | Live(k, a) && !Announces(k, a)
      ensures exists c :: HeardFrom(k, a, c)
    {
      HeardFrame(n, k, a);
    }
    forall a, c | SameLan(k, a, c) && a != c && Announces(k, c)
      ensures Settles(k, a, c)
    {
      SamePorts(n, k, a);
      SamePorts(n, k, c);
      SettlesFrame(n, k, a, c);
    }
  }

  lemma SameCoreReflexive(b: Bridge)
    ensures SameCore(b, b)
  {
  }

  /** The receiving bridge after one delivery: same roles, invariant kept. */
  lemma ReceiverKeeps(n: Network, d: Delivery)
    requires Settled(n) && Deliverable(n, d) && Inv(n.bridges[d.to.x])
    ensures var b := n.bridges[d.to.x];
            var c := Deliver(n, d).bridges[d.to.x];
            SameCore(b, c) && Inv(c)
  {
    hide WellJoined, ConfigurationUpdate, ReceivedConfig, WellFormed, Inv;
    var x := d.to.x;
    var b := n.bridges[x].(now := d.time);
    var k := n.(bridges := n.bridges[x := b]);
    TimePasses(n.bridges[x], d.time);
    assert SameNetwork(n, k) by { SameButTime(n, x, d.time); }
    SettledFrame(n, k);
    SamePorts(n, k, d.to);
    SamePorts(n, k, d.from);
    AnnouncementsChangeNothing(k, d.to, d.from, d.m);
    NotOwnMessage(k, d.to, d.from, d.m);
    ReceivedConfigKeeps(b, d.to.i, d.m);
  }

  lemma SameButTime(n: Network, x: nat, now: int)
    requires x < |n.bridges|
    ensures SameNetwork(n, n.(bridges := n.bridges[x := n.bridges[x].(now := now)]))
  {
  }

  lemma NotOwnMessage(n: Network, a: At, c: At, m: ConfigBpdu)
    requires Settled(n) && SameLan(n, a, c) && a != c && Announces(n, c) && m.vector == Announced(n, c)
    ensures !ClaimsOwnPort(n.bridges[a.x], a.i, m)
  {
    if ClaimsOwnPort(n.bridges[a.x], a.i, m) {
      SameBridge(n, a.x, c.x);
      SamePort(n, a, c);
    }
  }

  /** A delivery leaves a settled network settled, with every role as it was. */
  lemma DeliveryKeeps(n: Network, d: Delivery)
    requires Settled(n) && AllInv(n) && Deliverable(n, d)
    ensures var k := Deliver(n, d); Settled(k) && AllInv(k) && SameNetwork(n, k)
  {
    hide Settled, SameCore, Inv, Deliverable, ReceivedConfig;
    var k := Deliver(n, d);
    assert d.to.x < |n.bridges| by { ReceiverListed(n, d); }
    ReceiverKeeps(n, d);
    forall x | 0 <= x < |n.bridges|
      ensures SameCore(n.bridges[x], k.bridges[x]) && Inv(k.bridges[x])
    {
      SameCoreReflexive(n.bridges[x]);
    }
    SettledFrame(n, k);
  }

  lemma ReceiverListed(n: Network, d: Delivery)
    requires Deliverable(n, d)
    ensures d.to.x < |n.bridges|
  {
  }

  lemma SameNetworkTransitive(n: Network, h: Network, k: Network)
    requires SameNetwork(n, h) && SameNetwork(h, k)
    ensures SameNetwork(n, k)
  {
    forall x | 0 <= x < |n.bridges|
      ensures SameCore(n.bridges[x], k.bridges[x])
    {
      assert SameCore(n.bridges[x], h.bridges[x]) && SameCore(h.bridges[x], k.bridges[x]);
      forall i | 0 <= i < |n.bridges[x].ports|
        ensures SameRole(n.bridges[x].ports[i], k.bridges[x].ports[i])
      {
        assert SameRole(n.bridges[x].ports[i], h.bridges[x].ports[i]);
      }
    }
  }
}
