/**
 From flooding to forwarding. When a flood has settled in a connected network whose links are named from
 both ends, the activation pass leaves every router the same graph, whatever the order of its lists;
 so the tables all routers compute from it deliver packets without loops.
 */
module NetworkRoutes {
  import opened Net
  import opened LinkDatabase
  import opened Pwospf
  import opened Flood
  import Activation
  import FloodConvergence
  import FloodQuiescence
  import SP = ShortestPath
  import F = Forwarding
  import RouteSelection
  import Gateway
  import Hello

  /** A router list, read as the topology Dijkstra works on. */
  function TopologyOf(db: seq<Record>): (t: SP.Topology)
    ensures forall r :: r in t <==> exists i :: 0 <= i < |db| && db[i].rid == r
  {
    map r | r in Rids(db) :: LinksIn(db, r)
  }

  function Rids(db: seq<Record>): (ids: set<RouterId>)
    ensures forall r :: r in ids <==> exists i :: 0 <= i < |db| && db[i].rid == r
  {
    set i | 0 <= i < |db| :: db[i].rid
  }

  function LinksIn(db: seq<Record>, r: RouterId): seq<Link> {
    var x := Lookup(db, r);
    if x.Some? then x.value.links else []
  }

  lemma TopologyAt(db: seq<Record>, i: nat)
    requires UniqueIds(db) && i < |db|
    ensures db[i].rid in TopologyOf(db) && TopologyOf(db)[db[i].rid] == db[i].links
  {
  }

  // ---------------------------------------------------------------- what everybody knows

  /** Every router has the present links of every router. */
  ghost predicate AllKnown(s: Network) {
    Shaped(s) && forall u, o :: u in s.nodes && o in s.nodes && u != o ==> FloodQuiescence.Right(s, u, o)
  }

  /** Every link that names a router is named back by it, on the same subnet. */
  ghost predicate Reciprocal(s: Network) {
    forall o, a :: o in s.nodes && a in Says(s, o) && a.rid != 0 ==>
      a.rid in s.nodes && Adv(a.subnet, a.mask, o) in Says(s, a.rid)
  }

  /** All is known, links are mutual, and 0, the mark of a blank link, is nobody's id. */
  ghost predicate Informed(s: Network) {
    Safe(s) && AllKnown(s) && Reciprocal(s) && 0 !in s.nodes
  }

  /** What router `o` advertises at present. */
  function Says(s: Network, o: RouterId): set<Adv> {
    if o in s.nodes then LinkSet(LinksIn(s.nodes[o].db, o)) else {}
  }

  lemma SaysPresent(s: Network, o: RouterId)
    requires Shaped(s) && o in s.nodes
    ensures Own(s.nodes[o]).Some? && Says(s, o) == FloodQuiescence.Present(s, o)
  {
    hide UniqueIds, LinkSet;
    OwnRecord(s, o);
  }

  /** Router `u` stores what `o` says. */
  lemma StoredSays(s: Network, u: RouterId, o: RouterId)
    requires AllKnown(s) && u in s.nodes && o in s.nodes
    ensures Lookup(s.nodes[u].db, o).Some? && LinkSet(LinksIn(s.nodes[u].db, o)) == Says(s, o)
  {
    hide UniqueIds, LinkSet;
    SaysPresent(s, o);
    if u != o {
      assert FloodQuiescence.Right(s, u, o);
    }
  }

  /** A settled flood of a network in which everybody can be reached. */
  lemma ConvergedIsKnown(owner: map<Ip, RouterId>, topo: FloodConvergence.Topology, s: Network)
    requires Shaped(s) && FloodQuiescence.Converged(owner, topo, s)
    requires forall n, o :: n in s.nodes && o in s.nodes && n != o ==> FloodConvergence.Linked(owner, topo, o, n)
    ensures AllKnown(s)
  {
    hide FloodConvergence.Linked, FloodQuiescence.Right, ListOk;
  }

  // ---------------------------------------------------------------- from start-up

  lemma SaysOwn(s: Network, s': Network, o: RouterId)
    requires Shaped(s) && Shaped(s') && o in s.nodes && o in s'.nodes
    requires Own(s.nodes[o]).Some? && Own(s'.nodes[o]).Some?
    requires Own(s'.nodes[o]).value.links == Own(s.nodes[o]).value.links
    ensures Says(s', o) == Says(s, o)
  {
    hide UniqueIds, ListOk;
    OwnRecord(s, o);
    OwnRecord(s', o);
    assert s.nodes[o].rid == o && s'.nodes[o].rid == o;
  }

  lemma OriginateSays(s: Network, n: RouterId, o: RouterId)
    requires Shaped(s) && n in s.nodes && o in s.nodes
    ensures Says(OriginateAt(s, n), o) == Says(s, o)
  {
    hide ListOk, Own, OriginateAt, Says;
    FloodQuiescence.OriginateOwn(s, n, o);
    SaysOwn(s, OriginateAt(s, n), o);
  }

  lemma DeliverSays(s: Network, i: nat, n: RouterId, o: RouterId)
    requires Shaped(s) && i < |s.flight| && n in s.nodes && o in s.nodes
    ensures Says(DeliverAt(s, i, n), o) == Says(s, o)
  {
    hide ListOk, Own, DeliverAt, Says;
    OwnRecord(s, o);
    FloodQuiescence.DeliverPresent(s, i, n, o);
    SaysOwn(s, DeliverAt(s, i, n), o);
  }

  lemma {:induction false} AnnouncedSays(s: Network, ns: seq<RouterId>, o: RouterId)
    requires Shaped(s) && (forall i :: 0 <= i < |ns| ==> ns[i] in s.nodes) && o in s.nodes
    ensures Says(FloodQuiescence.Announced(s, ns), o) == Says(s, o)
  {
    hide ListOk, OriginateAt, Says;
    if ns != [] {
      AnnouncedSays(s, ns[..|ns| - 1], o);
      OriginateSays(FloodQuiescence.Announced(s, ns[..|ns| - 1]), ns[|ns| - 1], o);
    }
  }

  lemma DeliveryStepSays(owner: map<Ip, RouterId>, s: Network, i: nat, o: RouterId)
    requires Shaped(s) && Enabled(owner, s, Deliver(i)) && o in s.nodes
    ensures Says(Apply(owner, s, Deliver(i)), o) == Says(s, o)
  {
    hide ListOk, Store, DeliverAt, OriginateAt, Says;
    var n := owner[s.flight[i].packet.dst];
    DeliverSays(s, i, n, o);
    OriginateSays(DeliverAt(s, i, n), n, o);
  }

  lemma {:induction false} DeliveriesSay(owner: map<Ip, RouterId>, s: Network, events: seq<Event>, end: Network, o: RouterId)
    requires Shaped(s) && FloodQuiescence.Deliveries(owner, s, events, end) && o in s.nodes
    ensures Says(end, o) == Says(s, o)
    decreases |events|
  {
    hide ListOk, Apply, Says;
    if events != [] {
      DeliveryStepSays(owner, s, events[0].i, o);
      DeliveriesSay(owner, Apply(owner, s, events[0]), events[1..], end, o);
    }
  }

  lemma StillReciprocal(s: Network, s': Network)
    requires s'.nodes.Keys == s.nodes.Keys && Reciprocal(s)
    requires forall o :: o in s.nodes ==> Says(s', o) == Says(s, o)
    ensures Reciprocal(s')
  {
    hide Says;
  }

  lemma ColdStartIsSafe(owner: map<Ip, RouterId>, topo: FloodConvergence.Topology, s: Network, d: nat, ns: seq<RouterId>,
                        events: seq<Event>, end: Network)
    requires FloodQuiescence.Starting(owner, topo, s, d, ns) && Shaped(s) && forall i :: 0 <= i < |ns| ==> ns[i] in s.nodes
    requires FloodQuiescence.Deliveries(owner, FloodQuiescence.Announced(s, ns), events, end)
    ensures Safe(end)
  {
    hide FloodConvergence.Flooding, FloodQuiescence.Calm, FloodQuiescence.SpokeLast, FloodQuiescence.Announced, ListOk,
      FloodQuiescence.Potential, FloodQuiescence.Starting, FloodQuiescence.Room, Shaped, FloodQuiescence.Deliveries,
      NodesOk, FlightOk;
    FloodQuiescence.StartingShape(owner, topo, s, d, ns);
    FloodQuiescence.StartingIsReady(owner, topo, s, d, ns);
    FloodQuiescence.AnnouncedIsReady(owner, topo, s, d, ns);
    FloodQuiescence.AnnouncedRoom(s, ns);
    FloodingIsSafe(owner, topo, FloodQuiescence.Announced(s, ns));
    FloodQuiescence.DeliveriesAreBounded(owner, FloodQuiescence.Announced(s, ns), d, events, end);
  }

  lemma FloodingIsSafe(owner: map<Ip, RouterId>, topo: FloodConvergence.Topology, s: Network)
    requires FloodConvergence.Flooding(owner, topo, s)
    ensures Safe(s)
  {
    hide NodesOk, FlightOk, Shaped;
  }

  /** A connected network with mutual links knows itself when the flood of its start-up is over. */
  lemma ColdStartInforms(owner: map<Ip, RouterId>, topo: FloodConvergence.Topology, s: Network, d: nat, ns: seq<RouterId>,
                         events: seq<Event>, end: Network)
    requires FloodQuiescence.Starting(owner, topo, s, d, ns) && Shaped(s) && forall i :: 0 <= i < |ns| ==> ns[i] in s.nodes
    requires FloodQuiescence.Deliveries(owner, FloodQuiescence.Announced(s, ns), events, end) && end.flight == []
    requires forall n, o :: n in s.nodes && o in s.nodes && n != o ==> FloodConvergence.Linked(owner, topo, o, n)
    requires Reciprocal(s) && 0 !in s.nodes
    ensures Informed(end) && end.nodes.Keys == s.nodes.Keys && forall o :: o in s.nodes ==> Says(end, o) == Says(s, o)
  {
    hide FloodQuiescence.Starting, FloodQuiescence.Announced, FloodQuiescence.Deliveries, FloodQuiescence.Converged,
      FloodConvergence.Linked, NodesOk, FlightOk, Shaped, Reciprocal, AllKnown, Says, FloodQuiescence.Potential, Enabled;
    var a := FloodQuiescence.Announced(s, ns);
    FloodQuiescence.ColdStartConverges(owner, topo, s, d, ns, events, end);
    ColdStartIsSafe(owner, topo, s, d, ns, events, end);
    ConvergedIsKnown(owner, topo, end);
    forall o | o in s.nodes ensures Says(end, o) == Says(s, o) {
      AnnouncedSays(s, ns, o);
      DeliveriesSay(owner, a, events, end, o);
    }
    StillReciprocal(s, end);
  }

  // ---------------------------------------------------------------- one router's graph

  /** The list of router `u` after the activation pass. */
  ghost predicate Passed(s: Network, u: RouterId, db: seq<Record>) {
    u in s.nodes && Activation.SameAds(s.nodes[u].db, db) && Activation.Activated(db)
  }

  lemma {:induction false} SameLinkSet(a: seq<Link>, b: seq<Link>)
    requires |a| == |b| && forall i :: 0 <= i < |a| ==> b[i].Ad() == a[i].Ad()
    ensures LinkSet(a) == LinkSet(b)
  {
    forall x ensures x in LinkSet(a) <==> x in LinkSet(b) {
      if x in LinkSet(a) {
        var i :| 0 <= i < |a| && a[i].Ad() == x;
        assert b[i] in b;
      }
      if x in LinkSet(b) {
        var i :| 0 <= i < |b| && b[i].Ad() == x;
        assert a[i] in a;
      }
    }
  }

  /** Where router `o` stands in the list, with what links. */
  lemma Entry(s: Network, u: RouterId, db: seq<Record>, o: RouterId) returns (r: nat)
    requires AllKnown(s) && Passed(s, u, db) && o in s.nodes
    ensures r < |db| && db[r].rid == o && LinkSet(db[r].links) == Says(s, o) && UniqueIds(db)
  {
    hide LinkSet, Activation.Activated, FloodQuiescence.Right;
    var was := s.nodes[u].db;
    OwnRecord(s, u);
    StoredSays(s, u, o);
    r := IndexOf(was, o);
    assert forall i :: 0 <= i < |was[r].links| ==> Activation.Within(was, r, i);
    SameLinkSet(was[r].links, db[r].links);
  }

  lemma OnlyNodes(s: Network, u: RouterId, db: seq<Record>, r: nat)
    requires Safe(s) && Passed(s, u, db) && r < |db|
    ensures db[r].rid in s.nodes
  {
    hide LinkSet, Activation.Activated, MaskedLinks;
    assert NodeOk(s.sent, s.nodes[u]);
    var was := s.nodes[u].db;
    assert was[r] in was;
    if was[r].rid != u {
      assert Lookup(was, was[r].rid).Some?;
    }
  }

  lemma GraphKeys(s: Network, u: RouterId, db: seq<Record>)
    requires Safe(s) && AllKnown(s) && Passed(s, u, db)
    ensures TopologyOf(db).Keys == s.nodes.Keys
  {
    hide Passed, AllKnown, NodesOk, FlightOk;
    forall o ensures o in TopologyOf(db) <==> o in s.nodes {
      if o in s.nodes {
        var r := Entry(s, u, db, o);
        assert db[r].rid == o;
      }
      if o in TopologyOf(db) {
        var r :| 0 <= r < |db| && db[r].rid == o;
        OnlyNodes(s, u, db, r);
      }
    }
  }

  lemma GraphLinks(s: Network, u: RouterId, db: seq<Record>, a: RouterId)
    requires AllKnown(s) && Passed(s, u, db) && a in s.nodes
    ensures a in TopologyOf(db) && LinkSet(TopologyOf(db)[a]) == Says(s, a)
  {
    hide Passed, AllKnown, LinkSet, UniqueIds;
    var r := Entry(s, u, db, a);
    TopologyAt(db, r);
  }

  /** In router u's graph there is an edge exactly where the advertiser names the other. */
  lemma GraphEdge(s: Network, u: RouterId, db: seq<Record>, a: RouterId, b: RouterId)
    requires Safe(s) && AllKnown(s) && Reciprocal(s) && Passed(s, u, db) && a in s.nodes && b in s.nodes && 0 !in s.nodes
    ensures SP.Edge(TopologyOf(db), a, b) <==> Names(s, a, b)
  {
    hide Passed, AllKnown, NodesOk, FlightOk, UniqueIds, Reciprocal, TopologyOf;
    var t := TopologyOf(db);
    GraphLinks(s, u, db, a);
    GraphLinks(s, u, db, b);
    if SP.Edge(t, a, b) {
      var l: Link :| l in t[a] && l.active && l.rid == b;
      assert l.Ad() in LinkSet(t[a]);
    }
    if Names(s, a, b) {
      var l := ActiveLink(s, u, db, a, b);
      assert l in t[a] && l.active && l.rid == b;
    }
  }

  /** Router `a` advertises a link to `b`. */
  ghost predicate Names(s: Network, a: RouterId, b: RouterId) {
    exists x :: x in Says(s, a) && x.rid == b
  }

  lemma ActiveLink(s: Network, u: RouterId, db: seq<Record>, a: RouterId, b: RouterId) returns (l: Link)
    requires AllKnown(s) && Reciprocal(s) && Passed(s, u, db) && a in s.nodes && b in s.nodes && 0 !in s.nodes
    requires Names(s, a, b)
    ensures a in TopologyOf(db) && l in TopologyOf(db)[a] && l.active && l.rid == b
  {
    hide AllKnown, TopologyOf, Activation.Activated, Activation.SameAds;
    var x :| x in Says(s, a) && x.rid == b;
    var r := Entry(s, u, db, a);
    var q := Entry(s, u, db, b);
    var i := LinkAt(db[r].links, x);
    var j := LinkAt(db[q].links, Adv(x.subnet, x.mask, a));
    Activation.MutualIsActive(db, r, i, q, j);
    TopologyAt(db, r);
    l := db[r].links[i];
  }

  lemma LinkAt(links: seq<Link>, x: Adv) returns (i: nat)
    requires x in LinkSet(links)
    ensures i < |links| && links[i].Ad() == x
  {
    i :| i < |links| && links[i].Ad() == x;
  }

  predicate AdvOn(a: Adv, ip: Ip, mask: Ip) {
    F.OnSubnet(Link(a.subnet, a.mask, a.rid, false), ip, mask)
  }

  /** Router `a` advertises a link on the subnet. */
  ghost predicate OnNet(s: Network, a: RouterId, ip: Ip, mask: Ip) {
    exists x :: x in Says(s, a) && AdvOn(x, ip, mask)
  }

  lemma OnSubnetIs(l: Link, ip: Ip, mask: Ip)
    ensures F.OnSubnet(l, ip, mask) <==> AdvOn(l.Ad(), ip, mask)
  {
    assert l.Base() == Link(l.subnet, l.mask, l.rid, false).Base();
  }

  lemma GraphSubnet(s: Network, u: RouterId, db: seq<Record>, a: RouterId, ip: Ip, mask: Ip)
    requires AllKnown(s) && Passed(s, u, db) && a in s.nodes
    ensures F.Advertised(TopologyOf(db), a, ip, mask) <==> OnNet(s, a, ip, mask)
  {
    hide Passed, AllKnown, TopologyOf, F.OnSubnet, AdvOn, Says;
    var t := TopologyOf(db);
    GraphLinks(s, u, db, a);
    if F.Advertised(t, a, ip, mask) {
      var l: Link :| l in t[a] && F.OnSubnet(l, ip, mask);
      OnSubnetIs(l, ip, mask);
      assert l.Ad() in LinkSet(t[a]);
    }
    if OnNet(s, a, ip, mask) {
      var x :| x in Says(s, a) && AdvOn(x, ip, mask);
      var i := LinkAt(t[a], x);
      OnSubnetIs(t[a][i], ip, mask);
      assert t[a][i] in t[a];
    }
  }

  lemma EdgeIsKnown(s: Network, u: RouterId, db: seq<Record>, a: RouterId, b: RouterId)
    requires Informed(s) && Passed(s, u, db)
    ensures SP.Edge(TopologyOf(db), a, b) <==> a in s.nodes && b in s.nodes && Names(s, a, b)
  {
    hide Passed, AllKnown, NodesOk, FlightOk, Shaped, TopologyOf, Reciprocal, Names;
    GraphKeys(s, u, db);
    if a in s.nodes && b in s.nodes {
      GraphEdge(s, u, db, a, b);
    } else {
      assert !(a in TopologyOf(db) && b in TopologyOf(db));
    }
  }

  lemma SubnetIsKnown(s: Network, u: RouterId, db: seq<Record>, a: RouterId, ip: Ip, mask: Ip)
    requires Informed(s) && Passed(s, u, db)
    ensures F.Advertised(TopologyOf(db), a, ip, mask) <==> a in s.nodes && OnNet(s, a, ip, mask)
  {
    hide Passed, AllKnown, NodesOk, FlightOk, Shaped, TopologyOf, Reciprocal, OnNet;
    GraphKeys(s, u, db);
    if a in s.nodes {
      GraphSubnet(s, u, db, a, ip, mask);
    } else {
      assert a !in TopologyOf(db);
    }
  }

  /** All routers end up with the same graph: the routers, who names whom, and who is on which subnet. */
  lemma GraphsAgree(s: Network, u: RouterId, dbu: seq<Record>, v: RouterId, dbv: seq<Record>)
    requires Informed(s) && Passed(s, u, dbu) && Passed(s, v, dbv)
    ensures F.SameGraph(TopologyOf(dbu), TopologyOf(dbv))
  {
    hide Passed, Informed, TopologyOf, Names, OnNet, SP.Edge, F.Advertised;
    var t, t' := TopologyOf(dbu), TopologyOf(dbv);
    KeysAgree(s, u, dbu);
    KeysAgree(s, v, dbv);
    forall a, b ensures SP.Edge(t, a, b) <==> SP.Edge(t', a, b) {
      EdgeIsKnown(s, u, dbu, a, b);
      EdgeIsKnown(s, v, dbv, a, b);
    }
    forall a, ip, mask ensures F.Advertised(t, a, ip, mask) <==> F.Advertised(t', a, ip, mask) {
      SubnetIsKnown(s, u, dbu, a, ip, mask);
      SubnetIsKnown(s, v, dbv, a, ip, mask);
    }
  }

  lemma KeysAgree(s: Network, u: RouterId, db: seq<Record>)
    requires Informed(s) && Passed(s, u, db)
    ensures TopologyOf(db).Keys == s.nodes.Keys
  {
    hide Passed, AllKnown, NodesOk, FlightOk, Shaped, TopologyOf, Reciprocal;
    GraphKeys(s, u, db);
  }

  // ---------------------------------------------------------------- the network delivers

  /** Router u's list after the pass is `db`, and it has computed its wrapper for the subnet from it. */
  ghost predicate LocalOk(s: Network, u: RouterId, db: seq<Record>, loc: F.Local, ip: Ip, mask: Ip) {
    && Passed(s, u, db) && loc.t == TopologyOf(db) && F.Computed(u, loc)
    && loc.w.ip == ip && loc.w.mask == mask
  }

  /** All routers have done so. */
  ghost predicate RoutesComputed(s: Network, dbs: map<RouterId, seq<Record>>, net: map<RouterId, F.Local>, ip: Ip, mask: Ip) {
    && dbs.Keys == s.nodes.Keys && net.Keys == s.nodes.Keys
    && forall u :: u in s.nodes ==> LocalOk(s, u, dbs[u], net[u], ip, mask)
  }

  lemma LocalAgrees(s: Network, u: RouterId, dbu: seq<Record>, here: F.Local, v: RouterId, dbv: seq<Record>, there: F.Local,
                    ip: Ip, mask: Ip)
    requires Informed(s) && LocalOk(s, u, dbu, here, ip, mask) && LocalOk(s, v, dbv, there, ip, mask)
    ensures F.Computed(v, there) && F.SameGraph(here.t, there.t) && there.w.ip == ip && there.w.mask == mask
    ensures here.t.Keys == s.nodes.Keys
  {
    hide Passed, Informed, TopologyOf, F.Computed, F.SameGraph;
    KeysAgree(s, u, dbu);
    GraphsAgree(s, u, dbu, v, dbv);
  }

  lemma NetworkSettles(s: Network, dbs: map<RouterId, seq<Record>>, net: map<RouterId, F.Local>, ip: Ip, mask: Ip, u: RouterId)
    requires Informed(s) && u in s.nodes && RoutesComputed(s, dbs, net, ip, mask)
    ensures u in net && F.Settled(net, net[u].t, ip, mask)
  {
    hide Informed, LocalOk, F.Computed, F.SameGraph;
    forall v | v in net
      ensures F.Computed(v, net[v]) && F.SameGraph(net[u].t, net[v].t) && net[v].w.ip == ip && net[v].w.mask == mask
      ensures net[u].t.Keys == s.nodes.Keys
    {
      LocalAgrees(s, u, dbs[u], net[u], v, dbs[v], net[v], ip, mask);
    }
  }

  /** After k hops from `u` the packet is at `v`: in the network, k hops closer, and not for the second time. */
  ghost predicate OnTheWay(s: Network, net: map<RouterId, F.Local>, u: RouterId, k: nat, v: RouterId) {
    && v == F.Position(net, u, k) && v in s.nodes
    && F.Distance(net, v) == F.Distance(net, u) - k
    && forall j :: 0 <= j < k ==> F.Position(net, u, j) != v
  }

  /**
   The network delivers. After a settled flood, activation and route computation everywhere, a packet
   for a reachable subnet comes one hop closer at each router and arrives at a router on the subnet.
   */
  lemma NetworkDelivers(s: Network, dbs: map<RouterId, seq<Record>>, net: map<RouterId, F.Local>, ip: Ip, mask: Ip,
                        u: RouterId, k: nat)
    requires Informed(s) && u in s.nodes && RoutesComputed(s, dbs, net, ip, mask)
    requires k <= F.Distance(net, u) < RouteSelection.WORD16 - 1
    ensures OnTheWay(s, net, u, k, F.Position(net, u, k))
    ensures k < F.Distance(net, u) ==> Names(s, F.Position(net, u, k), F.Position(net, u, k + 1))
    ensures k == F.Distance(net, u) ==> OnNet(s, F.Position(net, u, k), ip, mask)
  {
    hide Informed, F.Settled, F.Position, F.Distance, LocalOk, OnNet, Names, F.Arrived, SP.Edge;
    NetworkSettles(s, dbs, net, ip, mask, u);
    F.FollowsDown(net, net[u].t, ip, mask, u, k);
    if k < F.Distance(net, u) {
      HopIsNamed(s, u, dbs[u], net[u], ip, mask, F.Position(net, u, k), F.Position(net, u, k + 1));
    } else {
      ArrivedSays(s, dbs[u], net, ip, mask, u, F.Position(net, u, k));
    }
    forall j | 0 <= j < k ensures F.Position(net, u, j) != F.Position(net, u, k) {
      F.NoLoops(net, net[u].t, ip, mask, u, j, k);
    }
  }

  /** Each router's own links mirror what it hears on its interfaces. */
  ghost predicate Hearing(net: map<RouterId, F.Local>, heard: map<RouterId, Hello.State>) {
    heard.Keys == net.Keys && forall u :: u in net ==> Heard(u, net[u], heard[u])
  }

  ghost predicate Heard(u: RouterId, loc: F.Local, h: Hello.State) {
    Hello.Mirror(h) && u in loc.t && h.links == loc.t[u]
  }

  /** On the way the installed entry of each router sends the packet to the next one. */
  lemma GatewaysLead(s: Network, dbs: map<RouterId, seq<Record>>, net: map<RouterId, F.Local>, ip: Ip, mask: Ip,
                     u: RouterId, k: nat, heard: map<RouterId, Hello.State>)
    requires Informed(s) && u in s.nodes && RoutesComputed(s, dbs, net, ip, mask) && Hearing(net, heard)
    requires k < F.Distance(net, u) < RouteSelection.WORD16 - 1
    ensures var v := F.Position(net, u, k);
            && v in net && v in heard
            && var e := Gateway.Resolve(heard[v].ifaces, net[v].w);
               && e.Entry? && e.route.ip == ip && e.route.mask == mask
               && Gateway.Via(heard[v].ifaces, e.route, F.Position(net, u, k + 1))
  {
    hide Informed, F.Settled, F.Distance, F.Position, LocalOk, Gateway.Resolve, Gateway.Via, Hello.Mirror, SP.Edge;
    NetworkSettles(s, dbs, net, ip, mask, u);
    F.FollowsDown(net, net[u].t, ip, mask, u, k);
    var v := F.Position(net, u, k);
    PositionNext(net, u, k);
    assert Heard(v, net[v], heard[v]);
    F.GatewayFollows(net, net[u].t, ip, mask, v, heard[v]);
  }

  lemma {:induction false} PositionNext(net: map<RouterId, F.Local>, u: RouterId, k: nat)
    ensures F.Position(net, u, k + 1) == F.NextHop(net, F.Position(net, u, k))
    decreases k
  {
    if k > 0 && u in net {
      PositionNext(net, net[u].w.nextRid, k - 1);
    }
  }

  lemma HopIsNamed(s: Network, u: RouterId, db: seq<Record>, loc: F.Local, ip: Ip, mask: Ip, a: RouterId, b: RouterId)
    requires Informed(s) && LocalOk(s, u, db, loc, ip, mask) && SP.Edge(loc.t, a, b)
    ensures Names(s, a, b)
  {
    hide Informed, TopologyOf, Passed, F.Computed, SP.Edge, Names;
    EdgeIsKnown(s, u, db, a, b);
  }

  lemma ArrivedSays(s: Network, db: seq<Record>, net: map<RouterId, F.Local>, ip: Ip, mask: Ip, u: RouterId, v: RouterId)
    requires Informed(s) && u in net && LocalOk(s, u, db, net[u], ip, mask) && F.Arrived(net, net[u].t, ip, mask, v)
    ensures OnNet(s, v, ip, mask)
  {
    hide Informed, TopologyOf, OnNet, Passed, F.Computed, F.Advertised;
    SubnetIsKnown(s, u, db, v, ip, mask);
  }

  /** A router that some chain of named links joins to the subnet has a real distance for it. */
  lemma ReachableHasDistance(s: Network, dbs: map<RouterId, seq<Record>>, net: map<RouterId, F.Local>, ip: Ip, mask: Ip,
                             u: RouterId, r: RouterId, k: nat)
    requires Informed(s) && u in s.nodes && r in s.nodes && RoutesComputed(s, dbs, net, ip, mask)
    requires NamedWay(s, u, r, k) && OnNet(s, r, ip, mask)
    ensures F.Distance(net, u) <= k && F.Distance(net, u) < RouteSelection.WORD16 - 1
  {
    hide Informed, OnNet, Passed, F.Computed, F.Advertised, TopologyOf, NamedWay, SP.Reach, F.NearestAt;
    var db, loc := dbs[u], net[u];
    assert LocalOk(s, u, db, loc, ip, mask);
    SubnetIsKnown(s, u, db, r, ip, mask);
    NamedWayReaches(s, u, db, u, r, k);
    F.ReachableIsFinite(u, loc, r, k);
    F.ComputedIsNearest(u, loc);
    LeastIs(loc.t, u, ip, mask, loc.w.distance, r, k);
  }

  lemma LeastIs(t: SP.Topology, u: RouterId, ip: Ip, mask: Ip, d: nat, r: RouterId, k: nat)
    requires F.NearestAt(t, u, ip, mask, d) && F.Advertised(t, r, ip, mask) && SP.Reach(t, u, r, k)
    ensures d <= k
  {
    hide F.Advertised, SP.Reach;
  }

  /** `k` named links lead from `a` to `b`. */
  ghost predicate NamedWay(s: Network, a: RouterId, b: RouterId, k: nat)
    decreases k
  {
    if k == 0 then a == b
    else exists c :: c in s.nodes && NamedWay(s, a, c, k - 1) && Names(s, c, b)
  }

  lemma {:induction false} NamedWayReaches(s: Network, u: RouterId, db: seq<Record>, a: RouterId, b: RouterId, k: nat)
    requires Informed(s) && Passed(s, u, db) && a in s.nodes && b in s.nodes && NamedWay(s, a, b, k)
    ensures SP.Reach(TopologyOf(db), a, b, k)
    decreases k
  {
    hide Informed, Passed, TopologyOf, Names, SP.Edge;
    KeysAgree(s, u, db);
    if k > 0 {
      var c :| c in s.nodes && NamedWay(s, a, c, k - 1) && Names(s, c, b);
      NamedWayReaches(s, u, db, a, c, k - 1);
      EdgeIsKnown(s, u, db, c, b);
    }
  }
}
