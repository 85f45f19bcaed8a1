/**
 The routes of a whole network. Every router computes its own table; when all of them work on the same
 graph, following the gateways from router to router comes one hop closer to a nearest advertiser each
 time, so packets reach it and never go in circles.
 */
module Forwarding {
  import opened Net
  import opened ShortestPath
  import opened RouteSelection
  import opened Gateway
  import Hello

  /** Some link of router `r` is on the subnet. */
  predicate Advertised(t: Topology, r: RouterId, ip: Ip, mask: Ip) {
    r in t && exists l :: l in t[r] && OnSubnet(l, ip, mask)
  }

  predicate OnSubnet(l: Link, ip: Ip, mask: Ip) {
    l.Base() == ip && l.mask == mask
  }

  /** Same routers, same active links between them, same subnets; the lists may be in any order. */
  ghost predicate SameGraph(t: Topology, t': Topology) {
    && t.Keys == t'.Keys
    && (forall a, b :: Edge(t, a, b) <==> Edge(t', a, b))
    && (forall r, ip, mask :: Advertised(t, r, ip, mask) <==> Advertised(t', r, ip, mask))
  }

  lemma {:induction false} SameReach(t: Topology, t': Topology, a: RouterId, b: RouterId, k: nat)
    requires SameGraph(t, t') && Reach(t, a, b, k)
    ensures Reach(t', a, b, k)
    decreases k
  {
    hide Edge, Advertised;
    if k > 0 {
      var u :| Reach(t, a, u, k - 1) && Edge(t, u, b);
      SameReach(t, t', a, u, k - 1);
      assert Reach(t', a, u, k - 1) && Edge(t', u, b);
    }
  }

  lemma {:induction false} ReachAfter(t: Topology, a: RouterId, b: RouterId, c: RouterId, k: nat)
    requires Edge(t, a, b) && Reach(t, b, c, k)
    ensures Reach(t, a, c, k + 1)
  {
    assert Reach(t, a, a, 0) && Reach(t, a, b, 1);
    ReachTrans(t, a, b, c, 1, k);
  }

  // ---------------------------------------------------------------- one router's result

  /** What router `our` works on and comes to: its database, marks and, for one subnet, its wrapper. */
  datatype Local = Local(t: Topology, m: Marks, done: set<RouterId>, run: nat, ids: seq<RouterId>, w: Wrapper)

  ghost predicate Computed(our: RouterId, loc: Local) {
    && Finished(loc.t, our, loc.m, loc.done, loc.run) && ShortDistances(loc.m)
    && Forest(our, loc.m, loc.run) && loc.m.Keys == loc.t.Keys && (forall r :: r in loc.ids <==> r in loc.m)
    && loc.w in Choose(our, ListOffers(our, loc.m, loc.run, loc.t, loc.ids))
  }

  /** The least distance to an advertiser of the subnet. */
  ghost predicate NearestAt(t: Topology, our: RouterId, ip: Ip, mask: Ip, d: nat) {
    && (exists r :: Advertised(t, r, ip, mask) && Reach(t, our, r, d))
    && (forall r, k :: Advertised(t, r, ip, mask) && Reach(t, our, r, k) ==> d <= k)
  }

  lemma CoversIs(w: Wrapper, l: Link)
    ensures Covers(w, l) <==> OnSubnet(l, w.ip, w.mask)
  {
  }

  /** The wrapper of a subnet that can be reached holds the least distance, and its next hop is one hop closer. */
  lemma ComputedIsNearest(our: RouterId, loc: Local)
    requires Computed(our, loc) && loc.w.distance < WORD16 - 1
    ensures NearestAt(loc.t, our, loc.w.ip, loc.w.mask, loc.w.distance)
    ensures loc.w.distance == 0 <==> loc.w.direct
    ensures loc.w.distance > 0 ==>
              && Edge(loc.t, our, loc.w.nextRid)
              && exists r :: Advertised(loc.t, r, loc.w.ip, loc.w.mask) && Reach(loc.t, loc.w.nextRid, r, loc.w.distance - 1)
  {
    hide Finished, Forest, ListOffers, Choose, Nearest, Edge, Reach, Covers, OnSubnet, ShortDistances;
    var t, m, w := loc.t, loc.m, loc.w;
    WrapperIsNearest(t, our, m, loc.done, loc.run, loc.ids, w);
    var r, l :| Nearest(t, our, m, w, r, l);
    NearestReaches(t, our, m, loc.done, loc.run, w, r, l);
    forall x, k | Advertised(t, x, w.ip, w.mask) && Reach(t, our, x, k) ensures w.distance <= k {
      NearestIsLeast(t, our, m, loc.done, loc.run, w, r, l, x, k);
    }
  }

  lemma NearestReaches(t: Topology, our: RouterId, m: Marks, done: set<RouterId>, run: nat, w: Wrapper, r: RouterId, l: Link)
    requires Finished(t, our, m, done, run) && m.Keys == t.Keys && Nearest(t, our, m, w, r, l) && w.distance < WORD16 - 1
    ensures Advertised(t, r, w.ip, w.mask) && Reach(t, our, r, w.distance) && m[r].distance == w.distance
    ensures w.distance == 0 <==> w.direct
    ensures w.distance > 0 ==> Edge(t, our, w.nextRid) && Reach(t, w.nextRid, r, w.distance - 1)
  {
    hide Finished, Edge, Reach, Covers, OnSubnet, NoneCloser;
    CoversIs(w, l);
    DistancesAreExact(t, our, m, done, run, r);
  }

  lemma NearestIsLeast(t: Topology, our: RouterId, m: Marks, done: set<RouterId>, run: nat, w: Wrapper, r: RouterId, l: Link,
                       x: RouterId, k: nat)
    requires Finished(t, our, m, done, run) && m.Keys == t.Keys && Nearest(t, our, m, w, r, l) && w.distance < WORD16 - 1
    requires m[r].distance == w.distance && Advertised(t, x, w.ip, w.mask) && Reach(t, our, x, k)
    ensures w.distance <= k
  {
    hide Finished, Edge, Reach, Covers, OnSubnet;
    var kx :| kx in t[x] && OnSubnet(kx, w.ip, w.mask);
    CoversIs(w, kx);
    DistancesAreExact(t, our, m, done, run, x);
  }

  /** A reachable subnet gets a wrapper with a real distance. */
  lemma ReachableIsFinite(our: RouterId, loc: Local, r: RouterId, k: nat)
    requires Computed(our, loc) && Advertised(loc.t, r, loc.w.ip, loc.w.mask) && Reach(loc.t, our, r, k)
    ensures loc.w.distance < WORD16 - 1
  {
    hide Finished, Forest, ListOffers, Choose, Edge, Reach, Covers, OnSubnet, IsDistance;
    var t, m, w := loc.t, loc.m, loc.w;
    WrapperIsNearest(t, our, m, loc.done, loc.run, loc.ids, w);
    var x, l :| Nearest(t, our, m, w, x, l);
    var kr :| kr in t[r] && OnSubnet(kr, w.ip, w.mask);
    CoversIs(w, kr);
    DistancesAreExact(t, our, m, loc.done, loc.run, r);
    DistancesAreExact(t, our, m, loc.done, loc.run, x);
  }

  // ---------------------------------------------------------------- one hop

  /** At the next hop the distance is exactly one less. */
  lemma HopLowersDistance(our: RouterId, here: Local, next: RouterId, there: Local)
    requires Computed(our, here) && 0 < here.w.distance < WORD16 - 1 && next == here.w.nextRid
    requires Computed(next, there) && SameGraph(here.t, there.t)
    requires there.w.ip == here.w.ip && there.w.mask == here.w.mask
    ensures there.w.distance == here.w.distance - 1
  {
    hide Computed, Edge, Reach, Advertised;
    var d, ip, mask := here.w.distance, here.w.ip, here.w.mask;
    ComputedIsNearest(our, here);
    var r :| Advertised(here.t, r, ip, mask) && Reach(here.t, next, r, d - 1);
    SameReach(here.t, there.t, next, r, d - 1);
    ReachableIsFinite(next, there, r, d - 1);
    ComputedIsNearest(next, there);
    var x :| Advertised(there.t, x, ip, mask) && Reach(there.t, next, x, there.w.distance);
    SameGraphBack(here.t, there.t);
    SameReach(there.t, here.t, next, x, there.w.distance);
    ReachAfter(here.t, our, next, x, there.w.distance);
  }

  lemma SameGraphBack(t: Topology, t': Topology)
    requires SameGraph(t, t')
    ensures SameGraph(t', t)
  {
    hide Edge, Advertised;
  }

  // ---------------------------------------------------------------- the whole way

  /** All routers have computed their wrapper for the same subnet, on one graph. */
  ghost predicate Settled(net: map<RouterId, Local>, t: Topology, ip: Ip, mask: Ip) {
    && t.Keys == net.Keys
    && forall u :: u in net ==>
         Computed(u, net[u]) && SameGraph(t, net[u].t) && net[u].w.ip == ip && net[u].w.mask == mask
  }

  /** Where a packet is after `k` hops. */
  function Position(net: map<RouterId, Local>, u: RouterId, k: nat): RouterId
    decreases k
  {
    if k == 0 || u !in net then u else Position(net, net[u].w.nextRid, k - 1)
  }

  /** How far router `u` says the subnet is. */
  function Distance(net: map<RouterId, Local>, u: RouterId): nat {
    if u in net then net[u].w.distance else 0
  }

  function NextHop(net: map<RouterId, Local>, u: RouterId): RouterId {
    if u in net then net[u].w.nextRid else u
  }

  lemma NextIsKnown(net: map<RouterId, Local>, t: Topology, ip: Ip, mask: Ip, u: RouterId)
    requires Settled(net, t, ip, mask) && u in net && 0 < Distance(net, u) < WORD16 - 1
    ensures NextHop(net, u) in net && Edge(t, u, NextHop(net, u))
    ensures Distance(net, NextHop(net, u)) == Distance(net, u) - 1
  {
    hide Computed, Reach, Advertised;
    var n := net[u].w.nextRid;
    ComputedIsNearest(u, net[u]);
    assert Edge(t, u, n) && n in t;
    SameGraphBack(t, net[u].t);
    SameGraphTrans(net[u].t, t, net[n].t);
    HopLowersDistance(u, net[u], n, net[n]);
  }

  lemma SameGraphTrans(a: Topology, b: Topology, c: Topology)
    requires SameGraph(a, b) && SameGraph(b, c)
    ensures SameGraph(a, c)
  {
    hide Edge, Advertised;
  }

  /** The packet has arrived at a router that is on the subnet itself. */
  predicate Arrived(net: map<RouterId, Local>, t: Topology, ip: Ip, mask: Ip, u: RouterId) {
    u in net && net[u].w.direct && Advertised(t, u, ip, mask)
  }

  /**
   Delivery without loops. From any router whose wrapper has a real distance d, the packet is d - k hops away
   from a nearest advertiser after k hops, each over an active link, and after d hops it is at one.
   */
  lemma {:induction false} FollowsDown(net: map<RouterId, Local>, t: Topology, ip: Ip, mask: Ip, u: RouterId, k: nat)
    requires Settled(net, t, ip, mask) && u in net && k <= Distance(net, u) < WORD16 - 1
    ensures Position(net, u, k) in net && Distance(net, Position(net, u, k)) == Distance(net, u) - k
    ensures k < Distance(net, u) ==> Edge(t, Position(net, u, k), Position(net, u, k + 1))
    ensures k == Distance(net, u) ==> Arrived(net, t, ip, mask, Position(net, u, k))
    decreases k
  {
    hide Settled, Edge, Advertised, Arrived;
    if k == 0 {
      if Distance(net, u) > 0 {
        NextIsKnown(net, t, ip, mask, u);
      } else {
        ArrivedIsAdvertiser(net, t, ip, mask, u);
      }
    } else {
      NextIsKnown(net, t, ip, mask, u);
      FollowsDown(net, t, ip, mask, NextHop(net, u), k - 1);
    }
  }

  lemma ArrivedIsAdvertiser(net: map<RouterId, Local>, t: Topology, ip: Ip, mask: Ip, u: RouterId)
    requires Settled(net, t, ip, mask) && u in net && Distance(net, u) == 0
    ensures Arrived(net, t, ip, mask, u)
  {
    hide Computed, Edge, Advertised;
    ComputedIsNearest(u, net[u]);
    var r :| Advertised(net[u].t, r, ip, mask) && Reach(net[u].t, u, r, 0);
    assert r == u;
  }

  /** No router is visited twice on the way. */
  lemma NoLoops(net: map<RouterId, Local>, t: Topology, ip: Ip, mask: Ip, u: RouterId, j: nat, k: nat)
    requires Settled(net, t, ip, mask) && u in net && j < k <= Distance(net, u) < WORD16 - 1
    ensures Position(net, u, j) != Position(net, u, k)
  {
    hide Settled, Position;
    FollowsDown(net, t, ip, mask, u, j);
    FollowsDown(net, t, ip, mask, u, k);
  }

  /** The entry a router installs leads to the next router of that way. */
  lemma GatewayFollows(net: map<RouterId, Local>, t: Topology, ip: Ip, mask: Ip, u: RouterId, s: Hello.State)
    requires Settled(net, t, ip, mask) && u in net && 0 < Distance(net, u) < WORD16 - 1
    requires Hello.Mirror(s) && u in net[u].t && s.links == net[u].t[u]
    ensures var e := Resolve(s.ifaces, net[u].w);
            e.Entry? && e.route.ip == ip && e.route.mask == mask && Via(s.ifaces, e.route, NextHop(net, u))
  {
    hide Finished, Forest, ListOffers, Choose, SameGraph, Hello.Mirror, Resolve, Via, Nearest, Reach, ShortDistances;
    var loc := net[u];
    GatewayIsFirstHop(loc.t, u, loc.m, loc.done, loc.run, loc.ids, s, loc.w);
    EntryIsFor(s.ifaces, loc.w);
  }

  lemma EntryIsFor(ifaces: seq<Iface>, w: Wrapper)
    ensures Resolve(ifaces, w).Entry? ==> Resolve(ifaces, w).route.ip == w.ip && Resolve(ifaces, w).route.mask == w.mask
  {
    hide Serves, Hears;
  }
}
