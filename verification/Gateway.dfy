/**
 The end of compute_rtable: a wrapped route becomes a table entry once its outgoing interface and,
 for a remote subnet, the address of the neighbour that is the first hop have been found.
 */
module Gateway {
  import opened Net
  import opened ShortestPath
  import opened RouteSelection
  import Hello

  /** What becomes of a wrapper: an entry, nothing, or the failure of `assert(nbr)`. */
  datatype Resolution = Entry(route: Route) | Skip | Abort

  /** Position of the first interface with neighbour `rid`, or the length of the list. */
  function PortOf(ifaces: seq<Iface>, rid: RouterId): (k: nat)
    ensures k <= |ifaces|
    ensures k < |ifaces| ==> Hears(ifaces[k], rid)
    ensures forall j :: 0 <= j < k ==> !Hears(ifaces[j], rid)
  {
    if ifaces == [] || Hears(ifaces[0], rid) then 0 else 1 + PortOf(ifaces[1..], rid)
  }

  predicate Hears(i: Iface, rid: RouterId) {
    exists b :: b in i.nbrs && b.rid == rid
  }

  /** The first neighbour of `i` with id `rid`, or the length of the list. */
  function NbrOf(nbrs: seq<Nbr>, rid: RouterId): (k: nat)
    ensures k <= |nbrs|
    ensures k < |nbrs| ==> nbrs[k].rid == rid
    ensures forall j :: 0 <= j < k ==> nbrs[j].rid != rid
  {
    if nbrs == [] || nbrs[0].rid == rid then 0 else 1 + NbrOf(nbrs[1..], rid)
  }

  predicate Serves(i: Iface, w: Wrapper) {
    i.Subnet() == w.ip && i.mask == w.mask
  }

  function SubnetPort(ifaces: seq<Iface>, w: Wrapper): (k: nat)
    ensures k <= |ifaces|
    ensures k < |ifaces| ==> Serves(ifaces[k], w)
    ensures forall j :: 0 <= j < k ==> !Serves(ifaces[j], w)
  {
    if ifaces == [] || Serves(ifaces[0], w) then 0 else 1 + SubnetPort(ifaces[1..], w)
  }

  /** The outgoing interface: the one that hears the next hop, else the one on the subnet. */
  function Port(ifaces: seq<Iface>, w: Wrapper): (k: nat)
    ensures k <= |ifaces|
  {
    var k := if w.nextRid == 0 then |ifaces| else PortOf(ifaces, w.nextRid);
    if k < |ifaces| then k else SubnetPort(ifaces, w)
  }

  function Resolve(ifaces: seq<Iface>, w: Wrapper): Resolution {
    var k := Port(ifaces, w);
    if k == |ifaces| then
      Skip
    else
      var i := ifaces[k];
      if w.direct then
        Entry(Route(w.ip, 0, w.mask, i.name, false, true))
      else
        var b := NbrOf(i.nbrs, w.nextRid);
        if b == |i.nbrs| then Abort else Entry(Route(w.ip, i.nbrs[b].ip, w.mask, i.name, false, true))
  }

  // ---------------------------------------------------------------- the code

  /** get_iface_by_rid. */
  method GetIfaceByRid(rid: RouterId, ifaces: seq<Iface>) returns (k: nat)
    ensures k == if rid == 0 then |ifaces| else PortOf(ifaces, rid)
  {
    if rid == 0 {
      return |ifaces|;
    }
    k := 0;
    while k < |ifaces|
      invariant k <= |ifaces|
      invariant forall j :: 0 <= j < k ==> !Hears(ifaces[j], rid)
    {
      var b := GetNbrByRid(ifaces[k], rid);
      if b < |ifaces[k].nbrs| {
        assert Hears(ifaces[k], rid);
        return;
      }
      k := k + 1;
    }
  }

  /** get_nbr_by_rid. */
  method GetNbrByRid(i: Iface, rid: RouterId) returns (b: nat)
    ensures b == NbrOf(i.nbrs, rid)
  {
    b := 0;
    while b < |i.nbrs| && i.nbrs[b].rid != rid
      invariant b <= |i.nbrs|
      invariant forall j :: 0 <= j < b ==> i.nbrs[j].rid != rid
    {
      b := b + 1;
    }
  }

  /** get_iface_by_subnet_mask. */
  method GetIfaceBySubnetMask(ifaces: seq<Iface>, w: Wrapper) returns (k: nat)
    ensures k == SubnetPort(ifaces, w)
  {
    hide Serves;
    k := 0;
    while k < |ifaces| && !Serves(ifaces[k], w)
      invariant k <= |ifaces|
      invariant forall j :: 0 <= j < k ==> !Serves(ifaces[j], w)
    {
      k := k + 1;
    }
  }

  /** The entries of the wrappers that have one, in order. */
  function Entries(ifaces: seq<Iface>, ws: seq<Wrapper>): seq<Route> {
    if ws == [] then
      []
    else
      Entries(ifaces, ws[..|ws| - 1]) +
      match Resolve(ifaces, ws[|ws| - 1])
      case Entry(r) => [r]
      case _ => []
  }

  /** The unwrapping loop. `None` is a failed `assert(nbr)`. */
  method UnwrapRoutes(ws: seq<Wrapper>, ifaces: seq<Iface>) returns (routes: Option<seq<Route>>)
    ensures routes.None? <==> exists w :: w in ws && Resolve(ifaces, w).Abort?
    ensures routes.Some? ==> routes.value == Entries(ifaces, ws)
  {
    hide Serves, Hears;
    var out: seq<Route> := [];
    for j := 0 to |ws|
      invariant out == Entries(ifaces, ws[..j])
      invariant forall x :: 0 <= x < j ==> !Resolve(ifaces, ws[x]).Abort?
    {
      assert ws[..j + 1][..j] == ws[..j];
      var w := ws[j];
      var k := GetIfaceByRid(w.nextRid, ifaces);
      if k == |ifaces| {
        k := GetIfaceBySubnetMask(ifaces, w);
      }
      if k < |ifaces| {
        var gw: Ip := 0;
        if !w.direct {
          var b := GetNbrByRid(ifaces[k], w.nextRid);
          if b == |ifaces[k].nbrs| {
            assert w in ws && Resolve(ifaces, w).Abort?;
            return None;
          }
          gw := ifaces[k].nbrs[b].ip;
        }
        out := out + [Route(w.ip, gw, w.mask, ifaces[k].name, false, true)];
      }
    }
    assert ws[..|ws|] == ws;
    return Some(out);
  }

  /**
   What becomes of a wrapper, by the neighbour tables alone: it is left out if no interface hears the
   next hop or is on the subnet; and the assertion fails for a remote subnet whose next hop nobody
   hears, if some interface is on the subnet.
   */
  lemma ResolvesExactly(ifaces: seq<Iface>, w: Wrapper)
    ensures var heard := w.nextRid != 0 && exists i :: i in ifaces && Hears(i, w.nextRid);
            var p := SubnetPort(ifaces, w);
            && (Resolve(ifaces, w).Skip? <==> !heard && forall i :: i in ifaces ==> !Serves(i, w))
            && (Resolve(ifaces, w).Abort? <==>
                !w.direct && !heard && p < |ifaces| && forall b :: b in ifaces[p].nbrs ==> b.rid != w.nextRid)
  {
    hide Serves, Hears;
    var k := PortOf(ifaces, w.nextRid);
    assert k < |ifaces| ==> ifaces[k] in ifaces;
    var p := SubnetPort(ifaces, w);
    assert p < |ifaces| ==> ifaces[p] in ifaces;
    if w.nextRid != 0 && k < |ifaces| {
      HeardIsFound(ifaces[k], w.nextRid);
    } else if p < |ifaces| {
      FoundIsListed(ifaces[p].nbrs, w.nextRid);
    }
  }

  lemma HeardIsFound(i: Iface, rid: RouterId)
    requires Hears(i, rid)
    ensures NbrOf(i.nbrs, rid) < |i.nbrs|
  {
    var b :| b in i.nbrs && b.rid == rid;
  }

  lemma FoundIsListed(nbrs: seq<Nbr>, rid: RouterId)
    ensures NbrOf(nbrs, rid) == |nbrs| <==> forall b :: b in nbrs ==> b.rid != rid
  {
    var k := NbrOf(nbrs, rid);
    assert k < |nbrs| ==> nbrs[k] in nbrs;
  }

  // ---------------------------------------------------------------- soundness

  /** A neighbour we advertise is a neighbour some interface hears. */
  lemma AdvertisedIsHeard(s: Hello.State, l: Link)
    requires Hello.Mirror(s) && l in s.links && l.rid != 0
    ensures PortOf(s.ifaces, l.rid) < |s.ifaces|
  {
    hide Hello.On, Hello.LinkBag, Hello.NbrBag, Hello.DistinctSubnets;
    assert Hello.OnSomePort(l, s.ifaces);
    var k :| 0 <= k < |s.ifaces| && Hello.On(l, s.ifaces[k]);
    Hello.LinkBagMember(s.links, s.ifaces[k], l.rid);
    var j :| 0 <= j < |s.links| && s.links[j] == l;
    assert Hello.MirrorsPort(s.links, s.ifaces[k]);
    Hello.NbrBagMember(s.ifaces[k].nbrs, l.rid);
  }

  /** Every interface subnet is among our own links. */
  lemma PortIsAdvertised(s: Hello.State, k: nat, w: Wrapper)
    requires Hello.Mirror(s) && k < |s.ifaces| && Serves(s.ifaces[k], w)
    ensures exists l :: l in s.links && Covers(w, l)
  {
    Hello.MirrorPopulates(s);
    var i := s.ifaces[k];
    assert |Hello.LinkBag(s.links, i)| > 0;
    var j := Hello.FirstAny(s.links, i);
    if j == |s.links| { Hello.EmptyBag(s.links, i); }
    var l := s.links[j];
    assert (i.ip & i.mask) & i.mask == i.ip & i.mask;
    assert Covers(w, l);
  }

  /** A direct wrapper comes from one of our own links, and only from those. */
  lemma DirectIsOurs(t: Topology, our: RouterId, m: Marks, w: Wrapper, l: Link)
    requires our in m && our in t && m[our].distance == 0 && l in t[our] && Covers(w, l)
    requires exists r, k :: Nearest(t, our, m, w, r, k)
    ensures w.direct
  {
    hide Covers, Edge, Reach, IsDistance;
    var r, k :| Nearest(t, our, m, w, r, k);
    assert m[r].distance <= m[our].distance;
  }

  lemma RemoteNextHop(t: Topology, our: RouterId, m: Marks, w: Wrapper)
    requires exists r, k :: Nearest(t, our, m, w, r, k)
    requires 0 < w.distance < WORD16 - 1
    ensures !w.direct && Edge(t, our, w.nextRid)
  {
    hide Covers, Edge, Reach, IsDistance, NoneCloser;
    var r, k :| Nearest(t, our, m, w, r, k);
  }

  /** `assert(nbr)` cannot fail while our links mirror the neighbour tables. */
  lemma NeverAborts(t: Topology, our: RouterId, m: Marks, s: Hello.State, w: Wrapper)
    requires our in m && our in t && m[our].distance == 0
    requires Hello.Mirror(s) && s.links == t[our]
    requires exists r, k :: Nearest(t, our, m, w, r, k)
    ensures !Resolve(s.ifaces, w).Abort?
  {
    hide Nearest, Covers, Serves, Hello.Mirror;
    var k := Port(s.ifaces, w);
    if k < |s.ifaces| {
      if w.nextRid != 0 && PortOf(s.ifaces, w.nextRid) < |s.ifaces| {
        var b :| b in s.ifaces[k].nbrs && b.rid == w.nextRid;
      } else {
        PortIsAdvertised(s, k, w);
        var l :| l in s.links && Covers(w, l);
        DirectIsOurs(t, our, m, w, l);
      }
    }
  }

  /** The neighbour behind an entry: heard on the outgoing interface, at the gateway address. */
  predicate Via(ifaces: seq<Iface>, route: Route, rid: RouterId) {
    exists i, b :: i in ifaces && b in i.nbrs && b.rid == rid && route.iface == i.name && route.gw == b.ip
  }

  lemma {:induction false} RemoteResolves(ifaces: seq<Iface>, w: Wrapper)
    requires !w.direct && w.nextRid != 0 && PortOf(ifaces, w.nextRid) < |ifaces|
    ensures Resolve(ifaces, w).Entry? && Via(ifaces, Resolve(ifaces, w).route, w.nextRid)
    ensures Resolve(ifaces, w).route.ip == w.ip && Resolve(ifaces, w).route.mask == w.mask
  {
    hide Serves;
    var i := ifaces[PortOf(ifaces, w.nextRid)];
    var x :| x in i.nbrs && x.rid == w.nextRid;
    var b := NbrOf(i.nbrs, w.nextRid);
    assert i in ifaces && b < |i.nbrs| && i.nbrs[b] in i.nbrs;
  }

  /**
   Gateway soundness. While our links mirror the neighbour tables, `assert(nbr)` never fires, and
   the route to a subnet whose nearest advertiser is a reachable remote router goes through a
   neighbour that is currently heard and that is the first hop of a shortest path to it.
   */
  lemma GatewayIsFirstHop(t: Topology, our: RouterId, m: Marks, done: set<RouterId>, run: nat, ids: seq<RouterId>,
                          s: Hello.State, w: Wrapper)
    requires Finished(t, our, m, done, run) && ShortDistances(m)
    requires Forest(our, m, run) && m.Keys == t.Keys && (forall r :: r in ids <==> r in m)
    requires w in Choose(our, ListOffers(our, m, run, t, ids))
    requires Hello.Mirror(s) && our in t && s.links == t[our]
    ensures !Resolve(s.ifaces, w).Abort?
    ensures 0 < w.distance < WORD16 - 1 ==>
              && Resolve(s.ifaces, w).Entry?
              && Via(s.ifaces, Resolve(s.ifaces, w).route, w.nextRid)
              && exists r, l :: Nearest(t, our, m, w, r, l) && r != our && Reach(t, w.nextRid, r, w.distance - 1)
  {
    hide Finished, Forest, ListOffers, Choose, Nearest, Hello.Mirror, Resolve, Via, Reach, Edge, Port;
    WrapperIsNearest(t, our, m, done, run, ids, w);
    FinishedParts(t, our, m, done, run);
    DistancesAreExact(t, our, m, done, run, our);
    NeverAborts(t, our, m, s, w);
    if 0 < w.distance < WORD16 - 1 {
      RemoteNextHop(t, our, m, w);
      var l := NamedLink(t, our, w.nextRid);
      AdvertisedIsHeard(s, l);
      RemoteResolves(s.ifaces, w);
      RemoteAdvertiser(t, our, m, w);
    }
  }

  lemma NamedLink(t: Topology, u: RouterId, v: RouterId) returns (l: Link)
    requires Edge(t, u, v) && 0 !in t
    ensures u in t && l in t[u] && l.rid == v && v != 0
  {
    l :| l in t[u] && l.active && l.rid == v;
  }

  lemma RemoteAdvertiser(t: Topology, our: RouterId, m: Marks, w: Wrapper)
    requires exists r, k :: Nearest(t, our, m, w, r, k)
    requires 0 < w.distance < WORD16 - 1
    ensures exists r, l :: Nearest(t, our, m, w, r, l) && r != our && Reach(t, w.nextRid, r, w.distance - 1)
  {
    hide Covers, Edge, Reach, IsDistance, NoneCloser;
    var r, k :| Nearest(t, our, m, w, r, k);
  }

  // ---------------------------------------------------------------- unreachable subnets

  /**
   A subnet that no reachable router advertises is nevertheless installed, exactly if the next hop that
   an earlier run, or the advertiser's own link, left behind is a neighbour we hear at present.
   */
  lemma UnreachableResolves(t: Topology, our: RouterId, m: Marks, s: Hello.State, w: Wrapper)
    requires our in m && our in t && m[our].distance == 0
    requires Hello.Mirror(s) && s.links == t[our]
    requires (exists r, k :: Nearest(t, our, m, w, r, k)) && w.distance == WORD16 - 1 && !w.direct
    ensures Resolve(s.ifaces, w).Entry? <==> w.nextRid != 0 && PortOf(s.ifaces, w.nextRid) < |s.ifaces|
    ensures Resolve(s.ifaces, w).Entry? ==> Via(s.ifaces, Resolve(s.ifaces, w).route, w.nextRid)
  {
    hide Nearest, Covers, Serves, Hello.Mirror, Hears, Via;
    if w.nextRid != 0 && PortOf(s.ifaces, w.nextRid) < |s.ifaces| {
      RemoteResolves(s.ifaces, w);
    } else if SubnetPort(s.ifaces, w) < |s.ifaces| {
      PortIsAdvertised(s, SubnetPort(s.ifaces, w), w);
      var l :| l in s.links && Covers(w, l);
      DirectIsOurs(t, our, m, w, l);
    }
  }

  /** So it happens: a wrapper at the unreached distance whose next hop we hear becomes a route through it. */
  lemma UnreachableInstalled()
    ensures var i := Iface("eth0", 0x0A000001, 0xFFFFFF00, true, [Nbr(7, 0x0A000002, 0)]);
            var s := Hello.State([i], [Link(0x0A000000, 0xFFFFFF00, 7, true)], 5);
            var w := Wrapper(0x0B000000, 0xFFFFFF00, WORD16 - 1, 7, false);
            && Hello.Mirror(s)
            && Resolve(s.ifaces, w) == Entry(Route(0x0B000000, 0x0A000002, 0xFFFFFF00, "eth0", false, true))
  {
    var i := Iface("eth0", 0x0A000001, 0xFFFFFF00, true, [Nbr(7, 0x0A000002, 0)]);
    var l := Link(0x0A000000, 0xFFFFFF00, 7, true);
    OnePortMirrors(i, l, 7);
    assert i.nbrs[0] in i.nbrs && Hears(i, 7);
  }

  /** A single interface with one neighbour is mirrored by the link that names it. */
  lemma OnePortMirrors(i: Iface, l: Link, rid: RouterId)
    requires |i.nbrs| == 1 && i.nbrs[0].rid == rid && l.rid == rid && Hello.On(l, i)
    ensures Hello.Mirror(Hello.State([i], [l], 5))
  {
    hide Hello.On;
    assert [l][..0] == [] && i.nbrs[..0] == [] && [i][0] == i;
    assert Hello.LinkBag([], i) == multiset{} && Hello.NbrBag([]) == multiset{};
    assert Hello.OnSomePort(l, [i]);
  }

  // ---------------------------------------------------------------- directly connected subnets

  /**
   A directly connected subnet whose link names neighbour `w.nextRid` is installed on its own
   interface exactly if no earlier interface hears that neighbour too; otherwise it leaves through
   the first of those that do.
   */
  lemma DirectRouteInterface(s: Hello.State, w: Wrapper, l: Link)
    requires Hello.Mirror(s) && l in s.links && Covers(w, l) && l.rid == w.nextRid && w.direct
    ensures var p, e := SubnetPort(s.ifaces, w), Resolve(s.ifaces, w);
            var own := w.nextRid == 0 || forall j :: 0 <= j < p ==> !Hears(s.ifaces[j], w.nextRid);
            && p < |s.ifaces| && Port(s.ifaces, w) < |s.ifaces| && e.Entry? && e.route.gw == 0
            && (Serves(s.ifaces[Port(s.ifaces, w)], w) <==> own)
            && (own ==> e.route.iface == s.ifaces[p].name)
            && (!own ==> exists q :: FirstHears(s.ifaces, w.nextRid, q) && q < p && e.route.iface == s.ifaces[q].name)
  {
    hide Hello.LinkBag, Hello.NbrBag, Serves, Covers, Hello.On, Hears;
    assert Hello.OnSomePort(l, s.ifaces);
    var k :| 0 <= k < |s.ifaces| && Hello.On(l, s.ifaces[k]);
    OnIsServes(l, s.ifaces[k], w);
    var p := SubnetPort(s.ifaces, w);
    ServesOnce(s.ifaces, w, p, k);
    DirectName(s.ifaces, w);
    if w.nextRid != 0 {
      HeardOnItsPort(s, l, p);
      var q := PortOf(s.ifaces, w.nextRid);
      if Serves(s.ifaces[q], w) { ServesOnce(s.ifaces, w, p, q); }
      assert FirstHears(s.ifaces, w.nextRid, q);
    }
  }

  /** Interface `q` is the first that hears the router. */
  predicate FirstHears(ifaces: seq<Iface>, rid: RouterId, q: int) {
    0 <= q < |ifaces| && Hears(ifaces[q], rid) && forall j :: 0 <= j < q ==> !Hears(ifaces[j], rid)
  }

  lemma DirectName(ifaces: seq<Iface>, w: Wrapper)
    requires w.direct && Port(ifaces, w) < |ifaces|
    ensures Resolve(ifaces, w).Entry? && Resolve(ifaces, w).route.gw == 0
    ensures Resolve(ifaces, w).route.iface == ifaces[Port(ifaces, w)].name
  {
    hide Port;
  }

  lemma OnIsServes(l: Link, i: Iface, w: Wrapper)
    requires Hello.On(l, i) && Covers(w, l)
    ensures Serves(i, w)
  {
    assert (i.ip & i.mask) & i.mask == i.ip & i.mask;
  }

  lemma ServesOnce(ifaces: seq<Iface>, w: Wrapper, p: nat, k: nat)
    requires Hello.DistinctSubnets(ifaces) && p < |ifaces| && k < |ifaces|
    requires Serves(ifaces[p], w) && Serves(ifaces[k], w)
    ensures p == k
  {
    if p != k { Hello.PortsDiffer(ifaces, p, k); }
  }

  lemma HeardOnItsPort(s: Hello.State, l: Link, k: nat)
    requires Hello.Mirror(s) && l in s.links && l.rid != 0 && k < |s.ifaces| && Hello.On(l, s.ifaces[k])
    ensures Hears(s.ifaces[k], l.rid)
  {
    hide Hello.On, Hello.LinkBag, Hello.NbrBag, Hello.DistinctSubnets;
    Hello.LinkBagMember(s.links, s.ifaces[k], l.rid);
    var j :| 0 <= j < |s.links| && s.links[j] == l;
    assert Hello.MirrorsPort(s.links, s.ifaces[k]);
    Hello.NbrBagMember(s.ifaces[k].nbrs, l.rid);
  }

  /**
   With two links to one neighbour, mirrored as they should be, the second subnet's direct route leaves
   through the first interface.
   */
  lemma ParallelLinksMisdirect()
    ensures var a := Iface("eth0", 0x0A000001, 0xFFFFFF00, true, [Nbr(7, 0x0A000002, 0)]);
            var b := Iface("eth1", 0x0B000001, 0xFFFFFF00, true, [Nbr(7, 0x0B000002, 0)]);
            var la, lb := Link(0x0A000000, 0xFFFFFF00, 7, true), Link(0x0B000000, 0xFFFFFF00, 7, true);
            var w := Wrapper(0x0B000000, 0xFFFFFF00, 0, 7, true);
            && Hello.Mirror(Hello.State([a, b], [la, lb], 5)) && Covers(w, lb) && lb.rid == w.nextRid
            && Resolve([a, b], w) == Entry(Route(0x0B000000, 0, 0xFFFFFF00, "eth0", false, true))
  {
    var a := Iface("eth0", 0x0A000001, 0xFFFFFF00, true, [Nbr(7, 0x0A000002, 0)]);
    var b := Iface("eth1", 0x0B000001, 0xFFFFFF00, true, [Nbr(7, 0x0B000002, 0)]);
    TwoPortsMirror(a, b, Link(0x0A000000, 0xFFFFFF00, 7, true), Link(0x0B000000, 0xFFFFFF00, 7, true), 7);
    assert a.nbrs[0] in a.nbrs;
    assert Hears(a, 7);
  }

  lemma TwoPortsMirror(a: Iface, b: Iface, la: Link, lb: Link, rid: RouterId)
    requires |a.nbrs| == 1 && a.nbrs[0].rid == rid && |b.nbrs| == 1 && b.nbrs[0].rid == rid && la.rid == lb.rid == rid
    requires Hello.On(la, a) && !Hello.On(la, b) && Hello.On(lb, b) && !Hello.On(lb, a) && !Hello.SamePort(a, b)
    ensures Hello.Mirror(Hello.State([a, b], [la, lb], 5))
  {
    hide Hello.On, Hello.SamePort, Hello.LinkBag;
    Hello.EmptyBag([], a);
    Hello.EmptyBag([], b);
    Hello.LinkBagAppend([], la, a);
    Hello.LinkBagAppend([], la, b);
    Hello.LinkBagAppend([la], lb, a);
    Hello.LinkBagAppend([la], lb, b);
    assert [] + [la] == [la] && [la] + [lb] == [la, lb];
    assert a.nbrs[..0] == [] && b.nbrs[..0] == [] && Hello.NbrBag([]) == multiset{};
    var ports := [a, b];
    assert ports[0] == a && ports[1] == b;
    assert Hello.OnSomePort(la, ports) && Hello.OnSomePort(lb, ports);
  }
}
