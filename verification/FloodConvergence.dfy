/**
 Flooding delivers. In a network with fixed neighbours and no way longer than 64 hops, without loss
 and time-outs, whenever nothing is in flight each router knows exactly the routers that flooding can
 reach it from, and holds the last LSU each of them sent. What flooding cannot cross is a router
 whose id is the byte-swapped id of the origin, because of the comparison in the validity check.
 */
module FloodConvergence {
  import opened Net
  import opened LinkDatabase
  import opened Pwospf
  import opened Flood

  /** The fixed interfaces of every router. */
  type Topology = map<RouterId, seq<Iface>>

  /** Interface addresses belong to the router that has them, neighbour addresses to some router. */
  ghost predicate WellWired(owner: map<Ip, RouterId>, topo: Topology) {
    forall n, src, dst :: n in topo && Neighbour(topo[n], src, dst) ==>
      src in owner && owner[src] == n && dst in owner && owner[dst] in topo
  }

  predicate OnTopology(topo: Topology, s: Network) {
    && topo.Keys == s.nodes.Keys
    && forall n :: n in s.nodes ==> s.nodes[n].ifaces == topo[n]
  }

  /** The sequence number `n` has stored for `o`, or -1. */
  function SeqOf(n: Node, o: RouterId): int {
    var r := Lookup(n.db, o);
    if r.Some? then r.value.seqNo else -1
  }

  /** Router `n` has heard LSU number `k` of `o`, or a later one. */
  predicate Has(s: Network, n: RouterId, o: RouterId, k: int)
    requires n in s.nodes
  {
    n == o || SeqOf(s.nodes[n], o) >= k
  }

  predicate InFlight(s: Network, dst: Ip, o: RouterId, k: int) {
    exists f :: f in s.flight && f.packet.dst == dst && f.packet.lsu.origin == o && f.packet.lsu.seqNo == k
  }

  ghost predicate Adjacent(owner: map<Ip, RouterId>, topo: Topology, a: RouterId, b: RouterId)
  {
    a in topo && exists src, dst :: Neighbour(topo[a], src, dst) && dst in owner && owner[dst] == b
  }

  /** A way from `o` along neighbours that all look at LSUs of `o`. */
  ghost predicate Chain(owner: map<Ip, RouterId>, topo: Topology, o: RouterId, path: seq<RouterId>) {
    && |path| > 0 && path[0] == o
    && (forall k :: 0 <= k < |path| ==> path[k] in topo)
    && (forall k :: 0 < k < |path| ==> Adjacent(owner, topo, path[k - 1], path[k]))
    && (forall k :: 0 < k < |path| ==> Accepts(path[k], o))
  }

  ghost predicate Linked(owner: map<Ip, RouterId>, topo: Topology, o: RouterId, n: RouterId) {
    exists path :: Chain(owner, topo, o, path) && path[|path| - 1] == n
  }

  predicate Distinct(path: seq<RouterId>) {
    forall i, j :: 0 <= i < j < |path| ==> path[i] != path[j]
  }

  /** A way of at most 64 hops. */
  ghost predicate Within(owner: map<Ip, RouterId>, topo: Topology, o: RouterId, n: RouterId) {
    exists path :: Chain(owner, topo, o, path) && path[|path| - 1] == n && |path| <= MAX_TTL + 1
  }

  /** No way without repetitions is longer than 64 hops. */
  ghost predicate ShortChains(owner: map<Ip, RouterId>, topo: Topology) {
    forall o, path :: Chain(owner, topo, o, path) && Distinct(path) ==> |path| <= MAX_TTL + 1
  }

  /** Where a packet has been: a chain of distinct routers, one per hop, that all have its LSU. */
  ghost predicate PathOk(owner: map<Ip, RouterId>, topo: Topology, s: Network, f: Flight) {
    var m := f.packet.lsu;
    && Chain(owner, topo, m.origin, f.path)
    && Distinct(f.path)
    && |f.path| + m.ttl == MAX_TTL + 1 && m.ttl > 0
    && Neighbour(topo[f.path[|f.path| - 1]], f.packet.src, f.packet.dst)
    && (forall p :: p in f.path ==> p in s.nodes && Has(s, p, m.origin, m.seqNo))
  }

  /**
   The last LSU of `o` is at, or on its way to, every neighbour of a router that has it
   (unless that neighbour ignores `o`).
   */
  ghost predicate Covered(owner: map<Ip, RouterId>, topo: Topology, s: Network, o: RouterId)
    requires o in s.sent
  {
    forall a, src, dst ::
      && a in s.nodes && a in topo && Neighbour(topo[a], src, dst)
      && dst in owner && owner[dst] in s.nodes && Accepts(owner[dst], o)
      && s.sent[o] != [] && Has(s, a, o, |s.sent[o]| - 1) ==>
        Has(s, owner[dst], o, |s.sent[o]| - 1) || InFlight(s, dst, o, |s.sent[o]| - 1)
  }

  ghost predicate PathsOk(owner: map<Ip, RouterId>, topo: Topology, s: Network) {
    forall f :: f in s.flight ==> PathOk(owner, topo, s, f)
  }

  ghost predicate AllCovered(owner: map<Ip, RouterId>, topo: Topology, s: Network)
    requires Shaped(s)
  {
    forall o :: o in s.nodes ==> Covered(owner, topo, s, o)
  }

  /** Whoever is stored is at most 64 hops away. */
  ghost predicate KnownAreWithin(owner: map<Ip, RouterId>, topo: Topology, s: Network) {
    forall n, o :: n in s.nodes && n != o && SeqOf(s.nodes[n], o) >= 0 ==> Within(owner, topo, o, n)
  }

  /** Where LSUs have been, and what they have left behind; this needs no bound on the network. */
  ghost predicate Tracked(owner: map<Ip, RouterId>, topo: Topology, s: Network) {
    && Safe(s) && OnTopology(topo, s) && WellWired(owner, topo)
    && PathsOk(owner, topo, s) && KnownAreWithin(owner, topo, s)
  }

  ghost predicate Flooding(owner: map<Ip, RouterId>, topo: Topology, s: Network) {
    Tracked(owner, topo, s) && ShortChains(owner, topo) && AllCovered(owner, topo, s)
  }

  /** Steps without loss or time-out that leave the neighbours alone. */
  predicate Steady(s: Network, e: Event) {
    match e
    case Relink(n, ifaces, _) => n in s.nodes && ifaces == s.nodes[n].ifaces
    case Lose(_) => false
    case Expire(_, _) => false
    case _ => true
  }

  // ---------------------------------------------------------------- sequence numbers only grow

  lemma StoreSeq(n: Node, m: Lsu, o: RouterId)
    requires UniqueIds(n.db)
    ensures Store(n, m).newer <==> Accepts(n.rid, m.origin) && m.seqNo > SeqOf(n, m.origin)
    ensures SeqOf(n.(db := Store(n, m).db), o) ==
            if Store(n, m).newer && o == m.origin then m.seqNo else SeqOf(n, o)
  {
    var was := Lookup(n.db, m.origin);
    var r := Record(m.origin, m.seqNo, Reconciled(if was.Some? then was.value.links else [], m.advs));
    PutLookup(n.db, r, o);
  }

  lemma PutOwnSeq(n: Node, own: Record, o: RouterId)
    requires UniqueIds(n.db) && own.rid == n.rid && o != n.rid
    ensures SeqOf(n.(db := Put(n.db, own)), o) == SeqOf(n, o)
  {
    PutLookup(n.db, own, o);
  }

  lemma SeqBelowCount(s: Network, n: RouterId, o: RouterId)
    requires Safe(s) && n in s.nodes && n != o && SeqOf(s.nodes[n], o) >= 0
    ensures o in s.sent && SeqOf(s.nodes[n], o) < |s.sent[o]|
  {
    assert NodeOk(s.sent, s.nodes[n]);
    assert RecordOk(s.sent, Lookup(s.nodes[n].db, o).value);
  }

  /** Nobody forgets. */
  ghost predicate Ahead(s: Network, s': Network) {
    && s'.nodes.Keys == s.nodes.Keys
    && forall n, o :: n in s.nodes && n != o ==> SeqOf(s'.nodes[n], o) >= SeqOf(s.nodes[n], o)
  }

  lemma DeliverSeq(s: Network, i: nat, n: RouterId, x: RouterId, o: RouterId)
    requires Shaped(s) && i < |s.flight| && n in s.nodes && x in s.nodes
    ensures var m := s.flight[i].packet.lsu;
            var newer := Accepts(n, m.origin) && m.seqNo > SeqOf(s.nodes[n], m.origin);
            && Store(s.nodes[n], m).newer == newer
            && SeqOf(DeliverAt(s, i, n).nodes[x], o) ==
               if newer && x == n && o == m.origin then m.seqNo else SeqOf(s.nodes[x], o)
  {
    hide ListOk, Own, UniqueIds, Store, SeqOf, Forwards, Done;
    OwnRecord(s, n);
    StoreSeq(s.nodes[n], s.flight[i].packet.lsu, o);
  }

  lemma OriginateSeq(s: Network, n: RouterId, x: RouterId, o: RouterId)
    requires Shaped(s) && n in s.nodes && x in s.nodes && x != o
    ensures SeqOf(OriginateAt(s, n).nodes[x], o) == SeqOf(s.nodes[x], o)
  {
    hide ListOk, Own, SeqOf, Put, Broadcast, AdvSet, Ads, UniqueIds;
    OwnRecord(s, n);
    var own := Own(s.nodes[n]).value;
    if x == n {
      PutOwnSeq(s.nodes[n], own.(seqNo := (own.seqNo + 1) % WORD), o);
    }
  }

  lemma RelinkSeq(s: Network, n: RouterId, links: seq<Link>, x: RouterId, o: RouterId)
    requires Shaped(s) && n in s.nodes && x in s.nodes && x != o
    ensures SeqOf(RelinkAt(s, n, s.nodes[n].ifaces, links).nodes[x], o) == SeqOf(s.nodes[x], o)
  {
    hide ListOk, Own, SeqOf, Put, UniqueIds;
    OwnRecord(s, n);
    var own := Own(s.nodes[n]).value;
    assert s.nodes[n].(ifaces := s.nodes[n].ifaces) == s.nodes[n];
    if x == n {
      PutOwnSeq(s.nodes[n], own.(links := links), o);
    }
  }

  // ---------------------------------------------------------------- paths and time-to-live

  lemma {:induction false} DistinctLength(path: seq<RouterId>, ids: set<RouterId>)
    requires Distinct(path) && forall p :: p in path ==> p in ids
    ensures |path| <= |ids|
  {
    if path != [] {
      var init, last := path[..|path| - 1], path[|path| - 1];
      assert Distinct(init);
      forall p | p in init ensures p in ids - {last} { assert p in path; }
      DistinctLength(init, ids - {last});
    }
  }

  /** A network of at most 65 routers has no longer chains. */
  lemma SmallNetworksAreShort(owner: map<Ip, RouterId>, topo: Topology)
    requires |topo| <= MAX_TTL + 1
    ensures ShortChains(owner, topo)
  {
    forall o, path | Chain(owner, topo, o, path) && Distinct(path) ensures |path| <= MAX_TTL + 1 {
      DistinctLength(path, topo.Keys);
    }
  }

  /** A router that finds an LSU newer is not on its path. */
  lemma NewerMeansFresh(owner: map<Ip, RouterId>, topo: Topology, s: Network, f: Flight, n: RouterId)
    requires PathOk(owner, topo, s, f) && n in s.nodes
    requires Accepts(n, f.packet.lsu.origin) && f.packet.lsu.seqNo > SeqOf(s.nodes[n], f.packet.lsu.origin)
    ensures n !in f.path
  {
    hide SeqOf, Chain, Neighbour;
    assert n in f.path ==> Has(s, n, f.packet.lsu.origin, f.packet.lsu.seqNo);
  }

  lemma ChainExtends(owner: map<Ip, RouterId>, topo: Topology, o: RouterId, path: seq<RouterId>, n: RouterId)
    requires Chain(owner, topo, o, path) && n in topo && Accepts(n, o)
    requires Adjacent(owner, topo, path[|path| - 1], n)
    ensures Chain(owner, topo, o, path + [n])
  {
    var q := path + [n];
    forall k | 0 < k < |q|
      ensures Adjacent(owner, topo, q[k - 1], q[k]) && Accepts(q[k], o)
    {
      if k < |path| {
        assert q[k] == path[k] && q[k - 1] == path[k - 1];
      }
    }
  }

  /** A delivered packet's path extends to its receiver. */
  lemma ReceiverChain(owner: map<Ip, RouterId>, topo: Topology, s: Network, f: Flight, n: RouterId)
    requires OnTopology(topo, s) && WellWired(owner, topo) && PathOk(owner, topo, s, f)
    requires n in s.nodes && f.packet.dst in owner && owner[f.packet.dst] == n
    requires Accepts(n, f.packet.lsu.origin)
    ensures Chain(owner, topo, f.packet.lsu.origin, f.path + [n])
    ensures Within(owner, topo, f.packet.lsu.origin, n)
  {
    var last := f.path[|f.path| - 1];
    assert Neighbour(topo[last], f.packet.src, f.packet.dst);
    assert Adjacent(owner, topo, last, n);
    ChainExtends(owner, topo, f.packet.lsu.origin, f.path, n);
    assert (f.path + [n])[|f.path + [n]| - 1] == n;
  }

  lemma PathStays(owner: map<Ip, RouterId>, topo: Topology, s: Network, s': Network, f: Flight)
    requires PathOk(owner, topo, s, f) && Ahead(s, s')
    ensures PathOk(owner, topo, s', f)
  {
    forall p | p in f.path
      ensures p in s'.nodes && Has(s', p, f.packet.lsu.origin, f.packet.lsu.seqNo)
    {
      assert p in s.nodes && Has(s, p, f.packet.lsu.origin, f.packet.lsu.seqNo);
    }
  }

  // ---------------------------------------------------------------- delivery

  lemma DeliverIsAhead(s: Network, i: nat, n: RouterId)
    requires Shaped(s) && i < |s.flight| && n in s.nodes
    ensures Ahead(s, DeliverAt(s, i, n))
  {
    hide SeqOf, DeliverAt, Shaped;
    forall x, o | x in s.nodes && x != o
      ensures SeqOf(DeliverAt(s, i, n).nodes[x], o) >= SeqOf(s.nodes[x], o)
    {
      DeliverSeq(s, i, n, x, o);
    }
  }

  /** What a delivery relies on: the receiver owns the destination address. */
  ghost predicate At(owner: map<Ip, RouterId>, topo: Topology, s: Network, i: nat, n: RouterId) {
    && Shaped(s) && OnTopology(topo, s) && WellWired(owner, topo)
    && i < |s.flight| && n in s.nodes && s.flight[i].packet.dst in owner && owner[s.flight[i].packet.dst] == n
    && PathOk(owner, topo, s, s.flight[i])
  }

  lemma ForwardedAddress(owner: map<Ip, RouterId>, topo: Topology, s: Network, i: nat, n: RouterId, g: Flight)
    requires At(owner, topo, s, i, n)
    requires g in DeliverAt(s, i, n).flight && g !in Drop(s.flight, i)
    ensures var m := s.flight[i].packet.lsu;
            && Accepts(n, m.origin) && m.seqNo > SeqOf(s.nodes[n], m.origin) && m.ttl > 1
            && g.packet.lsu == m.(ttl := m.ttl - 1)
            && g.path == s.flight[i].path + [n]
            && Neighbour(topo[n], g.packet.src, g.packet.dst)
  {
    hide ListOk, SeqOf, DeliverAt, Chain, Has, WellWired, Neighbour, Store;
    ForwardedLsu(s, i, n, g);
    DeliverSeq(s, i, n, n, s.flight[i].packet.lsu.origin);
  }

  /** The forwarded copy's path: the old one and the forwarder, which now has the LSU. */
  lemma ForwardedPathOk(owner: map<Ip, RouterId>, topo: Topology, s: Network, i: nat, n: RouterId, g: Flight)
    requires At(owner, topo, s, i, n)
    requires g in DeliverAt(s, i, n).flight && g !in Drop(s.flight, i)
    ensures PathOk(owner, topo, DeliverAt(s, i, n), g)
  {
    hide ListOk, SeqOf, DeliverAt, WellWired, Neighbour, Store, Ahead, Chain;
    var s', f := DeliverAt(s, i, n), s.flight[i];
    var m := f.packet.lsu;
    ForwardedAddress(owner, topo, s, i, n, g);
    DeliverSeq(s, i, n, n, m.origin);
    NewerMeansFresh(owner, topo, s, f, n);
    ReceiverChain(owner, topo, s, f, n);
    DeliverIsAhead(s, i, n);
    PathStays(owner, topo, s, s', f);
    assert g.path[|g.path| - 1] == n;
    assert Distinct(g.path);
    forall p | p in g.path
      ensures p in s'.nodes && Has(s', p, m.origin, m.seqNo)
    {
      if p != n {
        assert p in f.path;
      }
    }
  }

  lemma DeliverPaths(owner: map<Ip, RouterId>, topo: Topology, s: Network, i: nat, n: RouterId)
    requires At(owner, topo, s, i, n) && PathsOk(owner, topo, s)
    ensures PathsOk(owner, topo, DeliverAt(s, i, n))
  {
    hide DeliverAt, PathOk, Ahead, ListOk, WellWired;
    DeliverIsAhead(s, i, n);
    forall g | g in DeliverAt(s, i, n).flight
      ensures PathOk(owner, topo, DeliverAt(s, i, n), g)
    {
      if g in Drop(s.flight, i) {
        assert g in s.flight;
        PathStays(owner, topo, s, DeliverAt(s, i, n), g);
      } else {
        ForwardedPathOk(owner, topo, s, i, n, g);
      }
    }
  }

  /** A forwarded copy goes to every neighbour but the sender. */
  lemma ForwardsReach(s: Network, i: nat, n: RouterId, src: Ip, dst: Ip)
    requires Shaped(s) && i < |s.flight| && n in s.nodes
    requires Store(s.nodes[n], s.flight[i].packet.lsu).newer && NextTtl(s.flight[i].packet.lsu.ttl) > 0
    requires Neighbour(s.nodes[n].ifaces, src, dst) && dst != s.flight[i].packet.src
    ensures InFlight(DeliverAt(s, i, n), dst, s.flight[i].packet.lsu.origin, s.flight[i].packet.lsu.seqNo)
  {
    hide ListOk, Store, NextTtl, Neighbour, Done;
    var f := s.flight[i];
    var fwd := f.packet.lsu.(ttl := NextTtl(f.packet.lsu.ttl));
    BroadcastMembers(s.nodes[n].ifaces, fwd, Some(f.packet.src));
    var p, out := Packet(src, dst, fwd), Forwards(s.nodes[n], f.packet);
    assert p in out;
    var k :| 0 <= k < |out| && out[k] == p;
    var g := Fly(out, f.path + [n])[k];
    assert g in DeliverAt(s, i, n).flight && g.packet == p;
  }

  /**
   A router that just learned an LSU has sent it to all its other neighbours; if there was no
   time-to-live left, its neighbours are on the path already.
   */
  lemma NewlyCovered(owner: map<Ip, RouterId>, topo: Topology, s: Network, i: nat, n: RouterId, src: Ip, dst: Ip)
    requires At(owner, topo, s, i, n) && ShortChains(owner, topo)
    requires Neighbour(topo[n], src, dst) && dst in owner && owner[dst] in s.nodes && owner[dst] != n
    requires var m := s.flight[i].packet.lsu;
             Accepts(n, m.origin) && m.seqNo > SeqOf(s.nodes[n], m.origin) && Accepts(owner[dst], m.origin)
    ensures var m := s.flight[i].packet.lsu;
            || Has(s, owner[dst], m.origin, m.seqNo)
            || InFlight(DeliverAt(s, i, n), dst, m.origin, m.seqNo)
  {
    hide ListOk, SeqOf, DeliverAt, Store, Chain, Neighbour, InFlight, ShortChains;
    var f := s.flight[i];
    if owner[dst] in f.path {
      assert Has(s, owner[dst], f.packet.lsu.origin, f.packet.lsu.seqNo);
    } else {
      SenderOnPath(owner, topo, s, f);
      TimeLeft(owner, topo, s, f, n, src, dst);
      DeliverSeq(s, i, n, n, f.packet.lsu.origin);
      ForwardsReach(s, i, n, src, dst);
    }
  }

  lemma SenderOnPath(owner: map<Ip, RouterId>, topo: Topology, s: Network, f: Flight)
    requires WellWired(owner, topo) && PathOk(owner, topo, s, f)
    ensures f.packet.src in owner && owner[f.packet.src] in f.path
  {
    hide Neighbour, Has;
    var last := f.path[|f.path| - 1];
    assert Neighbour(topo[last], f.packet.src, f.packet.dst) && last in f.path;
  }

  /** If a neighbour of the receiver is not on the path, the chain can go on, so there is time left. */
  lemma TimeLeft(owner: map<Ip, RouterId>, topo: Topology, s: Network, f: Flight, n: RouterId, src: Ip, dst: Ip)
    requires ShortChains(owner, topo) && OnTopology(topo, s) && WellWired(owner, topo) && PathOk(owner, topo, s, f)
    requires n in s.nodes && f.packet.dst in owner && owner[f.packet.dst] == n && Accepts(n, f.packet.lsu.origin)
    requires f.packet.lsu.seqNo > SeqOf(s.nodes[n], f.packet.lsu.origin)
    requires Neighbour(topo[n], src, dst) && dst in owner && owner[dst] in s.nodes
    requires Accepts(owner[dst], f.packet.lsu.origin) && owner[dst] != n && owner[dst] !in f.path
    ensures NextTtl(f.packet.lsu.ttl) > 0
  {
    hide SeqOf, Chain, Neighbour, Has, WellWired;
    var o, q := f.packet.lsu.origin, owner[dst];
    NewerMeansFresh(owner, topo, s, f, n);
    ReceiverChain(owner, topo, s, f, n);
    assert Adjacent(owner, topo, n, q) by { assert Neighbour(topo[n], src, dst); }
    assert (f.path + [n])[|f.path + [n]| - 1] == n;
    ChainExtends(owner, topo, o, f.path + [n], q);
    DistinctAppend(f.path, n);
    DistinctAppend(f.path + [n], q);
    assert |f.path + [n] + [q]| <= MAX_TTL + 1;
  }

  lemma DistinctAppend(path: seq<RouterId>, n: RouterId)
    requires Distinct(path) && n !in path
    ensures Distinct(path + [n])
  {
  }

  lemma StillInFlight(s: Network, i: nat, n: RouterId, dst: Ip, o: RouterId, k: int)
    requires Shaped(s) && i < |s.flight| && n in s.nodes && InFlight(s, dst, o, k)
    ensures var f := s.flight[i].packet;
            InFlight(DeliverAt(s, i, n), dst, o, k) || (f.dst == dst && f.lsu.origin == o && f.lsu.seqNo == k)
  {
    hide ListOk, Store, Forwards, Done;
    var g :| g in s.flight && g.packet.dst == dst && g.packet.lsu.origin == o && g.packet.lsu.seqNo == k;
    if g != s.flight[i] {
      var j :| 0 <= j < |s.flight| && s.flight[j] == g;
      assert g in Drop(s.flight, i);
      assert g in DeliverAt(s, i, n).flight;
    }
  }

  lemma DeliverCovers(owner: map<Ip, RouterId>, topo: Topology, s: Network, i: nat, n: RouterId,
                      o: RouterId, k: int, a: RouterId, src: Ip, dst: Ip)
    requires At(owner, topo, s, i, n) && ShortChains(owner, topo) && a in s.nodes && Neighbour(topo[a], src, dst)
    requires dst in owner && owner[dst] in s.nodes && Accepts(owner[dst], o)
    requires s.flight[i].packet.lsu.origin == o ==> s.flight[i].packet.lsu.seqNo <= k
    requires Has(s, a, o, k) ==> Has(s, owner[dst], o, k) || InFlight(s, dst, o, k)
    requires Has(DeliverAt(s, i, n), a, o, k)
    ensures Has(DeliverAt(s, i, n), owner[dst], o, k) || InFlight(DeliverAt(s, i, n), dst, o, k)
  {
    hide ListOk, SeqOf, DeliverAt, Store, InFlight, PathOk, WellWired, Neighbour, ShortChains;
    DeliverSeq(s, i, n, a, o);
    DeliverSeq(s, i, n, owner[dst], o);
    if Has(s, a, o, k) {
      if !Has(s, owner[dst], o, k) {
        StillInFlight(s, i, n, dst, o, k);
      }
    } else if owner[dst] != n {
      NewlyCovered(owner, topo, s, i, n, src, dst);
    }
  }

  lemma DeliverAllCovered(owner: map<Ip, RouterId>, topo: Topology, s: Network, i: nat, n: RouterId)
    requires At(owner, topo, s, i, n) && ShortChains(owner, topo) && AllCovered(owner, topo, s)
    requires s.flight[i].packet.lsu.origin in s.sent
    requires s.flight[i].packet.lsu.seqNo < |s.sent[s.flight[i].packet.lsu.origin]|
    ensures AllCovered(owner, topo, DeliverAt(s, i, n))
  {
    hide DeliverAt, Has, InFlight, WellWired, Neighbour, ListOk, PathOk, Accepts, ShortChains;
    var s' := DeliverAt(s, i, n);
    forall o, a, src, dst |
      && o in s'.nodes && a in s'.nodes && a in topo && Neighbour(topo[a], src, dst)
      && dst in owner && owner[dst] in s'.nodes && Accepts(owner[dst], o)
      && s'.sent[o] != [] && Has(s', a, o, |s'.sent[o]| - 1)
      ensures Has(s', owner[dst], o, |s'.sent[o]| - 1) || InFlight(s', dst, o, |s'.sent[o]| - 1)
    {
      assert Covered(owner, topo, s, o);
      DeliverCovers(owner, topo, s, i, n, o, |s.sent[o]| - 1, a, src, dst);
    }
  }

  lemma DeliverLinked(owner: map<Ip, RouterId>, topo: Topology, s: Network, i: nat, n: RouterId)
    requires At(owner, topo, s, i, n) && KnownAreWithin(owner, topo, s)
    ensures KnownAreWithin(owner, topo, DeliverAt(s, i, n))
  {
    hide SeqOf, DeliverAt, Within, PathOk, Store, WellWired, ListOk;
    var s', f := DeliverAt(s, i, n), s.flight[i];
    forall x, o | x in s'.nodes && x != o && SeqOf(s'.nodes[x], o) >= 0
      ensures Within(owner, topo, o, x)
    {
      DeliverSeq(s, i, n, x, o);
      if SeqOf(s.nodes[x], o) < 0 {
        ReceiverChain(owner, topo, s, f, n);
      }
    }
  }

  lemma LsuAt(s: Network, i: nat)
    requires Safe(s) && i < |s.flight|
    ensures s.flight[i].packet.lsu.origin in s.sent
    ensures s.flight[i].packet.lsu.seqNo < |s.sent[s.flight[i].packet.lsu.origin]|
  {
    assert s.flight[i] in s.flight && LsuOk(s.sent, s.flight[i].packet.lsu);
  }

  lemma DeliverTracked(owner: map<Ip, RouterId>, topo: Topology, s: Network, i: nat, n: RouterId)
    requires Tracked(owner, topo, s) && Enabled(owner, s, Deliver(i)) && n == owner[s.flight[i].packet.dst]
    ensures Tracked(owner, topo, DeliverAt(s, i, n))
  {
    hide NodesOk, FlightOk, ListOk, PathOk, KnownAreWithin, WellWired, Store, Forwards, Done;
    LsuAt(s, i);
    assert s.flight[i] in s.flight;
    DeliverIsSafe(s, i, n);
    DeliverPaths(owner, topo, s, i, n);
    DeliverLinked(owner, topo, s, i, n);
    assert OnTopology(topo, DeliverAt(s, i, n));
  }

  lemma DeliverFloods(owner: map<Ip, RouterId>, topo: Topology, s: Network, i: nat, n: RouterId)
    requires Flooding(owner, topo, s) && Enabled(owner, s, Deliver(i)) && n == owner[s.flight[i].packet.dst]
    ensures Flooding(owner, topo, DeliverAt(s, i, n))
  {
    hide NodesOk, FlightOk, ListOk, PathOk, AllCovered, KnownAreWithin, WellWired, DeliverAt, ShortChains;
    LsuAt(s, i);
    assert s.flight[i] in s.flight;
    DeliverTracked(owner, topo, s, i, n);
    DeliverAllCovered(owner, topo, s, i, n);
  }

  // ---------------------------------------------------------------- origination

  lemma OriginateIsAhead(s: Network, n: RouterId)
    requires Shaped(s) && n in s.nodes
    ensures Ahead(s, OriginateAt(s, n))
  {
    hide SeqOf, OriginateAt, Shaped;
    forall x, o | x in s.nodes && x != o
      ensures SeqOf(OriginateAt(s, n).nodes[x], o) >= SeqOf(s.nodes[x], o)
    {
      OriginateSeq(s, n, x, o);
    }
  }

  lemma OriginatePaths(owner: map<Ip, RouterId>, topo: Topology, s: Network, n: RouterId)
    requires Shaped(s) && OnTopology(topo, s) && n in s.nodes && PathsOk(owner, topo, s)
    ensures PathsOk(owner, topo, OriginateAt(s, n))
  {
    hide ListOk, Own, UniqueIds, OriginateAt, Ahead, Has, Neighbour;
    OwnRecord(s, n);
    var s', own := OriginateAt(s, n), Own(s.nodes[n]).value;
    OriginateIsAhead(s, n);
    forall g | g in s'.flight
      ensures PathOk(owner, topo, s', g)
    {
      if g in s.flight {
        PathStays(owner, topo, s, s', g);
      } else {
        OriginatedLsu(s, n, g);
        OwnHas(s', n, own.seqNo);
      }
    }
  }

  lemma OwnHas(s: Network, n: RouterId, k: int)
    requires n in s.nodes
    ensures Has(s, n, n, k)
  {
  }

  /** The new LSU is on its way to all neighbours. */
  lemma OriginateReaches(s: Network, n: RouterId, src: Ip, dst: Ip)
    requires Shaped(s) && n in s.nodes && Neighbour(s.nodes[n].ifaces, src, dst)
    ensures InFlight(OriginateAt(s, n), dst, n, Own(s.nodes[n]).value.seqNo)
  {
    hide ListOk, Own, UniqueIds, Neighbour;
    OwnRecord(s, n);
    var node, own := s.nodes[n], Own(s.nodes[n]).value;
    BroadcastMembers(node.ifaces, OwnLsu(own), None);
    var p, out := Packet(src, dst, OwnLsu(own)), Broadcast(node.ifaces, OwnLsu(own), None);
    assert p in out;
    var k :| 0 <= k < |out| && out[k] == p;
    assert Fly(out, [n])[k] in OriginateAt(s, n).flight;
  }

  /** Nobody but the originator can have an LSU that is only now being sent. */
  lemma OriginateIsNew(s: Network, n: RouterId, a: RouterId)
    requires Safe(s) && n in s.nodes && a in s.nodes && a != n
    ensures SeqOf(OriginateAt(s, n).nodes[a], n) < |s.sent[n]|
  {
    hide OriginateAt, NodesOk, SeqOf, FlightOk, ListOk;
    OriginateSeq(s, n, a, n);
    if SeqOf(s.nodes[a], n) >= 0 {
      SeqBelowCount(s, a, n);
    }
  }

  lemma OwnCount(s: Network, n: RouterId)
    requires Safe(s) && n in s.nodes
    ensures Own(s.nodes[n]).value.seqNo == |s.sent[n]|
  {
    assert NodeOk(s.sent, s.nodes[n]);
  }

  lemma OriginateOthers(s: Network, n: RouterId)
    requires Shaped(s) && n in s.nodes
    ensures var s' := OriginateAt(s, n);
            && (forall f :: f in s.flight ==> f in s'.flight)
            && s'.sent[n] != [] && |s'.sent[n]| - 1 == |s.sent[n]|
            && (forall o :: o in s.nodes && o != n ==> s'.sent[o] == s.sent[o])
  {
    hide ListOk;
  }

  lemma OriginateAllCovered(owner: map<Ip, RouterId>, topo: Topology, s: Network, n: RouterId)
    requires Safe(s) && OnTopology(topo, s) && n in s.nodes && AllCovered(owner, topo, s)
    ensures AllCovered(owner, topo, OriginateAt(s, n))
  {
    hide SeqOf, OriginateAt, NodesOk, FlightOk, Neighbour, ListOk, Own;
    var s' := OriginateAt(s, n);
    OwnCount(s, n);
    OriginateOthers(s, n);
    forall o, a, src, dst |
      && o in s'.nodes && a in s'.nodes && a in topo && Neighbour(topo[a], src, dst)
      && dst in owner && owner[dst] in s'.nodes && Accepts(owner[dst], o)
      && s'.sent[o] != [] && Has(s', a, o, |s'.sent[o]| - 1)
      ensures Has(s', owner[dst], o, |s'.sent[o]| - 1) || InFlight(s', dst, o, |s'.sent[o]| - 1)
    {
      if o == n {
        if a != n { OriginateIsNew(s, n, a); }
        OriginateReaches(s, n, src, dst);
      } else {
        assert Covered(owner, topo, s, o);
        if a != o { OriginateSeq(s, n, a, o); }
        OriginateSeq(s, n, owner[dst], o);
      }
    }
  }

  lemma OriginateLinked(owner: map<Ip, RouterId>, topo: Topology, s: Network, n: RouterId)
    requires Shaped(s) && OnTopology(topo, s) && n in s.nodes && KnownAreWithin(owner, topo, s)
    ensures KnownAreWithin(owner, topo, OriginateAt(s, n)) && OnTopology(topo, OriginateAt(s, n))
  {
    hide SeqOf, Within, ListOk, Own, UniqueIds, Put, Broadcast, AdvSet, Ads;
    OwnRecord(s, n);
    var s' := OriginateAt(s, n);
    forall x, o | x in s'.nodes && x != o && SeqOf(s'.nodes[x], o) >= 0
      ensures Within(owner, topo, o, x)
    {
      OriginateSeq(s, n, x, o);
    }
  }

  lemma OriginateTracked(owner: map<Ip, RouterId>, topo: Topology, s: Network, n: RouterId)
    requires Tracked(owner, topo, s) && n in s.nodes && |s.sent[n]| + 1 < WORD
    ensures Tracked(owner, topo, OriginateAt(s, n))
  {
    hide NodesOk, FlightOk, ListOk, PathsOk, WellWired, KnownAreWithin, OriginateAt;
    OriginateIsSafe(s, n);
    OriginatePaths(owner, topo, s, n);
    OriginateLinked(owner, topo, s, n);
  }

  // ---------------------------------------------------------------- the other steps

  lemma RelinkTracked(owner: map<Ip, RouterId>, topo: Topology, s: Network, n: RouterId, links: seq<Link>)
    requires Tracked(owner, topo, s) && n in s.nodes && MaskedLinks(links)
    ensures Tracked(owner, topo, RelinkAt(s, n, s.nodes[n].ifaces, links))
    ensures ShortChains(owner, topo) && AllCovered(owner, topo, s) ==>
              Flooding(owner, topo, RelinkAt(s, n, s.nodes[n].ifaces, links))
  {
    hide NodesOk, FlightOk, SeqOf, WellWired, ListOk, PathsOk, AllCovered, KnownAreWithin, Own, Put, MaskedLinks, UniqueIds,
      ShortChains;
    OwnRecord(s, n);
    SameOwn(s.nodes[n], s.nodes[n].ifaces);
    var s' := RelinkAt(s, n, s.nodes[n].ifaces, links);
    RelinkIsSafe(s, n, s.nodes[n].ifaces, links);
    forall x, o | x in s.nodes && x != o
      ensures SeqOf(s'.nodes[x], o) == SeqOf(s.nodes[x], o)
    {
      RelinkSeq(s, n, links, x, o);
    }
    SameSeqTracked(owner, topo, s, s');
  }

  /** The invariants see the databases only through the stored sequence numbers. */
  lemma SameSeqTracked(owner: map<Ip, RouterId>, topo: Topology, s: Network, s': Network)
    requires Tracked(owner, topo, s) && Safe(s') && OnTopology(topo, s')
    requires s'.sent == s.sent && s'.nodes.Keys == s.nodes.Keys
    requires forall f :: f in s.flight <==> f in s'.flight
    requires forall x, o :: x in s.nodes && x != o ==> SeqOf(s'.nodes[x], o) == SeqOf(s.nodes[x], o)
    ensures Tracked(owner, topo, s')
    ensures AllCovered(owner, topo, s) ==> AllCovered(owner, topo, s')
  {
    hide SeqOf, NodesOk, FlightOk, WellWired, Within, ListOk, Neighbour, Chain;
    forall f | f in s'.flight
      ensures PathOk(owner, topo, s', f)
    {
      assert Ahead(s, s');
      PathStays(owner, topo, s, s', f);
    }
    forall o | o in s'.nodes && AllCovered(owner, topo, s)
      ensures Covered(owner, topo, s', o)
    {
      SameSeqCovered(owner, topo, s, s', o);
    }
  }

  lemma SameSeqCovered(owner: map<Ip, RouterId>, topo: Topology, s: Network, s': Network, o: RouterId)
    requires o in s.sent && Covered(owner, topo, s, o)
    requires s'.sent == s.sent && s'.nodes.Keys == s.nodes.Keys
    requires forall f :: f in s.flight <==> f in s'.flight
    requires forall x :: x in s.nodes && x != o ==> SeqOf(s'.nodes[x], o) == SeqOf(s.nodes[x], o)
    ensures Covered(owner, topo, s', o)
  {
    hide SeqOf, Neighbour;
    var k := |s.sent[o]| - 1;
    forall x | x in s.nodes ensures Has(s', x, o, k) <==> Has(s, x, o, k) { }
    forall dst ensures InFlight(s', dst, o, k) <==> InFlight(s, dst, o, k) { }
  }

  lemma DuplicateTracked(owner: map<Ip, RouterId>, topo: Topology, s: Network, i: nat)
    requires Tracked(owner, topo, s) && i < |s.flight|
    ensures Tracked(owner, topo, s.(flight := s.flight + [s.flight[i]]))
    ensures AllCovered(owner, topo, s) ==> AllCovered(owner, topo, s.(flight := s.flight + [s.flight[i]]))
  {
    hide SeqOf, NodesOk, FlightOk, WellWired, ListOk, PathsOk, AllCovered, KnownAreWithin;
    ReshuffleIsSafe(s, s.flight + [s.flight[i]]);
    SameSeqTracked(owner, topo, s, s.(flight := s.flight + [s.flight[i]]));
  }

  lemma TrackedIsShaped(owner: map<Ip, RouterId>, topo: Topology, s: Network)
    requires Tracked(owner, topo, s)
    ensures Shaped(s) && Safe(s) && OnTopology(topo, s)
    ensures forall n :: n in s.nodes <==> n in s.sent
  {
  }

  /** One step, in its parts: what a receiver, or a router whose links change, does before it originates. */
  ghost function Before(owner: map<Ip, RouterId>, s: Network, e: Event): (s': Network)
    requires Shaped(s) && Enabled(owner, s, e) && Steady(s, e)
    ensures Shaped(s') && s'.nodes.Keys == s.nodes.Keys
  {
    match e
    case Deliver(i) => DeliverAt(s, i, owner[s.flight[i].packet.dst])
    case Duplicate(i) => s.(flight := s.flight + [s.flight[i]])
    case Refresh(n) => s
    case Relink(n, ifaces, links) => RelinkAt(s, n, ifaces, links)
  }

  /** The router that originates in the second part, if any. */
  function Speaker(owner: map<Ip, RouterId>, s: Network, e: Event): Option<RouterId>
    requires Shaped(s) && Enabled(owner, s, e) && Steady(s, e)
  {
    match e
    case Deliver(i) =>
      var n := owner[s.flight[i].packet.dst];
      if Store(s.nodes[n], s.flight[i].packet.lsu).changed then Some(n) else None
    case Duplicate(i) => None
    case Refresh(n) => Some(n)
    case Relink(n, _, _) => Some(n)
  }

  lemma StepInParts(owner: map<Ip, RouterId>, s: Network, e: Event)
    requires Shaped(s) && Enabled(owner, s, e) && Steady(s, e)
    ensures var mid, n := Before(owner, s, e), Speaker(owner, s, e);
            && (n.Some? ==> n.value in mid.nodes)
            && Apply(owner, s, e) == if n.Some? then OriginateAt(mid, n.value) else mid
  {
    hide ListOk, OriginateAt, DeliverAt, RelinkAt, Store, MaskedLinks;
  }

  lemma BeforeTracked(owner: map<Ip, RouterId>, topo: Topology, s: Network, e: Event)
    requires Tracked(owner, topo, s) && Enabled(owner, s, e) && Steady(s, e)
    ensures Shaped(s) && Tracked(owner, topo, Before(owner, s, e))
    ensures Flooding(owner, topo, s) ==> Flooding(owner, topo, Before(owner, s, e))
  {
    hide ListOk, Tracked, MaskedLinks, Shaped, DeliverAt, RelinkAt, ShortChains, AllCovered;
    TrackedIsShaped(owner, topo, s);
    match e
    case Deliver(i) =>
      DeliverTracked(owner, topo, s, i, owner[s.flight[i].packet.dst]);
      if Flooding(owner, topo, s) {
        DeliverFloods(owner, topo, s, i, owner[s.flight[i].packet.dst]);
      }
    case Duplicate(i) => DuplicateTracked(owner, topo, s, i);
    case Refresh(n) =>
    case Relink(n, ifaces, links) => RelinkTracked(owner, topo, s, n, links);
  }

  lemma OriginateFloods(owner: map<Ip, RouterId>, topo: Topology, s: Network, n: RouterId)
    requires Tracked(owner, topo, s) && n in s.nodes && Bounded(OriginateAt(s, n))
    ensures Tracked(owner, topo, OriginateAt(s, n))
    ensures Flooding(owner, topo, s) ==> Flooding(owner, topo, OriginateAt(s, n))
  {
    hide ListOk, NodesOk, FlightOk, PathsOk, KnownAreWithin, WellWired, OriginateAt, ShortChains, AllCovered;
    OriginateGrows(s, n);
    OriginateTracked(owner, topo, s, n);
    if Flooding(owner, topo, s) {
      OriginateAllCovered(owner, topo, s, n);
    }
  }

  /** Every steady step keeps track of where LSUs have been, and keeps the flooding invariant. */
  lemma StepFloods(owner: map<Ip, RouterId>, topo: Topology, s: Network, e: Event)
    requires Tracked(owner, topo, s) && Enabled(owner, s, e) && Steady(s, e)
    requires Bounded(Apply(owner, s, e))
    ensures Tracked(owner, topo, Apply(owner, s, e))
    ensures Flooding(owner, topo, s) ==> Flooding(owner, topo, Apply(owner, s, e))
  {
    hide ListOk, Tracked, Flooding, Shaped, Apply, OriginateAt, Before, Speaker, Enabled, Steady, Bounded;
    TrackedIsShaped(owner, topo, s);
    StepInParts(owner, s, e);
    BeforeTracked(owner, topo, s, e);
    var n := Speaker(owner, s, e);
    if n.Some? {
      OriginateFloods(owner, topo, Before(owner, s, e), n.value);
    }
  }

  // ---------------------------------------------------------------- runs

  /** A run of steady steps from `start` to `end`. */
  ghost predicate SteadyRun(owner: map<Ip, RouterId>, start: Network, events: seq<Event>, end: Network)
    requires Shaped(start)
    decreases |events|
  {
    if events == [] then
      start == end
    else
      Enabled(owner, start, events[0]) && Steady(start, events[0]) &&
      SteadyRun(owner, Apply(owner, start, events[0]), events[1..], end)
  }

  lemma {:induction false} SteadyRunIsRun(owner: map<Ip, RouterId>, s: Network, events: seq<Event>, end: Network)
    requires Shaped(s) && SteadyRun(owner, s, events, end)
    ensures Run(owner, s, events, end)
    decreases |events|
  {
    hide Apply, ListOk;
    if events != [] {
      SteadyRunIsRun(owner, Apply(owner, s, events[0]), events[1..], end);
    }
  }

  lemma InitialFloods(owner: map<Ip, RouterId>, topo: Topology, s: Network)
    requires Initial(s) && OnTopology(topo, s) && WellWired(owner, topo)
    ensures Tracked(owner, topo, s)
    ensures ShortChains(owner, topo) ==> Flooding(owner, topo, s)
  {
    hide ListOk, NodesOk, MaskedLinks, SeqOf, WellWired, Within, Neighbour, Has, InFlight, Accepts, ShortChains;
    InitialIsSafe(s);
    forall n, o | n in s.nodes && n != o ensures SeqOf(s.nodes[n], o) == -1 { InitialSeq(s, n, o); }
  }

  lemma InitialSeq(s: Network, n: RouterId, o: RouterId)
    requires Initial(s) && n in s.nodes && n != o
    ensures SeqOf(s.nodes[n], o) == -1
  {
  }

  lemma {:induction false} RunFloods(owner: map<Ip, RouterId>, topo: Topology, s: Network, events: seq<Event>, end: Network)
    requires Tracked(owner, topo, s) && SteadyRun(owner, s, events, end) && Bounded(end)
    ensures Tracked(owner, topo, end)
    ensures Flooding(owner, topo, s) ==> Flooding(owner, topo, end)
    decreases |events|
  {
    hide Apply, Tracked, Flooding, ListOk, Steady;
    TrackedIsShaped(owner, topo, s);
    if events != [] {
      var next := Apply(owner, s, events[0]);
      SteadyRunIsRun(owner, next, events[1..], end);
      RunGrows(owner, next, events[1..], end);
      StepFloods(owner, topo, s, events[0]);
      RunFloods(owner, topo, next, events[1..], end);
    }
  }

  /** The time-to-live limits the reach: nobody ever learns of a router more than 64 hops away. */
  lemma BeyondReach(owner: map<Ip, RouterId>, topo: Topology, s: Network, events: seq<Event>, end: Network,
                    n: RouterId, o: RouterId)
    requires Initial(s) && OnTopology(topo, s) && WellWired(owner, topo)
    requires SteadyRun(owner, s, events, end) && Bounded(end)
    requires n in s.nodes && n != o && !Within(owner, topo, o, n)
    ensures n in end.nodes && Lookup(end.nodes[n].db, o).None?
  {
    hide Initial, ListOk, WellWired, SteadyRun, Within, PathsOk, NodesOk, FlightOk, SeqOf, Bounded;
    InitialFloods(owner, topo, s);
    RunFloods(owner, topo, s, events, end);
    StoredIsSome(end.nodes[n], o);
  }

  /** With nothing in flight, the last LSU of `o` is everywhere along a chain. */
  lemma {:induction false} ChainHas(owner: map<Ip, RouterId>, topo: Topology, s: Network, o: RouterId,
                                    path: seq<RouterId>, k: nat)
    requires Flooding(owner, topo, s) && s.flight == [] && o in s.nodes && s.sent[o] != []
    requires Chain(owner, topo, o, path) && k < |path|
    ensures path[k] in s.nodes && Has(s, path[k], o, |s.sent[o]| - 1)
  {
    hide NodesOk, FlightOk, ListOk, PathsOk, KnownAreWithin, SeqOf, Neighbour;
    if k > 0 {
      ChainHas(owner, topo, s, o, path, k - 1);
      assert Adjacent(owner, topo, path[k - 1], path[k]) && Accepts(path[k], o);
      var src, dst :| Neighbour(topo[path[k - 1]], src, dst) && dst in owner && owner[dst] == path[k];
      assert Covered(owner, topo, s, o);
    }
  }

  lemma StoredIsLast(s: Network, n: RouterId, o: RouterId)
    requires Safe(s) && n in s.nodes && o in s.nodes && n != o && s.sent[o] != []
    requires SeqOf(s.nodes[n], o) >= |s.sent[o]| - 1
    ensures var r := Lookup(s.nodes[n].db, o);
            && r.Some? && r.value.seqNo == |s.sent[o]| - 1
            && LinkSet(r.value.links) == s.sent[o][|s.sent[o]| - 1]
  {
    assert NodeOk(s.sent, s.nodes[n]);
    assert RecordOk(s.sent, Lookup(s.nodes[n].db, o).value);
  }

  lemma StoredIsSome(n: Node, o: RouterId)
    ensures Lookup(n.db, o).Some? <==> SeqOf(n, o) >= 0
  {
  }

  /**
   Convergence. When nothing is in flight, `n` knows `o` exactly if flooding can get from `o`
   to `n`, and then it stores the links of the last LSU `o` sent.
   */
  lemma QuietMeansConverged(owner: map<Ip, RouterId>, topo: Topology, s: Network, n: RouterId, o: RouterId)
    requires Flooding(owner, topo, s) && s.flight == []
    requires n in s.nodes && o in s.nodes && n != o && s.sent[o] != []
    ensures var r := Lookup(s.nodes[n].db, o);
            && (r.Some? <==> Linked(owner, topo, o, n))
            && (r.Some? ==> r.value.seqNo == |s.sent[o]| - 1 &&
                            LinkSet(r.value.links) == s.sent[o][|s.sent[o]| - 1])
  {
    hide NodesOk, FlightOk, ListOk, PathsOk, AllCovered, SeqOf, Adjacent, WellWired, ShortChains;
    StoredIsSome(s.nodes[n], o);
    if Linked(owner, topo, o, n) {
      var path :| Chain(owner, topo, o, path) && path[|path| - 1] == n;
      ChainHas(owner, topo, s, o, path, |path| - 1);
      StoredIsLast(s, n, o);
    }
  }
}
