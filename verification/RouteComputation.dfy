/**
 compute_rtable as a whole: shortest paths, the wrapper of each subnet, and the entries made from them.
 What the returned routes say is stated of the network alone, without marks or wrappers.
 */
module RouteComputation {
  import opened Net
  import opened ShortestPath
  import opened RouteSelection
  import opened Dijkstra
  import opened Gateway
  import opened Forwarding
  import Hello

  /** No advertiser of the subnet can be reached. */
  ghost predicate CutOff(t: Topology, our: RouterId, ip: Ip, mask: Ip) {
    forall r, k :: Advertised(t, r, ip, mask) ==> !Reach(t, our, r, k)
  }

  /** The entry goes to our neighbour `n`, from which a nearest advertiser is one hop less. */
  ghost predicate Closer(t: Topology, our: RouterId, ifaces: seq<Iface>, e: Route, n: RouterId, d: nat) {
    && d > 0 && NearestAt(t, our, e.ip, e.mask, d) && Edge(t, our, n) && Via(ifaces, e, n)
    && exists r :: Advertised(t, r, e.ip, e.mask) && Reach(t, n, r, d - 1)
  }

  /** The entry leaves by interface `i`, which is on its subnet or hears the neighbour our link names there. */
  ghost predicate Leaves(t: Topology, our: RouterId, ifaces: seq<Iface>, e: Route, i: Iface) {
    && i in ifaces && e.iface == i.name
    && ((i.Subnet() == e.ip && i.mask == e.mask)
        || exists l :: Names(t, our, e, l) && Hears(i, l.rid))
  }

  /** Our link `l` is on the subnet of the entry and names a neighbour. */
  ghost predicate Names(t: Topology, our: RouterId, e: Route, l: Link) {
    our in t && l in t[our] && OnSubnet(l, e.ip, e.mask) && l.rid != 0
  }

  /** Our own subnet, a subnet one hop closer to the gateway, or one that nobody reachable advertises. */
  ghost predicate Sound(t: Topology, our: RouterId, ifaces: seq<Iface>, e: Route) {
    && !e.isStatic && e.isActive
    && if Advertised(t, our, e.ip, e.mask) then e.gw == 0 && exists i :: Leaves(t, our, ifaces, e, i)
       else if CutOff(t, our, e.ip, e.mask) then exists n :: Via(ifaces, e, n)
       else exists n, d :: Closer(t, our, ifaces, e, n, d)
  }

  predicate For(e: Route, ip: Ip, mask: Ip) {
    e.ip == ip && e.mask == mask
  }

  predicate OneEntryEach(es: seq<Route>) {
    forall i, j :: 0 <= i < j < |es| ==> !For(es[j], es[i].ip, es[i].mask)
  }

  /** Every entry is sound, no subnet has two, and every subnet we can reach has one. */
  ghost predicate Correct(t: Topology, our: RouterId, ifaces: seq<Iface>, es: seq<Route>) {
    && (forall e :: e in es ==> Sound(t, our, ifaces, e))
    && OneEntryEach(es)
    && (forall r, ip, mask, k :: Advertised(t, r, ip, mask) && Reach(t, our, r, k) ==> exists e :: e in es && For(e, ip, mask))
  }

  /** Our links are the ones the neighbour tables show. */
  ghost predicate Mirrored(t: Topology, our: RouterId, ifaces: seq<Iface>, s: Hello.State) {
    Hello.Mirror(s) && s.ifaces == ifaces && our in t && s.links == t[our]
  }

  // ---------------------------------------------------------------- one wrapper

  /** A wrapper of our own subnet. */
  lemma DirectSound(our: RouterId, loc: Local, s: Hello.State)
    requires Computed(our, loc) && Hello.Mirror(s) && our in loc.t && s.links == loc.t[our] && loc.w.distance == 0
    ensures Resolve(s.ifaces, loc.w).Entry? && Resolve(s.ifaces, loc.w).route.gw == 0
    ensures Advertised(loc.t, our, loc.w.ip, loc.w.mask)
    ensures exists i :: Leaves(loc.t, our, s.ifaces, Resolve(s.ifaces, loc.w).route, i)
  {
    hide Finished, Forest, ListOffers, Choose, Hello.Mirror, Resolve, Covers, OnSubnet, ShortDistances, Port, PortOf,
      SubnetPort, NoneCloser, Edge, Reach, IsDistance, Hears, Serves, Iface.Subnet;
    var t, m, w := loc.t, loc.m, loc.w;
    WrapperIsNearest(t, our, m, loc.done, loc.run, loc.ids, w);
    var r, l :| Nearest(t, our, m, w, r, l);
    assert r == our;
    CoversIs(w, l);
    DirectRouteInterface(s, w, l);
    EntryIsFor(s.ifaces, w);
    DirectLeaves(t, our, s.ifaces, w, l, Resolve(s.ifaces, w).route);
  }

  lemma DirectLeaves(t: Topology, our: RouterId, ifaces: seq<Iface>, w: Wrapper, l: Link, e: Route)
    requires our in t && l in t[our] && OnSubnet(l, w.ip, w.mask) && l.rid == w.nextRid && For(e, w.ip, w.mask)
    requires var p := SubnetPort(ifaces, w);
             var own := w.nextRid == 0 || forall j :: 0 <= j < p ==> !Hears(ifaces[j], w.nextRid);
             && p < |ifaces| && (own ==> e.iface == ifaces[p].name)
             && (!own ==> exists q :: FirstHears(ifaces, w.nextRid, q) && q < p && e.iface == ifaces[q].name)
    ensures exists i :: Leaves(t, our, ifaces, e, i)
  {
    hide OnSubnet, Hears, Iface.Subnet, Link.Base;
    var p := SubnetPort(ifaces, w);
    if w.nextRid == 0 || forall j :: 0 <= j < p ==> !Hears(ifaces[j], w.nextRid) {
      assert Leaves(t, our, ifaces, e, ifaces[p]);
    } else {
      var q :| FirstHears(ifaces, w.nextRid, q) && q < p && e.iface == ifaces[q].name;
      assert Names(t, our, e, l);
      assert Leaves(t, our, ifaces, e, ifaces[q]);
    }
  }

  lemma FarSound(our: RouterId, loc: Local, s: Hello.State)
    requires Computed(our, loc) && Hello.Mirror(s) && our in loc.t && s.links == loc.t[our]
    requires 0 < loc.w.distance < WORD16 - 1
    ensures Resolve(s.ifaces, loc.w).Entry?
    ensures Closer(loc.t, our, s.ifaces, Resolve(s.ifaces, loc.w).route, loc.w.nextRid, loc.w.distance)
  {
    hide Finished, Forest, ListOffers, Choose, Hello.Mirror, Resolve, Via, Edge, Reach, Nearest, Advertised, NearestAt,
      ShortDistances;
    GatewayIsFirstHop(loc.t, our, loc.m, loc.done, loc.run, loc.ids, s, loc.w);
    ComputedIsNearest(our, loc);
    EntryIsFor(s.ifaces, loc.w);
  }

  /** The largest value of the distance field means that nobody reachable advertises the subnet. */
  lemma CutOffSound(our: RouterId, loc: Local, s: Hello.State)
    requires Computed(our, loc) && Hello.Mirror(s) && our in loc.t && s.links == loc.t[our]
    requires loc.w.distance >= WORD16 - 1
    ensures CutOff(loc.t, our, loc.w.ip, loc.w.mask)
    ensures Resolve(s.ifaces, loc.w).Entry? ==> Via(s.ifaces, Resolve(s.ifaces, loc.w).route, loc.w.nextRid)
  {
    hide Finished, Forest, ListOffers, Choose, Hello.Mirror, Resolve, Via, Edge, Reach, Covers, Advertised, NoneCloser,
      IsDistance, PortOf;
    var t, m, w := loc.t, loc.m, loc.w;
    forall r, k | Advertised(t, r, w.ip, w.mask) ensures !Reach(t, our, r, k) {
      if Reach(t, our, r, k) {
        ReachableIsFinite(our, loc, r, k);
      }
    }
    WrapperIsNearest(t, our, m, loc.done, loc.run, loc.ids, w);
    var r, l :| Nearest(t, our, m, w, r, l);
    FinishedParts(t, our, m, loc.done, loc.run);
    DistancesAreExact(t, our, m, loc.done, loc.run, our);
    DistancesAreExact(t, our, m, loc.done, loc.run, r);
    UnreachableResolves(t, our, m, s, w);
  }

  /** What becomes of one wrapper. */
  lemma WrapperSound(our: RouterId, loc: Local, s: Hello.State)
    requires Computed(our, loc) && Hello.Mirror(s) && our in loc.t && s.links == loc.t[our]
    ensures !Resolve(s.ifaces, loc.w).Abort?
    ensures loc.w.distance < WORD16 - 1 ==> Resolve(s.ifaces, loc.w).Entry?
    ensures Resolve(s.ifaces, loc.w).Entry? ==> Sound(loc.t, our, s.ifaces, Resolve(s.ifaces, loc.w).route)
  {
    hide Computed, Hello.Mirror, Resolve, Via, Edge, Reach, Advertised, NearestAt, Closer, CutOff, Leaves;
    var t, w := loc.t, loc.w;
    WrapperNeverAborts(our, loc, s);
    EntryIsFor(s.ifaces, w);
    EntryIsDynamic(s.ifaces, w);
    if w.distance == 0 {
      DirectSound(our, loc, s);
    } else if w.distance < WORD16 - 1 {
      FarSound(our, loc, s);
      OthersSubnet(our, loc);
    } else {
      CutOffSound(our, loc, s);
      OursIsReached(t, our, w.ip, w.mask);
    }
  }

  lemma WrapperNeverAborts(our: RouterId, loc: Local, s: Hello.State)
    requires Computed(our, loc) && Hello.Mirror(s) && our in loc.t && s.links == loc.t[our]
    ensures !Resolve(s.ifaces, loc.w).Abort?
  {
    hide Finished, Forest, ListOffers, Choose, Hello.Mirror, Resolve, Via, Nearest, Reach, ShortDistances;
    GatewayIsFirstHop(loc.t, our, loc.m, loc.done, loc.run, loc.ids, s, loc.w);
  }

  lemma EntryIsDynamic(ifaces: seq<Iface>, w: Wrapper)
    ensures Resolve(ifaces, w).Entry? ==> !Resolve(ifaces, w).route.isStatic && Resolve(ifaces, w).route.isActive
  {
    hide Serves, Hears;
  }

  lemma OursIsReached(t: Topology, our: RouterId, ip: Ip, mask: Ip)
    requires CutOff(t, our, ip, mask) && our in t
    ensures !Advertised(t, our, ip, mask)
  {
    assert Reach(t, our, our, 0);
  }

  lemma OthersSubnet(our: RouterId, loc: Local)
    requires Computed(our, loc) && 0 < loc.w.distance < WORD16 - 1 && our in loc.t
    ensures !Advertised(loc.t, our, loc.w.ip, loc.w.mask) && !CutOff(loc.t, our, loc.w.ip, loc.w.mask)
  {
    hide Computed, Advertised;
    ComputedIsNearest(our, loc);
    assert Reach(loc.t, our, our, 0);
  }

  // ---------------------------------------------------------------- the list of entries

  lemma {:induction false} EntriesMembers(ifaces: seq<Iface>, ws: seq<Wrapper>, e: Route)
    ensures e in Entries(ifaces, ws) <==> exists w :: w in ws && Resolve(ifaces, w) == Entry(e)
  {
    hide Resolve;
    if ws != [] {
      var init, last := ws[..|ws| - 1], ws[|ws| - 1];
      EntriesMembers(ifaces, init, e);
      assert ws == init + [last];
    }
  }

  lemma {:induction false} EntriesOnce(ifaces: seq<Iface>, ws: seq<Wrapper>)
    requires OnePerSubnet(ws)
    ensures OneEntryEach(Entries(ifaces, ws))
  {
    hide Resolve;
    if ws != [] {
      var init, last := ws[..|ws| - 1], ws[|ws| - 1];
      EntriesOnce(ifaces, init);
      var es := Entries(ifaces, init);
      forall i | 0 <= i < |es| ensures es[i].ip != last.ip || es[i].mask != last.mask {
        EntriesMembers(ifaces, init, es[i]);
        var w :| w in init && Resolve(ifaces, w) == Entry(es[i]);
        EntryIsFor(ifaces, w);
      }
      EntryIsFor(ifaces, last);
    }
  }

  // ---------------------------------------------------------------- all wrappers

  /** What the three stages leave behind: the marks of the last run, and its wrappers. */
  ghost predicate Stages(t: Topology, our: RouterId, m: Marks, done: set<RouterId>, run: nat, ids: seq<RouterId>, ws: seq<Wrapper>) {
    && Finished(t, our, m, done, run) && ShortDistances(m)
    && Forest(our, m, run) && m.Keys == t.Keys && (forall r :: r in ids <==> r in m)
    && ws == Choose(our, ListOffers(our, m, run, t, ids))
  }

  lemma StagesCompute(t: Topology, our: RouterId, m: Marks, done: set<RouterId>, run: nat, ids: seq<RouterId>, ws: seq<Wrapper>, w: Wrapper)
    requires Stages(t, our, m, done, run, ids, ws) && w in ws
    ensures Computed(our, Local(t, m, done, run, ids, w))
  {
    hide Finished, Forest, ListOffers, Choose, ShortDistances;
  }

  lemma EntriesSound(t: Topology, our: RouterId, m: Marks, done: set<RouterId>, run: nat, ids: seq<RouterId>, ws: seq<Wrapper>,
                     s: Hello.State, e: Route)
    requires Stages(t, our, m, done, run, ids, ws) && Mirrored(t, our, s.ifaces, s) && e in Entries(s.ifaces, ws)
    ensures Sound(t, our, s.ifaces, e)
  {
    hide Stages, Computed, Hello.Mirror, Resolve, Sound, Entries;
    EntriesMembers(s.ifaces, ws, e);
    var w :| w in ws && Resolve(s.ifaces, w) == Entry(e);
    StagesCompute(t, our, m, done, run, ids, ws, w);
    WrapperSound(our, Local(t, m, done, run, ids, w), s);
  }

  /** A subnet we can reach has its entry. */
  lemma EntriesComplete(t: Topology, our: RouterId, m: Marks, done: set<RouterId>, run: nat, ids: seq<RouterId>, ws: seq<Wrapper>,
                        s: Hello.State, r: RouterId, ip: Ip, mask: Ip, k: nat)
    requires Stages(t, our, m, done, run, ids, ws) && Mirrored(t, our, s.ifaces, s)
    requires Advertised(t, r, ip, mask) && Reach(t, our, r, k)
    ensures exists e :: e in Entries(s.ifaces, ws) && For(e, ip, mask)
  {
    hide Stages, Computed, Hello.Mirror, Resolve, Sound, Entries, Reach, Advertised;
    var w := WrapperFor(t, our, m, done, run, ids, ws, r, ip, mask);
    var loc := Local(t, m, done, run, ids, w);
    StagesCompute(t, our, m, done, run, ids, ws, w);
    ReachableIsFinite(our, loc, r, k);
    WrapperSound(our, loc, s);
    EntryIsFor(s.ifaces, w);
    EntriesMembers(s.ifaces, ws, Resolve(s.ifaces, w).route);
  }

  lemma WrapperFor(t: Topology, our: RouterId, m: Marks, done: set<RouterId>, run: nat, ids: seq<RouterId>, ws: seq<Wrapper>,
                   r: RouterId, ip: Ip, mask: Ip) returns (w: Wrapper)
    requires Stages(t, our, m, done, run, ids, ws) && Advertised(t, r, ip, mask)
    ensures w in ws && w.ip == ip && w.mask == mask
  {
    hide Finished, Forest, ListOffers, Choose, ShortDistances, OnSubnet, Covers;
    var l :| l in t[r] && OnSubnet(l, ip, mask);
    OneWrapperPerSubnet(t, our, m, run, ids, r, l);
    w :| w in ws && Covers(w, l);
    SameSubnet(w, l, ip, mask);
  }

  lemma SameSubnet(w: Wrapper, l: Link, ip: Ip, mask: Ip)
    requires Covers(w, l) && OnSubnet(l, ip, mask)
    ensures w.ip == ip && w.mask == mask
  {
    hide Link.Base;
    CoversIs(w, l);
  }

  lemma StagesOnce(t: Topology, our: RouterId, m: Marks, done: set<RouterId>, run: nat, ids: seq<RouterId>, ws: seq<Wrapper>)
    requires Stages(t, our, m, done, run, ids, ws)
    ensures OnePerSubnet(ws)
  {
    hide Finished, Forest, ListOffers, ShortDistances, Choose;
    ChooseCovers(our, ListOffers(our, m, run, t, ids));
  }

  /** No assertion fails, and the table is correct. */
  lemma StagesAreCorrect(t: Topology, our: RouterId, m: Marks, done: set<RouterId>, run: nat, ids: seq<RouterId>, ws: seq<Wrapper>,
                         s: Hello.State)
    requires Stages(t, our, m, done, run, ids, ws) && Mirrored(t, our, s.ifaces, s)
    ensures !exists w :: w in ws && Resolve(s.ifaces, w).Abort?
    ensures Correct(t, our, s.ifaces, Entries(s.ifaces, ws))
  {
    hide Stages, Computed, Hello.Mirror, Resolve, Sound, Entries, Reach, Advertised, For, OnePerSubnet, OneEntryEach;
    forall w | w in ws ensures !Resolve(s.ifaces, w).Abort? {
      StagesCompute(t, our, m, done, run, ids, ws, w);
      WrapperSound(our, Local(t, m, done, run, ids, w), s);
    }
    StagesOnce(t, our, m, done, run, ids, ws);
    EntriesOnce(s.ifaces, ws);
    forall e | e in Entries(s.ifaces, ws) ensures Sound(t, our, s.ifaces, e) {
      EntriesSound(t, our, m, done, run, ids, ws, s, e);
    }
    forall r, ip, mask, k | Advertised(t, r, ip, mask) && Reach(t, our, r, k)
      ensures exists e :: e in Entries(s.ifaces, ws) && For(e, ip, mask)
    {
      EntriesComplete(t, our, m, done, run, ids, ws, s, r, ip, mask, k);
    }
  }

  // ---------------------------------------------------------------- the code

  /** compute_rtable. `None` is a failed `assert(nbr)`. */
  method ComputeRtable(db: RoutingDatabase, ifaces: seq<Iface>, ghost t: Topology, ghost s: Hello.State)
    returns (routes: Option<seq<Route>>, ghost done: set<RouterId>, ghost ws: seq<Wrapper>)
    requires db.Valid() && Advertises(db.routers, t)
    modifies db`marks, db`runs, db.routers`distance, db.routers`found, db.routers`prev, db.routers`run, db.routers`level
    ensures db.Valid() && db.runs == old(db.runs) + 1 && Advertises(db.routers, t)
    ensures Finished(t, db.our, db.marks, done, db.runs)
    ensures db.marks.Keys == t.Keys && forall r :: r in IdSeq(db.routers) <==> r in db.marks
    ensures ws == Choose(db.our, ListOffers(db.our, db.marks, db.runs, t, IdSeq(db.routers)))
    ensures routes.None? <==> exists w :: w in ws && Resolve(ifaces, w).Abort?
    ensures routes.Some? ==> routes.value == Entries(ifaces, ws)
    ensures |db.routers| < WORD16 ==> ShortDistances(db.marks)
    ensures ShortDistances(db.marks) && Mirrored(t, db.our, ifaces, s) ==>
              routes.Some? && Correct(t, db.our, ifaces, routes.value)
  {
    hide Finished, Lists, Unique, Forest, Choose, ListOffers, Resolve, Entries, Correct, ShortDistances, Advertises,
      Leftover, IsDistance, Unreachable, Mirrored;
    done := db.Run(t);
    var list := BuildRouteWrapperList(db.our, db.routers, t, db.marks, done, db.runs);
    routes := UnwrapRoutes(list, ifaces);
    ws := list;
    ghost var ids := IdSeq(db.routers);
    if |db.routers| < WORD16 {
      MarkCount(db.routers, db.marks);
      SmallNetworksFit(t, db.our, db.marks, done, db.runs);
    }
    if ShortDistances(db.marks) && Mirrored(t, db.our, ifaces, s) {
      MirroredIfaces(t, db.our, ifaces, s);
      StagesAreCorrect(t, db.our, db.marks, done, db.runs, ids, ws, s);
    }
  }

  lemma MirroredIfaces(t: Topology, our: RouterId, ifaces: seq<Iface>, s: Hello.State)
    requires Mirrored(t, our, ifaces, s)
    ensures s.ifaces == ifaces
  {
  }

  lemma MarkCount(routers: seq<Router>, m: Marks)
    requires Lists(routers, m)
    ensures |m| <= |routers|
  {
    hide Lists, Unique;
    KeysAreIds(routers, m);
    IdCount(routers);
    assert |m.Keys| == |m|;
  }
}
