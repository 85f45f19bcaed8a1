/**
 compute_rtable's first half: Dijkstra over the list of router records, in place, and the list
 operations around it. The records' shortest-path fields are viewed as the marks of ShortestPath.
 */
module Dijkstra {
  import opened Net
  import opened ShortestPath

  const WORD32: nat := 0x1_0000_0000

  /** struct pwospf_router. `run` and `level` record when `prev` was last set. */
  class Router {
    const rid: RouterId
    var links: seq<Link>
    var distance: nat
    var found: bool
    var prev: Router?
    ghost var run: nat
    ghost var level: nat

    /** add_new_router_neighbor: a cleared record. */
    constructor (rid: RouterId, links: seq<Link>)
      ensures this.rid == rid && this.links == links && prev == null && distance == 0 && !found && run == 0
    {
      this.rid, this.links, distance, found, prev, run, level := rid, links, 0, false, null, 0, 0;
    }

    ghost function View(): Mark
      reads this
    {
      Mark(distance, found, if prev == null then None else Some(prev.rid), run, level)
    }
  }

  ghost function Ids(routers: seq<Router>): set<RouterId> {
    set r | r in routers :: r.rid
  }

  ghost predicate Unique(routers: seq<Router>) {
    forall i, j :: 0 <= i < j < |routers| ==> routers[i].rid != routers[j].rid
  }

  /** The list holds one record per id, with these marks, and pointers stay within the list. */
  ghost predicate Lists(routers: seq<Router>, m: Marks)
    reads routers
  {
    && Unique(routers) && m.Keys == Ids(routers)
    && forall r :: r in routers ==> m[r.rid] == r.View() && (r.prev != null ==> r.prev in routers)
  }

  /** The records advertise what `t` says. */
  ghost predicate Advertises(routers: seq<Router>, t: Topology)
    reads routers`links
  {
    t.Keys == Ids(routers) && forall r :: r in routers ==> t[r.rid] == r.links
  }

  lemma SameRouter(routers: seq<Router>, a: Router, b: Router)
    requires Unique(routers) && a in routers && b in routers && a.rid == b.rid
    ensures a == b
  {
  }

  /** get_router_by_rid. */
  method GetRouterByRid(rid: RouterId, routers: seq<Router>) returns (r: Router?)
    ensures r != null ==> r in routers && r.rid == rid
    ensures r == null <==> rid !in Ids(routers)
  {
    for i := 0 to |routers|
      invariant forall j :: 0 <= j < i ==> routers[j].rid != rid
    {
      if routers[i].rid == rid {
        return routers[i];
      }
    }
    return null;
  }

  /** No unfinished router listed before it is as close. */
  ghost predicate FirstAt(routers: seq<Router>, i: int, w: Router)
    reads routers
  {
    0 <= i < |routers| && routers[i] == w && forall j :: 0 <= j < i && !routers[j].found ==> routers[j].distance > w.distance
  }

  /** get_shortest: the unfinished router at the least distance below the infinite one. */
  method GetShortest(routers: seq<Router>) returns (w: Router?)
    ensures w != null ==> w in routers && !w.found && w.distance < UNREACHED
    ensures w != null ==> forall r :: r in routers && !r.found ==> w.distance <= r.distance
    ensures w != null ==> exists i :: FirstAt(routers, i, w)
    ensures w == null ==> forall r :: r in routers && !r.found ==> r.distance >= UNREACHED
  {
    w := null;
    var least := UNREACHED;
    for i := 0 to |routers|
      invariant w == null ==> least == UNREACHED
      invariant w != null ==> w in routers && !w.found && w.distance == least < UNREACHED
      invariant w != null ==> exists k :: FirstAt(routers, k, w)
      invariant forall j :: 0 <= j < i && !routers[j].found ==> least <= routers[j].distance
    {
      if !routers[i].found && routers[i].distance < least {
        w, least := routers[i], routers[i].distance;
        assert FirstAt(routers, i, w);
      }
    }
  }

  // ---------------------------------------------------------------- relaxing the links of one router

  predicate Names(links: seq<Link>, v: RouterId) {
    exists l :: l in links && l.active && l.rid == v
  }

  /** The marks after the links in `links` of router `w` have been looked at. */
  ghost function RelaxedVia(m: Marks, w: RouterId, links: seq<Link>, run: nat): Marks
    requires w in m
  {
    map v | v in m ::
      if !m[v].found && Names(links, v) && m[w].distance + 1 < m[v].distance
      then Mark(m[w].distance + 1, false, Some(w), run, m[w].distance + 1)
      else m[v]
  }

  lemma ViaNone(m: Marks, w: RouterId, run: nat)
    requires w in m
    ensures RelaxedVia(m, w, [], run) == m
  {
  }

  lemma ViaAll(t: Topology, m: Marks, w: RouterId, run: nat)
    requires w in m && m.Keys == t.Keys
    ensures RelaxedVia(m, w, t[w], run) == Relaxed(t, m, w, run)
  {
    assert forall v :: v in m ==> (Edge(t, w, v) <==> Names(t[w], v));
  }

  /** The marks after one more link of `w`. */
  ghost function AfterLink(cur: Marks, w: RouterId, l: Link, run: nat): Marks
    requires w in cur
  {
    if l.active && l.rid in cur && !cur[l.rid].found && cur[w].distance + 1 < cur[l.rid].distance
    then cur[l.rid := Mark(cur[w].distance + 1, false, Some(w), run, cur[w].distance + 1)]
    else cur
  }

  lemma ViaOneMore(m: Marks, w: RouterId, links: seq<Link>, l: Link, run: nat)
    requires w in m && m[w].found
    ensures RelaxedVia(m, w, links + [l], run) == AfterLink(RelaxedVia(m, w, links, run), w, l, run)
    ensures w in RelaxedVia(m, w, links, run)
  {
    hide Names;
    NamesOneMore(links, l);
    var cur, next := RelaxedVia(m, w, links, run), RelaxedVia(m, w, links + [l], run);
    assert cur.Keys == next.Keys == m.Keys;
  }

  lemma NamesOneMore(links: seq<Link>, l: Link)
    ensures forall v :: Names(links + [l], v) <==> Names(links, v) || (l.active && l.rid == v)
  {
  }

  lemma MarkOf(routers: seq<Router>, m: Marks, r: Router)
    requires Lists(routers, m) && r in routers
    ensures r.rid in m && m[r.rid] == r.View()
  {
    assert r.rid in Ids(routers);
  }

  lemma KeysAreIds(routers: seq<Router>, m: Marks)
    requires Lists(routers, m)
    ensures m.Keys == Ids(routers)
  {
  }

  /** Record `v` is now one hop beyond `w`: its mark changes and no other. */
  method StepBeyond(w: Router, v: Router, routers: seq<Router>, ghost m: Marks, ghost run: nat)
    requires Lists(routers, m) && w in routers && v in routers && !v.found && w.distance + 1 < WORD32
    modifies v`distance, v`prev, v`run, v`level
    ensures v.rid in m && Lists(routers, m[v.rid := Mark(old(w.distance) + 1, false, Some(w.rid), run, old(w.distance) + 1)])
  {
    hide Unique, Ids, Lists, ListsBut;
    MarkOf(routers, m, v);
    ghost var d := w.distance + 1;
    ListsOthers(routers, m, v);
    v.distance, v.prev, v.run, v.level := (w.distance + 1) % WORD32, w, run, w.distance + 1;
    assert v.View() == Mark(d, false, Some(w.rid), run, d);
    ListsPut(routers, m, v);
  }

  /** The list as it should be, record `v` aside. */
  ghost predicate ListsBut(routers: seq<Router>, m: Marks, v: Router)
    reads set r | r in routers && r != v
  {
    && Unique(routers) && m.Keys == Ids(routers)
    && forall r :: r in routers && r != v ==> m[r.rid] == r.View() && (r.prev != null ==> r.prev in routers)
  }

  lemma ListsOthers(routers: seq<Router>, m: Marks, v: Router)
    requires Lists(routers, m)
    ensures ListsBut(routers, m, v)
  {
    hide Unique;
  }

  /** The list with one record changed. */
  lemma ListsPut(routers: seq<Router>, m: Marks, v: Router)
    requires ListsBut(routers, m, v) && v in routers && (v.prev != null ==> v.prev in routers)
    ensures v.rid in m && Lists(routers, m[v.rid := v.View()])
  {
    hide Unique;
    var m' := m[v.rid := v.View()];
    assert m'.Keys == m.Keys;
    forall r | r in routers ensures m'[r.rid] == r.View() {
      if r.rid == v.rid {
        SameRouter(routers, r, v);
      }
    }
  }

  /** The body of the loop of update_neighbor_distance. */
  method LookAtLink(w: Router, l: Link, routers: seq<Router>, ghost m: Marks, ghost run: nat)
    requires Lists(routers, m) && w in routers && w.found && w.distance + 1 < WORD32 && 0 !in m
    modifies routers`distance, routers`prev, routers`run, routers`level
    ensures w.rid in m && Lists(routers, AfterLink(m, w.rid, l, run))
    ensures w.distance == old(w.distance)
  {
    hide Lists, Unique;
    MarkOf(routers, m, w);
    KeysAreIds(routers, m);
    if l.rid != 0 && l.active {
      var v := GetRouterByRid(l.rid, routers);
      if v != null {
        MarkOf(routers, m, v);
        if !v.found && (w.distance + 1) % WORD32 < v.distance {
          StepBeyond(w, v, routers, m, run);
        }
      }
    }
  }

  /** update_neighbor_distance. */
  method UpdateNeighborDistance(w: Router, routers: seq<Router>, ghost t: Topology, ghost m: Marks, ghost run: nat)
    requires Lists(routers, m) && Advertises(routers, t) && 0 !in t
    requires w in routers && w.found && w.distance + 1 < WORD32
    modifies routers`distance, routers`prev, routers`run, routers`level
    ensures w.rid in m && Lists(routers, Relaxed(t, m, w.rid, run))
  {
    hide Names, Relaxed, RelaxedVia, AfterLink, Lists, Unique;
    MarkOf(routers, m, w);
    KeysAreIds(routers, m);
    ghost var cur := m;
    ViaNone(m, w.rid, run);
    for k := 0 to |w.links|
      invariant cur == RelaxedVia(m, w.rid, w.links[..k], run)
      invariant Lists(routers, cur) && w.distance == old(w.distance)
    {
      ViaOneMore(m, w.rid, w.links[..k], w.links[k], run);
      KeysAreIds(routers, cur);
      assert w.links[..k] + [w.links[k]] == w.links[..k + 1];
      LookAtLink(w, w.links[k], routers, cur, run);
      cur := AfterLink(cur, w.rid, w.links[k], run);
    }
    assert w.links[..|w.links|] == w.links;
    ViaAll(t, m, w.rid, run);
  }

  // ---------------------------------------------------------------- the whole run

  /** The marks when the initialising loop has passed the routers in `seen`. */
  ghost function StartedUpTo(our: RouterId, m: Marks, seen: set<RouterId>): Marks {
    map v | v in m :: if v in seen then Started(our, m)[v] else m[v]
  }

  lemma StartedOneMore(our: RouterId, m: Marks, seen: set<RouterId>, v: RouterId)
    requires v in m
    ensures v in StartedUpTo(our, m, seen)
    ensures StartedUpTo(our, m, seen + {v}) == StartedUpTo(our, m, seen)[v := Started(our, m)[v]]
  {
  }

  /** The initialising loop of compute_rtable, for one record. */
  method StartOne(our: RouterId, r: Router, routers: seq<Router>, ghost m: Marks, ghost cur: Marks)
    requires Lists(routers, cur) && r in routers && r.rid != 0 && r.rid in m
    requires cur[r.rid].prev == m[r.rid].prev && cur[r.rid].run == m[r.rid].run && cur[r.rid].level == m[r.rid].level
    modifies r`distance, r`found
    ensures Lists(routers, cur[r.rid := Started(our, m)[r.rid]])
  {
    hide Unique;
    MarkOf(routers, cur, r);
    if r.rid == our {
      r.distance, r.found := 0, true;
    } else if r.rid != 0 {
      r.distance, r.found := UNREACHED, false;
    }
    assert r.View() == Started(our, m)[r.rid];
    forall x | x in routers && x != r ensures x.View() == cur[x.rid] { assert x.View() == old(x.View()); }
    ListsPut(routers, cur, r);
  }

  method StartAll(our: RouterId, routers: seq<Router>, ghost m: Marks)
    requires Lists(routers, m) && 0 !in m
    modifies routers`distance, routers`found
    ensures Lists(routers, Started(our, m))
  {
    hide Lists, Unique, Started, StartedUpTo;
    ghost var cur := m;
    ghost var seen: set<RouterId> := {};
    KeysAreIds(routers, m);
    StartedEnds(our, m);
    for i := 0 to |routers|
      invariant cur == StartedUpTo(our, m, seen) && seen == Ids(routers[..i])
      invariant Lists(routers, cur)
    {
      var r := routers[i];
      MarkOf(routers, cur, r);
      KeysAreIds(routers, cur);
      StartedKeepsPointers(our, m, seen, r.rid);
      StartOne(our, r, routers, m, cur);
      StartedOneMore(our, m, seen, r.rid);
      IdsOneMore(routers, i);
      seen := seen + {r.rid};
      cur := StartedUpTo(our, m, seen);
    }
    assert routers[..|routers|] == routers;
  }

  lemma StartedEnds(our: RouterId, m: Marks)
    ensures StartedUpTo(our, m, {}) == m && StartedUpTo(our, m, m.Keys) == Started(our, m)
  {
  }

  lemma StartedKeepsPointers(our: RouterId, m: Marks, seen: set<RouterId>, v: RouterId)
    requires v in StartedUpTo(our, m, seen)
    ensures v in m && v in Started(our, m)
    ensures var c := StartedUpTo(our, m, seen)[v]; c.prev == m[v].prev && c.run == m[v].run && c.level == m[v].level
  {
  }

  lemma IdsOneMore(routers: seq<Router>, i: nat)
    requires i < |routers|
    ensures Ids(routers[..i + 1]) == Ids(routers[..i]) + {routers[i].rid}
  {
    assert routers[..i + 1] == routers[..i] + [routers[i]];
  }

  method SetFound(w: Router, routers: seq<Router>, ghost m: Marks)
    requires Lists(routers, m) && w in routers
    modifies w`found
    ensures w.rid in m && Lists(routers, MarkFound(m, w.rid)) && w.found
  {
    hide Unique;
    MarkOf(routers, m, w);
    w.found := true;
    forall r | r in routers && r != w ensures r.View() == m[r.rid] { assert r.View() == old(r.View()); }
    ListsPut(routers, m, w);
  }

  /** The body of the main loop: add `w` to the finished routers and relax its links. */
  method FinishOne(w: Router, routers: seq<Router>, ghost t: Topology, ghost m: Marks, ghost run: nat)
    requires Lists(routers, m) && Advertises(routers, t) && 0 !in t
    requires w in routers && w.distance + 1 < WORD32
    modifies routers`distance, routers`found, routers`prev, routers`run, routers`level
    ensures w.rid in m && Lists(routers, Relaxed(t, MarkFound(m, w.rid), w.rid, run))
  {
    hide Lists, Unique, Relaxed, Advertises;
    SetFound(w, routers, m);
    UpdateNeighborDistance(w, routers, t, MarkFound(m, w.rid), run);
  }

  /** What get_shortest finds is the closest unfinished router; if it finds none, the run is over. */
  lemma ShortestIsClosest(t: Topology, our: RouterId, routers: seq<Router>, m: Marks, done: set<RouterId>, w: Router?)
    requires Lists(routers, m) && Marked(t, our, m, done) && done != {}
    requires w != null ==> w in routers && !w.found && w.distance < UNREACHED
    requires w != null ==> forall r :: r in routers && !r.found ==> w.distance <= r.distance
    requires w == null ==> forall r :: r in routers && !r.found ==> r.distance >= UNREACHED
    ensures w != null ==> Closest(our, m, done, w.rid)
    ensures w == null ==> forall v :: v in m && v !in done ==> m[v].distance == UNREACHED
  {
    forall v | v in m
      ensures exists r :: r in routers && r.rid == v && m[v] == r.View()
    {
      assert v in Ids(routers);
    }
    if w != null { MarkOf(routers, m, w); }
  }

  /**
   The first half of compute_rtable. `run` numbers the runs; it is larger than the number of any
   earlier run that set a pointer.
   */
  method ComputeDistances(our: RouterId, routers: seq<Router>, ghost t: Topology, ghost m0: Marks, ghost run: nat)
    returns (ghost m: Marks, ghost done: set<RouterId>)
    requires Lists(routers, m0) && Advertises(routers, t) && our in m0 && 0 !in m0
    requires Forest(our, m0, run) && run > 0 && forall v :: v in m0 ==> m0[v].run < run
    modifies routers`distance, routers`found, routers`prev, routers`run, routers`level
    ensures Lists(routers, m) && Finished(t, our, m, done, run) && Leftover(m0, m)
  {
    hide Forest, Spf, Closest, Started, Finished, Lists, Unique, Advertises, Leftover;
    StartAll(our, routers, m0);
    StartIsReady(our, routers, t, m0, run);
    StartLeaves(our, m0);
    m, done := Started(our, m0), {};
    var w := GetRouterByRid(our, routers);
    ghost var ids := Ids(routers);
    while w != null
      invariant Lists(routers, m) && Advertises(routers, t) && Spf(t, our, m, done, run) && done <= ids
      invariant Leftover(m0, m)
      invariant w != null ==> w in routers && Closest(our, m, done, w.rid)
      invariant w == null ==> Finished(t, our, m, done, run)
      decreases |ids - done|
    {
      ghost var was, before := done, m;
      w, m, done := NextRound(our, w, routers, t, m, done, run);
      LeavesBoth(m0, before, m);
      FewerLeft(ids, was, done);
    }
  }

  lemma FewerLeft(ids: set<RouterId>, was: set<RouterId>, done: set<RouterId>)
    requires was < done <= ids
    ensures |ids - done| < |ids - was|
  {
    var x :| x in done && x !in was;
    assert ids - was == (ids - was - {x}) + {x};
    CardinalityBound(ids - done, ids - was - {x});
  }

  lemma StartIsReady(our: RouterId, routers: seq<Router>, t: Topology, m0: Marks, run: nat)
    requires Lists(routers, Started(our, m0)) && Advertises(routers, t) && our in m0 && 0 !in m0
    requires Forest(our, m0, run) && run > 0 && forall v :: v in m0 ==> m0[v].run < run
    ensures Spf(t, our, Started(our, m0), {}, run) && Closest(our, Started(our, m0), {}, our)
    ensures our in Ids(routers) && 0 !in t
  {
    hide Forest, Spf, Closest, Unique;
    KeysAreIds(routers, Started(our, m0));
    StartIsSpf(t, our, m0, run);
  }

  /** One turn of the main loop: finish `w`, then look for the next closest router. */
  method NextRound(our: RouterId, w: Router, routers: seq<Router>, ghost t: Topology, ghost m: Marks,
                   ghost done: set<RouterId>, ghost run: nat)
    returns (next: Router?, ghost m': Marks, ghost done': set<RouterId>)
    requires Lists(routers, m) && Advertises(routers, t) && Spf(t, our, m, done, run) && done <= Ids(routers)
    requires w in routers && Closest(our, m, done, w.rid) && 0 !in t
    modifies routers`distance, routers`found, routers`prev, routers`run, routers`level
    ensures Lists(routers, m') && Advertises(routers, t) && Spf(t, our, m', done', run)
    ensures done < done' <= Ids(routers) && Leftover(m, m')
    ensures forall v :: v in m && v in m' ==> m'[v].distance <= m[v].distance && m[v].distance <= UNREACHED
    ensures next != null ==> next in routers && Closest(our, m', done', next.rid)
    ensures next == null ==> Finished(t, our, m', done', run)
  {
    hide Forest, Spf, Closest, Relaxed, Finished, Lists, Unique, Marked, Leftover;
    SpfParts(t, our, m, done, run, w.rid);
    MarkOf(routers, m, w);
    RelaxIsSpf(t, our, m, done, w.rid, run);
    SpfDistances(t, our, m, done, run);
    RelaxLeaves(t, m, w.rid, run);
    RelaxLowers(t, m, w.rid, run);
    FinishOne(w, routers, t, m, run);
    m' := Relaxed(t, MarkFound(m, w.rid), w.rid, run);
    done' := done + {w.rid};
    next := GetShortest(routers);
    SpfIsMarked(t, our, m', done', run);
    KeysAreIds(routers, m');
    ShortestIsClosest(t, our, routers, m', done', next);
    if next == null {
      FinishedIf(t, our, m', done', run);
    }
  }

  lemma SpfIsMarked(t: Topology, our: RouterId, m: Marks, done: set<RouterId>, run: nat)
    requires Spf(t, our, m, done, run)
    ensures Marked(t, our, m, done)
  {
  }

  lemma SpfDistances(t: Topology, our: RouterId, m: Marks, done: set<RouterId>, run: nat)
    requires Spf(t, our, m, done, run)
    ensures forall v :: v in m ==> m[v].distance <= UNREACHED
  {
  }

  lemma SpfParts(t: Topology, our: RouterId, m: Marks, done: set<RouterId>, run: nat, w: RouterId)
    requires Spf(t, our, m, done, run) && Closest(our, m, done, w) && 0 !in t
    ensures w in m && w !in done && m[w].distance + 1 < WORD32
  {
    RoomForHop(t, our, m, done, w);
  }

  lemma FinishedIf(t: Topology, our: RouterId, m: Marks, done: set<RouterId>, run: nat)
    requires Spf(t, our, m, done, run) && 0 !in t && done != {}
    requires forall v :: v in m && v !in done ==> m[v].distance == UNREACHED
    ensures Finished(t, our, m, done, run)
  {
  }

  // ---------------------------------------------------------------- the walk to the first hop

  /**
   The pointer walk of add_route_wrappers. It follows whatever pointers earlier runs left, also for
   routers this run did not reach, and it always ends at a neighbour of ours.
   */
  method WalkToFirstHop(our: RouterId, r: Router, routers: seq<Router>, ghost m: Marks, ghost run: nat) returns (f: Router)
    requires Lists(routers, m) && Forest(our, m, run) && r in routers && r.prev != null
    requires forall v :: v in m ==> (m[v].distance == 0 <==> v == our)
    ensures f in routers && r.rid in m && m[r.rid].prev.Some? && f.rid == FirstHop(our, m, run, r.rid)
  {
    hide Unique;
    MarkOf(routers, m, r);
    f := r;
    while f.prev.distance != 0
      invariant f in routers && f.prev != null
      invariant f.rid in m && m[f.rid].prev.Some?
      invariant FirstHop(our, m, run, f.rid) == FirstHop(our, m, run, r.rid)
      decreases run - m[f.rid].run, m[f.rid].level
    {
      hide Unique;
      MarkOf(routers, m, f);
      MarkOf(routers, m, f.prev);
      assert LinkOk(our, m, run, f.rid);
      assert LinkOk(our, m, run, f.prev.rid);
      f := f.prev;
    }
    MarkOf(routers, m, f);
    MarkOf(routers, m, f.prev);
  }

  // ---------------------------------------------------------------- runs with changing links

  /** The router list over time: routers join, links change, Dijkstra runs. No router leaves. */
  class RoutingDatabase {
    const our: RouterId
    var routers: seq<Router>
    ghost var marks: Marks
    ghost var runs: nat

    /** Ids are unique and nonzero, we are listed, and every pointer chain leads to us. */
    ghost predicate Valid()
      reads this, routers
    {
      Lists(routers, marks) && our in marks && 0 !in marks && Forest(our, marks, runs)
    }

    constructor (our: RouterId, links: seq<Link>)
      requires our != 0
      ensures Valid() && this.our == our && |routers| == 1 && routers[0].rid == our && routers[0].links == links
      ensures fresh(routers)
    {
      var r := new Router(our, links);
      this.our, routers, runs := our, [r], 0;
      marks := map[our := r.View()];
    }

    /** Append a router that has just been heard of. */
    method AddRouter(rid: RouterId, links: seq<Link>)
      requires Valid() && rid != 0 && rid !in Ids(routers)
      modifies this
      ensures Valid() && |routers| == |old(routers)| + 1 && old(routers) <= routers && runs == old(runs)
      ensures var r := routers[|routers| - 1]; fresh(r) && r.rid == rid && r.links == links
    {
      var r := new Router(rid, links);
      hide Lists, Unique, Forest;
      KeysAreIds(routers, marks);
      ListsAppend(routers, r, marks);
      ForestGrows(our, marks, runs, rid, r.View());
      routers, marks := routers + [r], marks[rid := r.View()];
    }

    /** A newer LSU, a hello or a time-out has changed a router's links. */
    method SetLinks(r: Router, links: seq<Link>)
      requires Valid() && r in routers
      modifies r`links
      ensures Valid() && r.links == links
    {
      r.links := links;
      assert forall x :: x in routers ==> x.View() == old(x.View());
    }

    /** One run of Dijkstra; `t` is what the routers advertise. */
    method Run(ghost t: Topology) returns (ghost done: set<RouterId>)
      requires Valid() && Advertises(routers, t)
      modifies `marks, `runs, routers`distance, routers`found, routers`prev, routers`run, routers`level
      ensures Valid() && runs == old(runs) + 1 && Advertises(routers, t)
      ensures Finished(t, our, marks, done, runs) && Leftover(old(marks), marks)
      ensures forall r :: r in routers ==>
                && (r.distance < 0xFFFF_FFFF ==> IsDistance(t, our, r.rid, r.distance) && r.distance < |routers|)
                && (r.distance == 0xFFFF_FFFF <==> Unreachable(t, our, r.rid))
                && r.distance <= 0xFFFF_FFFF
    {
      hide Finished, Lists, Unique, Forest, Leftover, IsDistance, Unreachable, Advertises;
      ghost var m;
      ForestLater(our, marks, runs);
      m, done := ComputeDistances(our, routers, t, marks, runs + 1);
      marks, runs := m, runs + 1;
      FinishedIsValid(t, our, marks, done, runs);
      RecordsAreExact(our, routers, t, marks, done, runs);
    }
  }

  lemma RecordsAreExact(our: RouterId, routers: seq<Router>, t: Topology, m: Marks, done: set<RouterId>, run: nat)
    requires Lists(routers, m) && Finished(t, our, m, done, run)
    ensures forall r :: r in routers ==>
              && (r.distance < UNREACHED ==> IsDistance(t, our, r.rid, r.distance) && r.distance < |routers|)
              && (r.distance == UNREACHED <==> Unreachable(t, our, r.rid))
              && r.distance <= UNREACHED
  {
    hide Finished, Lists, Unique, IsDistance, Unreachable;
    KeysAreIds(routers, m);
    IdCount(routers);
    forall r | r in routers
      ensures (r.distance < UNREACHED ==> IsDistance(t, our, r.rid, r.distance) && r.distance < |routers|)
           && (r.distance == UNREACHED <==> Unreachable(t, our, r.rid))
           && r.distance <= UNREACHED
    {
      MarkOf(routers, m, r);
      DistancesAreExact(t, our, m, done, run, r.rid);
    }
  }

  lemma ListsAppend(routers: seq<Router>, r: Router, m: Marks)
    requires Lists(routers, m) && r.rid !in Ids(routers) && r.prev == null
    ensures Lists(routers + [r], m[r.rid := r.View()])
  {
    hide Unique, Ids;
    var all, m' := routers + [r], m[r.rid := r.View()];
    UniqueAppend(routers, r);
    forall x | x in all ensures x.rid in m' && m'[x.rid] == x.View() && (x.prev != null ==> x.prev in all) {
      if x in routers {
        IdListed(routers, x);
      } else {
        assert x == r;
      }
    }
  }

  lemma IdListed(routers: seq<Router>, x: Router)
    requires x in routers
    ensures x.rid in Ids(routers)
  {
  }

  lemma UniqueAppend(routers: seq<Router>, r: Router)
    requires Unique(routers) && r.rid !in Ids(routers)
    ensures Unique(routers + [r]) && Ids(routers + [r]) == Ids(routers) + {r.rid}
  {
    var all := routers + [r];
    IdsOneMore(all, |routers|);
    assert all[..|routers|] == routers && all[..|all|] == all;
    forall k | 0 <= k < |routers| ensures all[k].rid != r.rid {
      IdListed(routers, routers[k]);
    }
  }

  lemma ForestGrows(our: RouterId, m: Marks, run: nat, rid: RouterId, mark: Mark)
    requires Forest(our, m, run) && rid !in m && mark.prev == None && mark.run <= run
    ensures Forest(our, m[rid := mark], run)
  {
    var m' := m[rid := mark];
    forall v | v in m' ensures LinkOk(our, m', run, v) {
      if v != rid { assert LinkOk(our, m, run, v); }
    }
  }

  lemma ForestLater(our: RouterId, m: Marks, run: nat)
    requires Forest(our, m, run)
    ensures Forest(our, m, run + 1) && forall v :: v in m ==> m[v].run < run + 1
  {
    forall v | v in m ensures LinkOk(our, m, run + 1, v) { assert LinkOk(our, m, run, v); }
  }

  lemma FinishedIsValid(t: Topology, our: RouterId, m: Marks, done: set<RouterId>, run: nat)
    requires Finished(t, our, m, done, run)
    ensures our in m && 0 !in m && Forest(our, m, run)
  {
  }

  lemma {:induction false} IdCount(routers: seq<Router>)
    ensures |Ids(routers)| <= |routers|
  {
    if routers != [] {
      var k := |routers| - 1;
      IdCount(routers[..k]);
      IdsOneMore(routers, k);
      assert routers[..k + 1] == routers;
    } else {
      assert Ids(routers) == {};
    }
  }
}
