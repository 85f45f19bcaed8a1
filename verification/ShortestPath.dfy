/**
 Hop-count Dijkstra over the router list, and the predecessor pointers it leaves behind.
 The pointers are never reset between runs; they nevertheless always lead to our router.
 The first half reasons about the marks of the routers as values, the second half is the
 code over mutable router records.
 */
module ShortestPath {
  import opened Net

  /** The "infinite" distance. */
  const UNREACHED: nat := 0xFFFF_FFFF

  /** What each known router advertises. */
  type Topology = map<RouterId, seq<Link>>

  predicate Edge(t: Topology, u: RouterId, v: RouterId) {
    u in t && v in t && exists l :: l in t[u] && l.active && l.rid == v
  }

  /** `v` is at the end of a walk of `k` active links from `src`, through known routers. */
  ghost predicate Reach(t: Topology, src: RouterId, v: RouterId, k: nat)
    decreases k
  {
    if k == 0 then
      v == src && v in t
    else
      exists u :: Reach(t, src, u, k - 1) && Edge(t, u, v)
  }

  /** A way of active links between listed routers. */
  ghost predicate ActivePath(t: Topology, path: seq<RouterId>) {
    && path != [] && (forall i :: 0 <= i < |path| ==> path[i] in t)
    && forall i :: 0 < i < |path| ==> Linked(t, path[i - 1], path[i])
  }

  /** An active link of `u` names `v`. */
  predicate Linked(t: Topology, u: RouterId, v: RouterId) {
    u in t && exists l :: l in t[u] && l.active && l.rid == v
  }

  ghost predicate PathTo(t: Topology, path: seq<RouterId>, src: RouterId, v: RouterId, k: nat) {
    ActivePath(t, path) && |path| == k + 1 && path[0] == src && path[k] == v
  }

  /** Reaching in k steps is having a way of k active links. */
  lemma {:induction false} ReachIsPath(t: Topology, src: RouterId, v: RouterId, k: nat)
    ensures Reach(t, src, v, k) <==> exists path :: PathTo(t, path, src, v, k)
    decreases k
  {
    if k == 0 {
      if Reach(t, src, v, 0) {
        assert PathTo(t, [src], src, v, 0);
      }
    } else {
      if Reach(t, src, v, k) {
        var u :| Reach(t, src, u, k - 1) && Edge(t, u, v);
        ReachIsPath(t, src, u, k - 1);
        var path :| PathTo(t, path, src, u, k - 1);
        PathGrows(t, path, src, u, k - 1, v);
      }
      if exists path :: PathTo(t, path, src, v, k) {
        var path :| PathTo(t, path, src, v, k);
        PathShrinks(t, path, src, v, k);
        ReachIsPath(t, src, path[k - 1], k - 1);
      }
    }
  }

  lemma PathGrows(t: Topology, path: seq<RouterId>, src: RouterId, u: RouterId, k: nat, v: RouterId)
    requires PathTo(t, path, src, u, k) && Edge(t, u, v)
    ensures PathTo(t, path + [v], src, v, k + 1)
  {
    hide Linked;
    var longer := path + [v];
    LinkedIsEdge(t, u, v);
    assert forall i :: 0 <= i < |path| ==> longer[i] == path[i];
  }

  lemma LinkedIsEdge(t: Topology, u: RouterId, v: RouterId)
    ensures Edge(t, u, v) <==> u in t && v in t && Linked(t, u, v)
  {
  }

  lemma PathShrinks(t: Topology, path: seq<RouterId>, src: RouterId, v: RouterId, k: nat)
    requires k > 0 && PathTo(t, path, src, v, k)
    ensures PathTo(t, path[..k], src, path[k - 1], k - 1) && Edge(t, path[k - 1], v)
  {
    hide Linked;
    var shorter := path[..k];
    assert forall i :: 0 <= i < |shorter| ==> shorter[i] == path[i];
    LinkedIsEdge(t, path[k - 1], path[k]);
  }

  /** `d` is the minimum hop count from `src` to `v`. */
  ghost predicate IsDistance(t: Topology, src: RouterId, v: RouterId, d: nat) {
    Reach(t, src, v, d) && forall k: nat :: Reach(t, src, v, k) ==> d <= k
  }

  ghost predicate Unreachable(t: Topology, src: RouterId, v: RouterId) {
    forall k: nat :: !Reach(t, src, v, k)
  }

  lemma {:induction false} ReachTrans(t: Topology, a: RouterId, b: RouterId, c: RouterId, i: nat, j: nat)
    requires Reach(t, a, b, i) && Reach(t, b, c, j)
    ensures Reach(t, a, c, i + j)
    decreases j
  {
    if j > 0 {
      var u :| Reach(t, b, u, j - 1) && Edge(t, u, c);
      ReachTrans(t, a, b, u, i, j - 1);
      assert Reach(t, a, u, i + j - 1) && Edge(t, u, c);
    }
  }

  /**
   The shortest-path fields of a router record. `run` and `level` are the number of the run that
   last set `prev` and the distance it set then.
   */
  datatype Mark = Mark(distance: nat, found: bool, prev: Option<RouterId>, run: nat, level: nat)

  type Marks = map<RouterId, Mark>

  /** Following `prev` either reaches a later run, or comes closer within the same run. */
  predicate Before(p: Mark, v: Mark) {
    p.run > v.run || (p.run == v.run && p.level < v.level)
  }

  ghost predicate LinkOk(our: RouterId, m: Marks, run: nat, v: RouterId)
    requires v in m
  {
    m[v].run <= run &&
    match m[v].prev
    case None => true
    case Some(p) => v != our && p in m && (p == our || (m[p].prev.Some? && Before(m[p], m[v])))
  }

  /** Every predecessor pointer leads on, and only our own router has reached the end. */
  ghost predicate Forest(our: RouterId, m: Marks, run: nat) {
    our in m && m[our].prev == None && forall v :: v in m ==> LinkOk(our, m, run, v)
  }

  /** The router after ours on the way to `r`: the walk of add_route_wrappers. */
  ghost function FirstHop(our: RouterId, m: Marks, run: nat, r: RouterId): (f: RouterId)
    requires Forest(our, m, run) && r in m && m[r].prev.Some?
    ensures f in m && m[f].prev == Some(our)
    decreases run - m[r].run, m[r].level
  {
    assert LinkOk(our, m, run, r);
    var p := m[r].prev.value;
    if p == our then
      r
    else
      assert LinkOk(our, m, run, p);
      FirstHop(our, m, run, p)
  }

  // ---------------------------------------------------------------- one run

  /** The marks after the initialising loop. */
  function Started(our: RouterId, m: Marks): Marks {
    map v | v in m :: m[v].(distance := if v == our then 0 else UNREACHED, found := v == our)
  }

  function MarkFound(m: Marks, w: RouterId): Marks
    requires w in m
  {
    m[w := m[w].(found := true)]
  }

  predicate Improves(t: Topology, m: Marks, w: RouterId, v: RouterId)
    requires w in m && v in m
  {
    !m[v].found && Edge(t, w, v) && m[w].distance + 1 < m[v].distance
  }

  /** The marks after update_neighbor_distance for `w`. */
  ghost function Relaxed(t: Topology, m: Marks, w: RouterId, run: nat): Marks
    requires w in m
  {
    map v | v in m ::
      if Improves(t, m, w, v) then Mark(m[w].distance + 1, false, Some(w), run, m[w].distance + 1) else m[v]
  }

  /** A router keeps its distance and its predecessor unless the distance falls: of equal ways the first one stays. */
  lemma RelaxOnlyLowers(t: Topology, m: Marks, w: RouterId, run: nat, v: RouterId)
    requires w in m && v in m
    ensures var r := Relaxed(t, m, w, run); v in r && r[v].distance <= m[v].distance
    ensures var r := Relaxed(t, m, w, run); r[v] != m[v] ==>
              && !m[v].found && r[v].distance == m[w].distance + 1 < m[v].distance && r[v].prev == Some(w)
              && PathTo(t, [w, v], w, v, 1)
    ensures m[v].distance <= m[w].distance + 1 || m[v].found ==> Relaxed(t, m, w, run)[v] == m[v]
  {
    if Edge(t, w, v) {
      var path := [w, v];
      assert path[0] in t && path[1] in t;
    }
  }

  /** A router that is not reached still points where earlier runs left it. */
  ghost predicate Leftover(m0: Marks, m: Marks) {
    m.Keys == m0.Keys && forall v :: v in m && m[v].distance == UNREACHED ==> m[v].prev == m0[v].prev
  }

  lemma StartLeaves(our: RouterId, m: Marks)
    ensures Leftover(m, Started(our, m))
  {
  }

  lemma RelaxLeaves(t: Topology, m: Marks, w: RouterId, run: nat)
    requires w in m && forall v :: v in m ==> m[v].distance <= UNREACHED
    ensures Leftover(m, Relaxed(t, MarkFound(m, w), w, run))
  {
    hide Edge;
  }

  /** And a router that was not reached before this round was not moved by the rounds before. */
  lemma LeavesBoth(m0: Marks, m: Marks, m': Marks)
    requires Leftover(m0, m) && Leftover(m, m')
    requires forall v :: v in m && v in m' ==> m'[v].distance <= m[v].distance && m[v].distance <= UNREACHED
    ensures Leftover(m0, m')
  {
  }

  lemma RelaxLowers(t: Topology, m: Marks, w: RouterId, run: nat)
    requires w in m
    ensures forall v :: v in m ==>
              v in Relaxed(t, MarkFound(m, w), w, run) && Relaxed(t, MarkFound(m, w), w, run)[v].distance <= m[v].distance
  {
    hide Edge;
  }

  /** The router `n` predecessor pointers away from `r`. */
  function Follow(m: Marks, r: RouterId, n: nat): Option<RouterId>
    decreases n
  {
    if n == 0 then Some(r) else if r in m && m[r].prev.Some? then Follow(m, m[r].prev.value, n - 1) else None
  }

  /** The walk's result lies on the chain of pointers, one before our router. */
  lemma {:induction false} FirstHopIsOnChain(our: RouterId, m: Marks, run: nat, r: RouterId) returns (n: nat)
    requires Forest(our, m, run) && r in m && m[r].prev.Some?
    ensures Follow(m, r, n) == Some(FirstHop(our, m, run, r)) && Follow(m, r, n + 1) == Some(our)
    decreases run - m[r].run, m[r].level
  {
    assert LinkOk(our, m, run, r);
    var p := m[r].prev.value;
    if p == our {
      n := 0;
      assert Follow(m, r, 1) == Follow(m, p, 0);
    } else {
      assert LinkOk(our, m, run, p);
      n := FirstHopIsOnChain(our, m, run, p);
      n := n + 1;
    }
  }

  /** A router reached in this run was reached from one that is done, one hop closer. */
  ghost predicate Stepped(t: Topology, m: Marks, done: set<RouterId>, run: nat, v: RouterId)
    requires v in m
  {
    match m[v].prev
    case None => false
    case Some(p) =>
      && p in done && p in m && m[p].distance + 1 == m[v].distance && Edge(t, p, v)
      && m[v].run == run && m[v].level == m[v].distance
  }

  /** What holds of the marks and the set of finished routers. */
  ghost predicate Marked(t: Topology, our: RouterId, m: Marks, done: set<RouterId>) {
    && m.Keys == t.Keys && our in m && done <= m.Keys
    && m[our].distance == 0
    && (done != {} ==> our in done)
    && (forall v :: v in m ==> (m[v].found <==> v in done || v == our))
    && (forall v :: v in m ==> m[v].distance <= UNREACHED)
    && (forall u :: u in done ==> m[u].distance < UNREACHED && m[u].distance < |done|)
    && (forall v :: v in m && m[v].distance < UNREACHED ==> m[v].distance <= |done|)
  }

  ghost predicate Tree(t: Topology, our: RouterId, m: Marks, done: set<RouterId>, run: nat) {
    && (forall v :: v in m && v != our && m[v].distance < UNREACHED ==> Stepped(t, m, done, run, v))
    && (forall v :: v in m && m[v].run == run ==> m[v].distance < UNREACHED)
  }

  ghost predicate Sound(t: Topology, our: RouterId, m: Marks) {
    forall v :: v in m && m[v].distance < UNREACHED ==> Reach(t, our, v, m[v].distance)
  }

  /** Finished routers have relaxed their links, and are no further than the rest. */
  ghost predicate Frontier(t: Topology, m: Marks, done: set<RouterId>) {
    && (forall u, v :: u in done && u in m && v in m && Edge(t, u, v) ==> m[v].distance <= m[u].distance + 1)
    && (forall u, v :: u in done && u in m && v in m && v !in done ==> m[u].distance <= m[v].distance)
  }

  ghost predicate Spf(t: Topology, our: RouterId, m: Marks, done: set<RouterId>, run: nat) {
    && Marked(t, our, m, done) && Forest(our, m, run) && Tree(t, our, m, done, run)
    && Sound(t, our, m) && Frontier(t, m, done)
  }

  /** The router get_shortest picks next (or ours, in the first round). */
  ghost predicate Closest(our: RouterId, m: Marks, done: set<RouterId>, w: RouterId) {
    && w in m && w !in done && m[w].distance < UNREACHED
    && (done == {} ==> w == our)
    && forall v :: v in m && v !in done ==> m[w].distance <= m[v].distance
  }

  lemma StartIsSpf(t: Topology, our: RouterId, m: Marks, run: nat)
    requires m.Keys == t.Keys && our in m && Forest(our, m, run) && run > 0
    requires forall v :: v in m ==> m[v].run < run
    ensures Spf(t, our, Started(our, m), {}, run)
    ensures Closest(our, Started(our, m), {}, our)
  {
    var s := Started(our, m);
    forall v | v in s ensures LinkOk(our, s, run, v) { assert LinkOk(our, m, run, v); }
    assert Reach(t, our, our, 0);
  }

  /** Router ids are nonzero 32-bit words, so fewer than 2^32 of them fit in any list. */
  lemma {:induction false} FewIds(ids: set<RouterId>, n: nat)
    requires forall x :: x in ids ==> 0 < x <= n
    ensures |ids| <= n
  {
    if n == 0 {
      assert ids == {};
    } else if n < 0x1_0000_0000 {
      FewIds(ids - {n}, n - 1);
    } else {
      FewIds(ids, n - 1);
    }
  }

  /** There is room below the "infinite" distance for one more hop, and for a router not yet finished. */
  lemma RoomForHop(t: Topology, our: RouterId, m: Marks, done: set<RouterId>, w: RouterId)
    requires Marked(t, our, m, done) && w in m && w !in done && m[w].distance < UNREACHED && 0 !in t
    ensures m[w].distance + 1 <= UNREACHED
    ensures forall v :: v in m && v !in done && v != w ==> m[w].distance + 1 < UNREACHED
  {
    FewIds(m.Keys, UNREACHED);
    assert done + {w} <= m.Keys;
    CardinalityBound(done + {w}, m.Keys);
    forall v | v in m && v !in done && v != w
      ensures m[w].distance + 1 < UNREACHED
    {
      assert done + {w, v} <= m.Keys && |done + {w, v}| == |done| + 2;
      CardinalityBound(done + {w, v}, m.Keys);
    }
  }

  lemma {:induction false} CardinalityBound(a: set<RouterId>, b: set<RouterId>)
    requires a <= b
    ensures |a| <= |b|
  {
    if a != {} {
      var x :| x in a;
      CardinalityBound(a - {x}, b - {x});
    }
  }

  lemma RelaxMarked(t: Topology, our: RouterId, m: Marks, done: set<RouterId>, w: RouterId, run: nat)
    requires Marked(t, our, m, done) && Closest(our, m, done, w) && 0 !in t
    ensures Marked(t, our, Relaxed(t, MarkFound(m, w), w, run), done + {w})
  {
    hide Edge;
    RoomForHop(t, our, m, done, w);
    var f := MarkFound(m, w);
    var m' := Relaxed(t, f, w, run);
    assert m'.Keys == m.Keys;
    assert |done + {w}| == |done| + 1;
  }

  lemma RelaxSound(t: Topology, our: RouterId, m: Marks, w: RouterId, run: nat)
    requires w in m && Sound(t, our, m) && m[w].distance < UNREACHED
    ensures Sound(t, our, Relaxed(t, MarkFound(m, w), w, run))
  {
    hide Edge;
    var m' := Relaxed(t, MarkFound(m, w), w, run);
    forall v | v in m' && m'[v].distance < UNREACHED
      ensures Reach(t, our, v, m'[v].distance)
    {
      if Improves(t, MarkFound(m, w), w, v) {
        assert Reach(t, our, w, m[w].distance) && Edge(t, w, v);
      }
    }
  }

  /** Relaxing lowers distances only, and only those of unfinished routers, to one beyond `w`. */
  lemma RelaxedDistance(t: Topology, m: Marks, w: RouterId, run: nat, v: RouterId)
    requires w in m && v in m
    ensures var d := Relaxed(t, MarkFound(m, w), w, run)[v].distance;
            && (d == m[v].distance || (d == m[w].distance + 1 < m[v].distance))
            && (m[v].found || v == w ==> d == m[v].distance)
            && (!m[v].found && Edge(t, w, v) ==> d <= m[w].distance + 1)
  {
    hide Edge;
  }

  lemma RelaxFrontier(t: Topology, our: RouterId, m: Marks, done: set<RouterId>, w: RouterId, run: nat)
    requires Marked(t, our, m, done) && Frontier(t, m, done) && Closest(our, m, done, w)
    ensures Frontier(t, Relaxed(t, MarkFound(m, w), w, run), done + {w})
  {
    hide Edge, Relaxed;
    var m' := Relaxed(t, MarkFound(m, w), w, run);
    RelaxedKeys(t, m, w, run);
    forall u, v | u in done + {w} && u in m' && v in m' && Edge(t, u, v)
      ensures m'[v].distance <= m'[u].distance + 1
    {
      RelaxedDistance(t, m, w, run, u);
      RelaxedDistance(t, m, w, run, v);
    }
    forall u, v | u in done + {w} && u in m' && v in m' && v !in done + {w}
      ensures m'[u].distance <= m'[v].distance
    {
      RelaxedDistance(t, m, w, run, u);
      RelaxedDistance(t, m, w, run, v);
    }
  }

  lemma RelaxedKeys(t: Topology, m: Marks, w: RouterId, run: nat)
    requires w in m
    ensures Relaxed(t, MarkFound(m, w), w, run).Keys == m.Keys
  {
  }

  lemma RelaxTree(t: Topology, our: RouterId, m: Marks, done: set<RouterId>, w: RouterId, run: nat)
    requires Marked(t, our, m, done) && Tree(t, our, m, done, run) && Closest(our, m, done, w) && 0 !in t
    ensures Tree(t, our, Relaxed(t, MarkFound(m, w), w, run), done + {w}, run)
  {
    hide Edge;
    RoomForHop(t, our, m, done, w);
    var f := MarkFound(m, w);
    var m' := Relaxed(t, f, w, run);
    forall v | v in m' && v != our && m'[v].distance < UNREACHED
      ensures Stepped(t, m', done + {w}, run, v)
    {
      if !Improves(t, f, w, v) {
        assert Stepped(t, m, done, run, v);
        assert m'[m[v].prev.value].distance == m[m[v].prev.value].distance;
      }
    }
  }

  lemma RelaxedMark(t: Topology, m: Marks, w: RouterId, run: nat, v: RouterId)
    requires w in m && v in m
    ensures var m' := Relaxed(t, MarkFound(m, w), w, run);
            && v in m'
            && (m'[v].(found := true) == m[v].(found := true)
                || (m'[v] == Mark(m[w].distance + 1, false, Some(w), run, m[w].distance + 1) && !m[v].found && v != w))
  {
    hide Edge;
  }

  lemma RelaxLink(t: Topology, our: RouterId, m: Marks, done: set<RouterId>, w: RouterId, run: nat, v: RouterId)
    requires Marked(t, our, m, done) && Tree(t, our, m, done, run) && Forest(our, m, run) && Closest(our, m, done, w)
    requires v in m
    ensures v in Relaxed(t, MarkFound(m, w), w, run) && LinkOk(our, Relaxed(t, MarkFound(m, w), w, run), run, v)
  {
    hide Edge, Relaxed;
    var m' := Relaxed(t, MarkFound(m, w), w, run);
    RelaxedMark(t, m, w, run, v);
    RelaxedMark(t, m, w, run, w);
    assert LinkOk(our, m, run, v) && LinkOk(our, m, run, w);
    if w != our {
      assert Stepped(t, m, done, run, w);
    }
    if m'[v].(found := true) == m[v].(found := true) && m[v].prev.Some? {
      var p := m[v].prev.value;
      RelaxedMark(t, m, w, run, p);
      assert m[v].run == run ==> Stepped(t, m, done, run, v);
    }
  }

  lemma RelaxForest(t: Topology, our: RouterId, m: Marks, done: set<RouterId>, w: RouterId, run: nat)
    requires Marked(t, our, m, done) && Tree(t, our, m, done, run) && Forest(our, m, run) && Closest(our, m, done, w)
    ensures Forest(our, Relaxed(t, MarkFound(m, w), w, run), run)
  {
    hide Edge, Relaxed, Tree;
    var m' := Relaxed(t, MarkFound(m, w), w, run);
    RelaxedKeys(t, m, w, run);
    RelaxedMark(t, m, w, run, our);
    forall v | v in m' ensures LinkOk(our, m', run, v) {
      RelaxLink(t, our, m, done, w, run, v);
    }
  }

  /** Finishing the closest router keeps everything the argument rests on. */
  lemma RelaxIsSpf(t: Topology, our: RouterId, m: Marks, done: set<RouterId>, w: RouterId, run: nat)
    requires Spf(t, our, m, done, run) && Closest(our, m, done, w) && 0 !in t
    ensures Spf(t, our, Relaxed(t, MarkFound(m, w), w, run), done + {w}, run)
  {
    hide Marked, Forest, Tree, Sound, Frontier;
    RelaxMarked(t, our, m, done, w, run);
    RelaxSound(t, our, m, w, run);
    RelaxFrontier(t, our, m, done, w, run);
    RelaxTree(t, our, m, done, w, run);
    RelaxForest(t, our, m, done, w, run);
  }

  // ---------------------------------------------------------------- the result of a run

  ghost predicate Finished(t: Topology, our: RouterId, m: Marks, done: set<RouterId>, run: nat) {
    && 0 !in t && Spf(t, our, m, done, run) && done != {}
    && forall v :: v in m && v !in done ==> m[v].distance == UNREACHED
  }

  lemma {:induction false} NoShorterWalk(t: Topology, our: RouterId, m: Marks, done: set<RouterId>, run: nat,
                                         v: RouterId, k: nat)
    requires Finished(t, our, m, done, run) && Reach(t, our, v, k)
    ensures v in m && m[v].distance < UNREACHED && m[v].distance <= k
    decreases k
  {
    hide Edge, Tree, Sound, Forest;
    if k > 0 {
      var u :| Reach(t, our, u, k - 1) && Edge(t, u, v);
      NoShorterWalk(t, our, m, done, run, u, k - 1);
      EdgeKnown(t, u, v);
      HopIsFinite(t, our, m, done, u, v);
    }
  }

  lemma EdgeKnown(t: Topology, u: RouterId, v: RouterId)
    requires Edge(t, u, v)
    ensures u in t && v in t
  {
  }

  /** One hop on from a finished router is still a finite distance, and not an unfinished router. */
  lemma HopIsFinite(t: Topology, our: RouterId, m: Marks, done: set<RouterId>, u: RouterId, v: RouterId)
    requires Marked(t, our, m, done) && Frontier(t, m, done) && u in done && v in m && Edge(t, u, v) && 0 !in t
    ensures m[v].distance < UNREACHED
  {
    hide Edge;
    if v !in done {
      FewIds(m.Keys, UNREACHED);
      CardinalityBound(done + {v}, m.Keys);
      assert |done + {v}| == |done| + 1;
    }
  }

  /** Each router ends with its exact hop count, or unreached exactly if it cannot be reached. */
  lemma DistancesAreExact(t: Topology, our: RouterId, m: Marks, done: set<RouterId>, run: nat, v: RouterId)
    requires Finished(t, our, m, done, run) && v in m
    ensures m[v].distance < UNREACHED ==> IsDistance(t, our, v, m[v].distance) && m[v].distance < |m|
    ensures m[v].distance == UNREACHED <==> Unreachable(t, our, v)
    ensures m[v].distance == 0 <==> v == our
    ensures m[v].distance <= UNREACHED
  {
    hide Edge, Forest, Frontier;
    forall k: nat | Reach(t, our, v, k)
      ensures m[v].distance < UNREACHED && m[v].distance <= k
    {
      NoShorterWalk(t, our, m, done, run, v, k);
    }
    CardinalityBound(done, m.Keys);
    if v != our && m[v].distance < UNREACHED {
      assert Stepped(t, m, done, run, v);
    }
    if v in done { assert Reach(t, our, v, m[v].distance); }
  }

  /** For a reached router the first hop is a neighbour of ours, on a shortest path to it. */
  lemma {:induction false} FirstHopIsOnShortestPath(t: Topology, our: RouterId, m: Marks, done: set<RouterId>, run: nat, r: RouterId)
    requires Finished(t, our, m, done, run) && r in m && r != our && m[r].distance < UNREACHED
    ensures m[r].prev.Some? && Forest(our, m, run)
    ensures var f := FirstHop(our, m, run, r);
            Edge(t, our, f) && m[f].distance == 1 && Reach(t, f, r, m[r].distance - 1)
    decreases m[r].distance
  {
    hide Edge, Sound, Frontier;
    assert Stepped(t, m, done, run, r);
    assert LinkOk(our, m, run, r);
    var p := m[r].prev.value;
    if p == our {
      assert Reach(t, r, r, 0);
    } else {
      assert Stepped(t, m, done, run, p);
      FirstHopIsOnShortestPath(t, our, m, done, run, p);
      var f := FirstHop(our, m, run, p);
      assert Reach(t, f, p, m[p].distance - 1) && Edge(t, p, r);
    }
  }
}
