/**
 Routers in a line, in any order of ids. The lines meet the conditions of the flooding theorems up to
 65 routers; beyond that the time-to-live of 64 runs out before an LSU has reached the far end. And
 whatever the length, two routers whose ids are byte-swapped forms of each other stay strangers.
 */
module FloodLine {
  import opened Net
  import opened Pwospf
  import opened Flood
  import opened FloodConvergence
  import opened FloodQuiescence

  const MASK: Ip := 0xFFFF_FFFC

  /** The addresses of the link after position `p`: where it starts, and where it ends. */
  function Near(p: nat): Ip
    requires p < 256
  {
    4 * (p as bv32) + 1
  }

  function Far(p: nat): Ip
    requires p < 256
  {
    4 * (p as bv32) + 2
  }

  predicate Sized(ids: seq<RouterId>) {
    1 < |ids| < 256 && Distinct(ids)
  }

  /** The interface at position `p` towards the router before it, and the one towards the router after it. */
  function Up(ids: seq<RouterId>, p: nat): Iface
    requires 0 < p < |ids| < 256
  {
    Iface("up", Far(p - 1), MASK, true, [Nbr(ids[p - 1], Near(p - 1), 0)])
  }

  function Down(ids: seq<RouterId>, p: nat): Iface
    requires p + 1 < |ids| < 256
  {
    Iface("down", Near(p), MASK, true, [Nbr(ids[p + 1], Far(p), 0)])
  }

  function Sides(ids: seq<RouterId>, p: nat): (sides: seq<Iface>)
    requires p < |ids| < 256
    ensures forall i :: 0 <= i < |sides| ==> |sides[i].nbrs| == 1
  {
    (if p > 0 then [Up(ids, p)] else []) + (if p + 1 < |ids| then [Down(ids, p)] else [])
  }

  /** What a router with these sides advertises: one link per side. */
  function LinksOf(sides: seq<Iface>): (links: seq<Link>)
    requires forall i :: 0 <= i < |sides| ==> |sides[i].nbrs| == 1
    ensures |links| == |sides|
  {
    seq(|sides|, i requires 0 <= i < |sides| =>
      Link(sides[i].Subnet(), sides[i].mask, sides[i].nbrs[0].rid, true))
  }

  function Pos(ids: seq<RouterId>, r: RouterId): (p: nat)
    requires r in ids
    ensures p < |ids| && ids[p] == r
  {
    if ids[0] == r then 0 else 1 + Pos(ids[1..], r)
  }

  function Line(ids: seq<RouterId>): Topology
    requires Sized(ids)
  {
    map r | r in ids :: Sides(ids, Pos(ids, r))
  }

  function Start(ids: seq<RouterId>, r: RouterId): Node
    requires Sized(ids) && r in ids
  {
    var sides := Sides(ids, Pos(ids, r));
    Node(r, [Record(r, 0, LinksOf(sides))], sides)
  }

  /** Every router has heard its neighbours' hellos; nobody has sent an LSU yet. */
  function LineNetwork(ids: seq<RouterId>): Network
    requires Sized(ids)
  {
    Network(map r | r in ids :: Start(ids, r), [], map r | r in ids :: [], map r | r in ids :: {})
  }

  /** Every router owns the addresses of its two sides. */
  predicate Owns(owner: map<Ip, RouterId>, ids: seq<RouterId>)
    requires |ids| < 256
  {
    forall p :: 0 <= p < |ids| ==> OwnsBoth(owner, ids, p)
  }

  predicate OwnsBoth(owner: map<Ip, RouterId>, ids: seq<RouterId>, p: nat)
    requires p < |ids| < 256
  {
    && Near(p) in owner && owner[Near(p)] == ids[p]
    && (p > 0 ==> Far(p - 1) in owner && owner[Far(p - 1)] == ids[p])
  }

  /**
   The check that guards LSUs guards hellos too: a router drops what comes from the byte-swapped
   form of its own id. So these lines are the ones hellos can set up.
   */
  predicate HellosPass(ids: seq<RouterId>) {
    forall p :: 0 < p < |ids| ==> Swapped(ids[p - 1]) != ids[p] && Swapped(ids[p]) != ids[p - 1]
  }

  // ---------------------------------------------------------------- who is next to whom

  lemma PosIs(ids: seq<RouterId>, p: nat)
    requires Distinct(ids) && p < |ids|
    ensures Pos(ids, ids[p]) == p
  {
  }

  lemma LineAt(ids: seq<RouterId>, p: nat)
    requires Sized(ids) && p < |ids|
    ensures ids[p] in Line(ids) && Line(ids)[ids[p]] == Sides(ids, p)
  {
    hide Sides, Pos;
    PosIs(ids, p);
  }

  lemma SideNeighbour(i: Iface, src: Ip, dst: Ip)
    requires |i.nbrs| == 1 && i.active
    ensures Neighbour([i], src, dst) <==> src == i.ip && dst == i.nbrs[0].ip
  {
    assert i in [i] && i.nbrs[0] in i.nbrs;
  }

  lemma NeighbourConcat(a: seq<Iface>, b: seq<Iface>, src: Ip, dst: Ip)
    ensures Neighbour(a + b, src, dst) <==> Neighbour(a, src, dst) || Neighbour(b, src, dst)
  {
    hide HeardAt;
    if Neighbour(a, src, dst) {
      var i :| i in a && i.active && i.ip == src && HeardAt(i.nbrs, dst);
      assert i in a + b;
    }
    if Neighbour(b, src, dst) {
      var i :| i in b && i.active && i.ip == src && HeardAt(i.nbrs, dst);
      assert i in a + b;
    }
  }

  lemma SidesNeighbours(ids: seq<RouterId>, p: nat, src: Ip, dst: Ip)
    requires p < |ids| < 256
    ensures Neighbour(Sides(ids, p), src, dst) <==>
            || (p > 0 && src == Far(p - 1) && dst == Near(p - 1))
            || (p + 1 < |ids| && src == Near(p) && dst == Far(p))
  {
    hide Near, Far, Neighbour;
    NeighbourConcat(if p > 0 then [Up(ids, p)] else [], if p + 1 < |ids| then [Down(ids, p)] else [], src, dst);
    NoSides(src, dst);
    if p > 0 { SideNeighbour(Up(ids, p), src, dst); }
    if p + 1 < |ids| { SideNeighbour(Down(ids, p), src, dst); }
  }

  lemma NoSides(src: Ip, dst: Ip)
    ensures !Neighbour([], src, dst)
  {
  }

  /** The owners of the addresses a router sends to. */
  lemma OwnersBeside(owner: map<Ip, RouterId>, ids: seq<RouterId>, p: nat)
    requires |ids| < 256 && Owns(owner, ids) && p < |ids|
    ensures OwnsBoth(owner, ids, p)
    ensures p > 0 ==> Near(p - 1) in owner && owner[Near(p - 1)] == ids[p - 1]
    ensures p + 1 < |ids| ==> Far(p) in owner && owner[Far(p)] == ids[p + 1]
  {
    hide Near, Far;
    if p > 0 {
      assert OwnsBoth(owner, ids, p - 1);
    }
    if p + 1 < |ids| {
      assert OwnsBoth(owner, ids, p + 1);
    }
  }

  lemma LineAdjacent(owner: map<Ip, RouterId>, ids: seq<RouterId>, p: nat, q: nat)
    requires Sized(ids) && Owns(owner, ids) && p < |ids| && q < |ids|
    ensures Adjacent(owner, Line(ids), ids[p], ids[q]) <==> q == p + 1 || p == q + 1
  {
    hide Near, Far, Neighbour, Sides, Line, OwnsBoth, Owns;
    LineAt(ids, p);
    OwnersBeside(owner, ids, p);
    if Adjacent(owner, Line(ids), ids[p], ids[q]) {
      var src, dst :| Neighbour(Line(ids)[ids[p]], src, dst) && dst in owner && owner[dst] == ids[q];
      SidesNeighbours(ids, p, src, dst);
    }
    if q == p + 1 {
      SidesNeighbours(ids, p, Near(p), Far(p));
    }
    if p == q + 1 {
      SidesNeighbours(ids, p, Far(p - 1), Near(p - 1));
    }
  }

  lemma LineIsWired(owner: map<Ip, RouterId>, ids: seq<RouterId>)
    requires Sized(ids) && Owns(owner, ids)
    ensures WellWired(owner, Line(ids))
  {
    hide Near, Far, Neighbour, Sides, Owns;
    forall r, src, dst | r in Line(ids) && Neighbour(Line(ids)[r], src, dst)
      ensures src in owner && owner[src] == r && dst in owner && owner[dst] in Line(ids)
    {
      var p := Pos(ids, r);
      LineAt(ids, p);
      OwnersBeside(owner, ids, p);
      SidesNeighbours(ids, p, src, dst);
      if p > 0 { LineAt(ids, p - 1); }
      if p + 1 < |ids| { LineAt(ids, p + 1); }
    }
  }

  // ---------------------------------------------------------------- the start

  lemma AloneIsListed(n: Node)
    requires |n.db| == 1 && n.db[0].rid == n.rid
    ensures ListOk(n)
  {
  }

  lemma LinksAreMasked(sides: seq<Iface>)
    requires forall i :: 0 <= i < |sides| ==> |sides[i].nbrs| == 1
    ensures MaskedLinks(LinksOf(sides))
  {
    hide Iface.Subnet, MaskedLink;
    forall l | l in LinksOf(sides) ensures MaskedLink(l) {
      var i :| 0 <= i < |sides| && l == LinksOf(sides)[i];
      SideIsMasked(sides[i], sides[i].nbrs[0].rid);
    }
  }

  lemma SideIsMasked(i: Iface, rid: RouterId)
    ensures MaskedLink(Link(i.Subnet(), i.mask, rid, true))
  {
  }

  lemma LineIsInitial(ids: seq<RouterId>)
    requires Sized(ids)
    ensures Initial(LineNetwork(ids)) && OnTopology(Line(ids), LineNetwork(ids))
    ensures forall r :: r in LineNetwork(ids).nodes <==> r in ids
  {
    hide Sides, MaskedLinks, ListOk, Pos, Start;
    forall r | r in ids
      ensures ListOk(Start(ids, r)) && Start(ids, r).rid == r && Start(ids, r).ifaces == Sides(ids, Pos(ids, r))
      ensures var db := Start(ids, r).db; |db| == 1 && db[0].rid == r && db[0].seqNo == 0 && MaskedLinks(db[0].links)
    {
      StartIsAlone(ids, r);
    }
  }

  lemma StartIsAlone(ids: seq<RouterId>, r: RouterId)
    requires Sized(ids) && r in ids
    ensures var n := Start(ids, r);
            && ListOk(n) && n.rid == r && n.ifaces == Sides(ids, Pos(ids, r)) && |n.db| == 1
            && n.db[0].rid == r && n.db[0].seqNo == 0 && MaskedLinks(n.db[0].links)
            && |n.db[0].links| == |n.ifaces|
  {
    hide Sides, MaskedLinks, ListOk, Pos, LinksOf;
    AloneIsListed(Start(ids, r));
    LinksAreMasked(Sides(ids, Pos(ids, r)));
  }

  lemma SideDegrees(a: seq<Iface>, b: seq<Iface>)
    requires |a| <= 1 && |b| <= 1
    requires (forall i :: 0 <= i < |a| ==> |a[i].nbrs| == 1) && (forall i :: 0 <= i < |b| ==> |b[i].nbrs| == 1)
    ensures Degree(a + b) <= 2
  {
    var all := a + b;
    if |all| == 2 {
      assert all[..1][..0] == [] && all[..1][0] == a[0] && all[1] == b[0];
      assert Degree(all[..1]) <= 1;
    } else if |all| == 1 {
      assert all[..0] == [];
    }
  }

  lemma LineDegree(ids: seq<RouterId>, p: nat)
    requires Sized(ids) && p < |ids|
    ensures Degree(Sides(ids, p)) <= 2 && Sides(ids, p) != []
  {
    hide Degree, Near, Far;
    SideDegrees(if p > 0 then [Up(ids, p)] else [], if p + 1 < |ids| then [Down(ids, p)] else []);
  }

  function Members(ids: seq<RouterId>): set<RouterId> {
    set r | r in ids
  }

  lemma {:induction false} DistinctCount(ids: seq<RouterId>)
    requires Distinct(ids)
    ensures |Members(ids)| == |ids|
  {
    if ids != [] {
      var init, last := ids[..|ids| - 1], ids[|ids| - 1];
      DistinctCount(init);
      assert ids == init + [last] && last !in init;
      assert Members(ids) == Members(init) + {last};
    }
  }

  lemma LineCount(ids: seq<RouterId>)
    requires Sized(ids)
    ensures |Line(ids)| == |ids| && |LineNetwork(ids).nodes| == |ids|
  {
    hide Sides, Pos, LinksOf;
    DistinctCount(ids);
    assert Line(ids).Keys == Members(ids) && |Line(ids)| == |Line(ids).Keys|;
    assert LineNetwork(ids).nodes.Keys == Members(ids);
    assert |LineNetwork(ids).nodes| == |LineNetwork(ids).nodes.Keys|;
  }

  /** A line of at most 65 routers can start as the flooding theorems require. */
  lemma LineCanStart(owner: map<Ip, RouterId>, ids: seq<RouterId>)
    requires Sized(ids) && |ids| <= MAX_TTL + 1 && Owns(owner, ids)
    ensures Starting(owner, Line(ids), LineNetwork(ids), 2, ids)
  {
    hide Chain, WellWired, Owns, ShortChains, OnTopology, Initial, Sides, Pos, Degree, Start;
    LineIsInitial(ids);
    LineIsWired(owner, ids);
    LineCount(ids);
    SmallNetworksAreShort(owner, Line(ids));
    forall r | r in ids
      ensures Degree(Start(ids, r).ifaces) <= 2
      ensures |Start(ids, r).db| == 1 && Start(ids, r).db[0].links != []
    {
      LineDegree(ids, Pos(ids, r));
      StartIsAlone(ids, r);
    }
    SmallSquare(|ids|);
  }

  lemma SmallSquare(n: nat)
    requires n <= MAX_TTL + 1
    ensures n + n * n < WORD
  {
    assert n * n <= 65 * 65 by { assert n * n <= 65 * n; }
  }

  // ---------------------------------------------------------------- how far an LSU gets

  lemma ChainStep(owner: map<Ip, RouterId>, ids: seq<RouterId>, path: seq<RouterId>, k: nat)
    requires Sized(ids) && Chain(owner, Line(ids), ids[0], path) && k < |path|
    ensures path[k] in ids && path[0] == ids[0]
    ensures k > 0 ==> path[k - 1] in ids && Adjacent(owner, Line(ids), path[k - 1], path[k]) && Accepts(path[k], ids[0])
  {
    hide Adjacent, Accepts, Sides, Pos;
    assert path[k] in Line(ids);
    if k > 0 {
      assert path[k - 1] in Line(ids);
    }
  }

  /** Along a chain the position changes by one at each hop. */
  lemma ChainMoves(owner: map<Ip, RouterId>, ids: seq<RouterId>, path: seq<RouterId>, k: nat)
    requires Sized(ids) && Owns(owner, ids) && Chain(owner, Line(ids), ids[0], path) && 0 < k < |path|
    ensures path[k] in ids && path[k - 1] in ids && Pos(ids, path[k]) <= Pos(ids, path[k - 1]) + 1
  {
    hide Adjacent, Owns, Chain, Line, Pos, Accepts;
    ChainStep(owner, ids, path, k);
    LineAdjacent(owner, ids, Pos(ids, path[k - 1]), Pos(ids, path[k]));
  }

  lemma {:induction false} ChainAdvances(owner: map<Ip, RouterId>, ids: seq<RouterId>, path: seq<RouterId>, k: nat)
    requires Sized(ids) && Owns(owner, ids) && Chain(owner, Line(ids), ids[0], path) && k < |path|
    ensures path[k] in ids && Pos(ids, path[k]) <= k
  {
    hide Owns, Chain, Line, Pos;
    ChainStep(owner, ids, path, k);
    PosIs(ids, 0);
    if k > 0 {
      ChainAdvances(owner, ids, path, k - 1);
      ChainMoves(owner, ids, path, k);
    }
  }

  /** A chain that gets to position `q` has been at every position before it. */
  lemma {:induction false} ChainPasses(owner: map<Ip, RouterId>, ids: seq<RouterId>, path: seq<RouterId>, k: nat, q: nat)
    requires Sized(ids) && Owns(owner, ids) && Chain(owner, Line(ids), ids[0], path) && k < |path|
    requires path[k] in ids && 0 < q <= Pos(ids, path[k])
    ensures q < |ids| && Accepts(ids[q], ids[0])
  {
    hide Owns, Chain, Line, Pos, Accepts;
    ChainStep(owner, ids, path, k);
    PosIs(ids, 0);
    if q < Pos(ids, path[k]) {
      ChainMoves(owner, ids, path, k);
      ChainPasses(owner, ids, path, k - 1, q);
    }
  }

  /** The far end can be reached from the first router exactly if nobody behind it has its byte-swapped id. */
  lemma LineIsLinkedExactly(owner: map<Ip, RouterId>, ids: seq<RouterId>)
    requires Sized(ids) && Owns(owner, ids)
    ensures Linked(owner, Line(ids), ids[0], ids[|ids| - 1]) <==> Swapped(ids[0]) !in ids[1..]
  {
    hide Adjacent, Owns, Line, Pos, Swapped;
    var last := |ids| - 1;
    if Swapped(ids[0]) !in ids[1..] {
      forall k | 0 < k < |ids| ensures Adjacent(owner, Line(ids), ids[k - 1], ids[k]) && Accepts(ids[k], ids[0]) {
        LineAdjacent(owner, ids, k - 1, k);
        assert ids[1..][k - 1] == ids[k];
      }
      forall k | 0 <= k < |ids| ensures ids[k] in Line(ids) { LineAt(ids, k); }
      assert Chain(owner, Line(ids), ids[0], ids);
    }
    if Linked(owner, Line(ids), ids[0], ids[last]) {
      var path :| Chain(owner, Line(ids), ids[0], path) && path[|path| - 1] == ids[last];
      PosIs(ids, last);
      forall q | 0 < q < |ids| ensures ids[q] != Swapped(ids[0]) {
        ChainPasses(owner, ids, path, |path| - 1, q);
      }
    }
  }

  /** In a line of more than 65 routers the last one never learns of the first, though nothing is ever lost. */
  lemma FarEndStaysUnknown(owner: map<Ip, RouterId>, ids: seq<RouterId>, events: seq<Event>, end: Network)
    requires Sized(ids) && |ids| > MAX_TTL + 1 && Owns(owner, ids) && Initial(LineNetwork(ids))
    requires SteadyRun(owner, LineNetwork(ids), events, end) && Bounded(end)
    ensures ids[|ids| - 1] in end.nodes && Lookup(end.nodes[ids[|ids| - 1]].db, ids[0]).None?
  {
    hide Initial, SteadyRun, Chain, WellWired, Owns, Bounded, LineNetwork, Line, OnTopology;
    LineIsInitial(ids);
    LineIsWired(owner, ids);
    TooFar(owner, ids);
    BeyondReach(owner, Line(ids), LineNetwork(ids), events, end, ids[|ids| - 1], ids[0]);
  }

  lemma TooFar(owner: map<Ip, RouterId>, ids: seq<RouterId>)
    requires Sized(ids) && |ids| > MAX_TTL + 1 && Owns(owner, ids)
    ensures !Within(owner, Line(ids), ids[0], ids[|ids| - 1])
  {
    hide Adjacent, Owns, Accepts, Line, Pos;
    PosIs(ids, |ids| - 1);
    forall path | Chain(owner, Line(ids), ids[0], path) && path[|path| - 1] == ids[|ids| - 1]
      ensures |path| > MAX_TTL + 1
    {
      ChainAdvances(owner, ids, path, |path| - 1);
    }
  }

  // ---------------------------------------------------------------- byte-swapped ids

  /**
   A line whose ends have byte-swapped ids, such as 1, 5, 16777216: its ends never learn of one another,
   with or without loss, time-outs and changing links.
   */
  lemma SwappedEndsNeverMeet(owner: map<Ip, RouterId>, ids: seq<RouterId>, events: seq<Event>, end: Network)
    requires Sized(ids) && Owns(owner, ids) && Initial(LineNetwork(ids)) && Run(owner, LineNetwork(ids), events, end)
    requires Swapped(ids[0]) == ids[|ids| - 1] && Swapped(ids[|ids| - 1]) == ids[0]
    ensures var a, b := ids[0], ids[|ids| - 1];
            && !Linked(owner, Line(ids), a, b)
            && a in end.nodes && Lookup(end.nodes[a].db, b).None?
            && b in end.nodes && Lookup(end.nodes[b].db, a).None?
  {
    hide Initial, Run, LineNetwork, Line, Linked, Owns, Swapped;
    LineIsLinkedExactly(owner, ids);
    LineIsInitial(ids);
    assert ids[1..][|ids| - 2] == ids[|ids| - 1];
    SwappedIdsNeverMeet(owner, LineNetwork(ids), events, end, ids[0]);
    SwappedIdsNeverMeet(owner, LineNetwork(ids), events, end, ids[|ids| - 1]);
  }

  /** That line is one: every hello on it passes, and the router in the middle hears both ends. */
  lemma SwappedEndsExist()
    ensures var ids: seq<RouterId> := [1, 5, 0x100_0000];
            && Sized(ids) && HellosPass(ids) && |ids| <= MAX_TTL + 1
            && Swapped(ids[0]) == ids[2] && Swapped(ids[2]) == ids[0]
            && Swapped(ids[0]) !in ids[1..2]
  {
    hide Swapped;
    var ids: seq<RouterId> := [1, 5, 0x100_0000];
    SwappedValues();
    assert ids[0] == 1 && ids[1] == 5 && ids[2] == 0x100_0000 && ids[1..2] == [5];
  }

  lemma SwappedValues()
    ensures Swapped(1) == 0x100_0000 && Swapped(0x100_0000) == 1 && Swapped(5) == 0x500_0000
  {
    hide Swapped;
    SwappedSmall(1);
    SwappedSmall(5);
    SwappedLarge(1);
  }

  lemma SwappedSmall(r: RouterId)
    requires r < 0x100
    ensures Swapped(r) == r * 0x100_0000
  {
    assert r % 0x100 == r && r / 0x100 == 0 && r / 0x1_0000 == 0 && r / 0x100_0000 == 0;
  }

  lemma SwappedLarge(h: nat)
    requires h < 0x100
    ensures Swapped(h * 0x100_0000) == h
  {
    var r := h * 0x100_0000;
    assert r % 0x100 == 0;
    assert r / 0x100 == h * 0x1_0000 && (h * 0x1_0000) % 0x100 == 0;
    assert r / 0x1_0000 == h * 0x100 && (h * 0x100) % 0x100 == 0;
    assert r / 0x100_0000 == h;
  }
}
