/**
 A line of routers meets what the network theorems ask: its links are mutual and everybody can be
 reached, so that it knows itself once the flood of its start-up is over.
 */
module LineRoutes {
  import opened Net
  import opened LinkDatabase
  import opened Pwospf
  import opened Flood
  import opened FloodConvergence
  import opened FloodLine
  import FloodQuiescence
  import opened NetworkRoutes

  /** Nobody drops another's packets as its own. */
  predicate AllAccept(ids: seq<RouterId>) {
    forall p, q :: 0 <= p < |ids| && 0 <= q < |ids| && p != q ==> Accepts(ids[q], ids[p])
  }

  lemma {:induction false} WayTo(owner: map<Ip, RouterId>, ids: seq<RouterId>, p: nat, q: nat) returns (path: seq<RouterId>)
    requires Sized(ids) && Owns(owner, ids) && AllAccept(ids) && p < |ids| && q < |ids|
    ensures Chain(owner, Line(ids), ids[p], path) && path[|path| - 1] == ids[q]
    decreases if p < q then q - p else p - q
  {
    hide Adjacent, Accepts, Owns, Line, Distinct;
    LineAt(ids, q);
    if p == q {
      path := [ids[p]];
    } else {
      var before := if p < q then q - 1 else q + 1;
      var way := WayTo(owner, ids, p, before);
      LineAdjacent(owner, ids, before, q);
      ChainExtends(owner, Line(ids), ids[p], way, ids[q]);
      path := way + [ids[q]];
    }
  }

  lemma LineIsConnected(owner: map<Ip, RouterId>, ids: seq<RouterId>)
    requires Sized(ids) && Owns(owner, ids) && AllAccept(ids)
    ensures forall n, o :: n in ids && o in ids ==> Linked(owner, Line(ids), o, n)
  {
    hide Owns, Line, Chain, Sized, AllAccept, Pos;
    forall n, o | n in ids && o in ids ensures Linked(owner, Line(ids), o, n) {
      var path := WayTo(owner, ids, Pos(ids, o), Pos(ids, n));
    }
  }

  /** Both ends of a link have it on the same subnet. */
  lemma SameSubnet(p: nat)
    requires p < 256
    ensures Near(p) & MASK == Far(p) & MASK
  {
    Base(p as bv32);
  }

  lemma Base(b: bv32)
    ensures (4 * b + 1) & MASK == (4 * b + 2) & MASK
  {
  }

  /** The advertisement of the link after position `p`, as the router at its start or its end makes it. */
  function Ahead(ids: seq<RouterId>, p: nat): Adv
    requires p + 1 < |ids| < 256
  {
    Adv(Near(p) & MASK, MASK, ids[p + 1])
  }

  function Back(ids: seq<RouterId>, p: nat): Adv
    requires 0 < p < |ids| < 256
  {
    Adv(Far(p - 1) & MASK, MASK, ids[p - 1])
  }

  lemma UpLink(ids: seq<RouterId>, p: nat)
    requires 0 < p < |ids| < 256
    ensures Link(Up(ids, p).Subnet(), Up(ids, p).mask, Up(ids, p).nbrs[0].rid, true).Ad() == Back(ids, p)
  {
  }

  lemma DownLink(ids: seq<RouterId>, p: nat)
    requires p + 1 < |ids| < 256
    ensures Link(Down(ids, p).Subnet(), Down(ids, p).mask, Down(ids, p).nbrs[0].rid, true).Ad() == Ahead(ids, p)
  {
  }

  lemma LinksAre(ids: seq<RouterId>, p: nat, x: Adv)
    requires Sized(ids) && p < |ids|
    ensures x in LinkSet(LinksOf(Sides(ids, p))) <==>
            (p > 0 && x == Back(ids, p)) || (p + 1 < |ids| && x == Ahead(ids, p))
  {
    hide Up, Down, Back, Ahead, Iface.Subnet;
    var links := LinksOf(Sides(ids, p));
    if p > 0 {
      UpLink(ids, p);
      assert Sides(ids, p)[0] == Up(ids, p) && links[0] in links;
    }
    if p + 1 < |ids| {
      DownLink(ids, p);
      var k := |links| - 1;
      assert Sides(ids, p)[k] == Down(ids, p) && links[k] in links;
    }
  }

  lemma SaysOfLine(ids: seq<RouterId>, p: nat)
    requires Sized(ids) && p < |ids|
    ensures Says(LineNetwork(ids), ids[p]) == LinkSet(LinksOf(Sides(ids, p)))
  {
    hide Sides, LinksOf, LinkSet, Pos;
    PosIs(ids, p);
  }

  /** Seen from its other end, the link back is the link ahead. */
  lemma TwoEnds(ids: seq<RouterId>, p: nat)
    requires p + 1 < |ids| < 256
    ensures Ahead(ids, p).rid == ids[p + 1] && Back(ids, p + 1).rid == ids[p]
    ensures Ahead(ids, p).subnet == Back(ids, p + 1).subnet && Ahead(ids, p).mask == Back(ids, p + 1).mask
  {
    hide Near, Far;
    SameSubnet(p);
  }

  lemma NamedBack(ids: seq<RouterId>, p: nat, a: Adv)
    requires Sized(ids) && p < |ids| && a in Says(LineNetwork(ids), ids[p])
    ensures a.rid in ids && Adv(a.subnet, a.mask, ids[p]) in Says(LineNetwork(ids), a.rid)
  {
    hide Sides, LinksOf, LinkSet, Says, Back, Ahead, LineNetwork, Distinct;
    SaysOfLine(ids, p);
    LinksAre(ids, p, a);
    if p > 0 && a == Back(ids, p) {
      TwoEnds(ids, p - 1);
      SaysOfLine(ids, p - 1);
      LinksAre(ids, p - 1, Ahead(ids, p - 1));
    } else {
      TwoEnds(ids, p);
      SaysOfLine(ids, p + 1);
      LinksAre(ids, p + 1, Back(ids, p + 1));
    }
  }

  /** The links of a line are named from both ends. */
  lemma LineIsReciprocal(ids: seq<RouterId>)
    requires Sized(ids)
    ensures Reciprocal(LineNetwork(ids))
  {
    hide Sides, LinksOf, Says, Pos, Start, Distinct;
    var s := LineNetwork(ids);
    forall o, a | o in s.nodes && a in Says(s, o) ensures a.rid in s.nodes && Adv(a.subnet, a.mask, o) in Says(s, a.rid) {
      NamedBack(ids, Pos(ids, o), a);
    }
  }

  /** A line of up to 65 routers knows itself when the flood of its start-up is over. */
  lemma LineInforms(owner: map<Ip, RouterId>, ids: seq<RouterId>, events: seq<Event>, end: Network)
    requires Sized(ids) && |ids| <= MAX_TTL + 1 && Owns(owner, ids) && AllAccept(ids) && 0 !in ids
    requires Shaped(LineNetwork(ids)) && forall i :: 0 <= i < |ids| ==> ids[i] in LineNetwork(ids).nodes
    requires FloodQuiescence.Deliveries(owner, FloodQuiescence.Announced(LineNetwork(ids), ids), events, end) && end.flight == []
    ensures Informed(end) && end.nodes.Keys == LineNetwork(ids).nodes.Keys
  {
    hide Owns, AllAccept, Shaped, FloodQuiescence.Deliveries, FloodQuiescence.Announced, FloodQuiescence.Starting, Linked,
      Reciprocal, Informed, Says, Start, Line;
    LineCanStart(owner, ids);
    LineIsConnected(owner, ids);
    LineIsReciprocal(ids);
    ColdStartInforms(owner, Line(ids), LineNetwork(ids), 2, ids, events, end);
  }
}
