/**
 A router list on which the 16-bit distance of a route wrapper goes wrong: a line of routers so
 long that its far end is 65536 hops away, and a neighbour that advertises the same subnet.
 */
module FarNetwork {
  import opened Net
  import opened ShortestPath
  import opened RouteSelection

  const OUR: RouterId := 1

  /** The line is 1, 2, .., far; the neighbour `far + 1` hangs off router 1. */
  function Parent(far: nat, v: nat): nat
    requires v > 0
  {
    if v == far + 1 then 1 else v - 1
  }

  function Hops(far: nat, v: nat): nat
    requires v > 0
  {
    if v == far + 1 then 1 else v - 1
  }

  predicate Sized(far: nat) {
    2 < far < 0xFFFF_FFFF
  }

  function To(r: RouterId): Link {
    Link(0, 0xFFFF_FFFF, r, true)
  }

  /** The subnet that both the far end and the neighbour advertise. */
  const SHARED: Link := Link(0x0A00_0000, 0xFF00_0000, 0, false)

  function LineLinks(far: nat, v: RouterId): seq<Link>
    requires Sized(far) && 1 <= v <= far + 1
  {
    (if v == 1 then [To(far + 1)] else [To(Parent(far, v))])
    + (if v < far then [To(v + 1)] else [])
    + (if v >= far then [SHARED] else [])
  }

  function Ids(n: nat): (ids: set<RouterId>)
    requires n < 0x1_0000_0000
    ensures forall v :: v in ids <==> 1 <= v <= n
  {
    if n == 0 then {} else Ids(n - 1) + {n}
  }

  lemma {:induction false} IdsCount(n: nat)
    requires n < 0x1_0000_0000
    ensures |Ids(n)| == n
  {
    if n > 0 {
      IdsCount(n - 1);
    }
  }

  function Line(far: nat): Topology
    requires Sized(far)
  {
    map v: RouterId | v in Ids(far + 1) :: LineLinks(far, v)
  }

  /** What a first run of Dijkstra leaves. */
  function LineMarks(far: nat): Marks
    requires Sized(far)
  {
    map v: RouterId | v in Ids(far + 1) ::
      Mark(Hops(far, v), true, if v == OUR then None else Some(Parent(far, v)), 1, Hops(far, v))
  }

  lemma LineEdge(far: nat, u: RouterId, v: RouterId)
    requires Sized(far) && 1 <= u <= far + 1 && 1 <= v <= far + 1
    ensures Edge(Line(far), u, v) <==> (v != 1 && Parent(far, v) == u) || (u != 1 && Parent(far, u) == v)
  {
    var ls := LineLinks(far, u);
    assert Line(far)[u] == ls;
    if v != 1 && Parent(far, v) == u {
      assert To(v) in ls;
    }
    if u != 1 && Parent(far, u) == v {
      assert To(v) in ls;
    }
  }

  lemma {:induction false} LineReach(far: nat, v: RouterId)
    requires Sized(far) && 1 <= v <= far + 1
    ensures Reach(Line(far), OUR, v, Hops(far, v))
    decreases Hops(far, v)
  {
    hide Edge;
    assert v in Ids(far + 1) && v in Line(far);
    if v != 1 {
      var u: RouterId := Parent(far, v);
      LineReach(far, u);
      LineEdge(far, u, v);
      assert Hops(far, v) - 1 == Hops(far, u);
      assert Reach(Line(far), OUR, u, Hops(far, v) - 1) && Edge(Line(far), u, v);
    }
  }

  lemma LineMarked(far: nat)
    requires Sized(far)
    ensures Marked(Line(far), OUR, LineMarks(far), Ids(far + 1))
  {
    IdsCount(far + 1);
  }

  lemma LineForest(far: nat)
    requires Sized(far)
    ensures Forest(OUR, LineMarks(far), 1)
  {
  }

  lemma LineTree(far: nat)
    requires Sized(far)
    ensures Tree(Line(far), OUR, LineMarks(far), Ids(far + 1), 1)
  {
    hide Edge;
    var m := LineMarks(far);
    forall v | v in m && v != OUR ensures Stepped(Line(far), m, Ids(far + 1), 1, v) {
      LineEdge(far, Parent(far, v), v);
    }
  }

  lemma LineFrontier(far: nat)
    requires Sized(far)
    ensures Frontier(Line(far), LineMarks(far), Ids(far + 1))
  {
    hide Edge;
    var m := LineMarks(far);
    forall u, v | u in m && v in m && Edge(Line(far), u, v) ensures m[v].distance <= m[u].distance + 1 {
      LineEdge(far, u, v);
    }
  }

  lemma LineIsFinished(far: nat)
    requires Sized(far)
    ensures Finished(Line(far), OUR, LineMarks(far), Ids(far + 1), 1)
  {
    hide Marked, Forest, Tree, Frontier;
    LineMarked(far);
    LineForest(far);
    LineTree(far);
    LineFrontier(far);
    forall v | v in LineMarks(far) ensures Reach(Line(far), OUR, v, LineMarks(far)[v].distance) {
      LineReach(far, v);
    }
    assert OUR in Ids(far + 1);
  }

  lemma {:induction false} LineFirstHop(far: nat, v: RouterId)
    requires Sized(far) && 2 <= v <= far && Forest(OUR, LineMarks(far), 1)
    ensures FirstHop(OUR, LineMarks(far), 1, v) == 2
  {
    hide Forest;
    if v > 2 {
      LineFirstHop(far, v - 1);
    }
  }

  // ---------------------------------------------------------------- the router list

  /** Ourselves, the far end, the neighbour, then the line between. */
  function ListOrder(far: nat): seq<RouterId>
    requires Sized(far)
  {
    [1, far, far + 1] + seq(far - 2, i requires 0 <= i < far - 2 => i + 2)
  }

  lemma ListIsComplete(far: nat)
    requires Sized(far)
    ensures forall r :: r in ListOrder(far) <==> r in LineMarks(far)
  {
    var ids := ListOrder(far);
    forall r | r in LineMarks(far) ensures r in ids {
      var k := if r == 1 then 0 else if r == far then 1 else if r == far + 1 then 2 else r + 1;
      assert ids[k] == r;
    }
    assert forall k :: 0 <= k < |ids| ==> 1 <= ids[k] <= far + 1;
    forall r | r in ids ensures r in LineMarks(far) {
      assert r in Ids(far + 1);
    }
  }

  lemma {:induction false} MineConcat(a: seq<Offer>, b: seq<Offer>, w: Wrapper)
    ensures Mine(a + b, w) == Mine(a, w) + Mine(b, w)
  {
    hide Same, Mine;
    if b == [] {
      MineNone(b, w);
      assert a + b == a;
    } else {
      var init, last := b[..|b| - 1], b[|b| - 1];
      MineConcat(a, init, w);
      assert a + b == a + init + [last] && b == init + [last];
      MineAppend(a + init, last, w);
      MineAppend(init, last, w);
      assert Mine(a, w) + Mine(init, w) + [last] == Mine(a, w) + (Mine(init, w) + [last]);
    }
  }

  lemma OnlySharedCovers(w: Wrapper, l: Link)
    requires Covers(w, SHARED) && (l == SHARED || exists r :: l == To(r))
    ensures Covers(w, l) <==> l == SHARED
  {
  }

  /** A router's offers for the shared subnet: its last link, if that is the shared one. */
  lemma MineOfRouter(far: nat, v: RouterId, w: Wrapper)
    requires Sized(far) && 1 <= v <= far + 1 && Covers(w, SHARED) && Forest(OUR, LineMarks(far), 1)
    ensures var m := LineMarks(far);
            Mine(LinkOffers(OUR, m, 1, v, Line(far)[v]), w) ==
            if v >= far then [Offer(v, Hops(far, v), SHARED, Next(OUR, m, 1, v, SHARED))] else []
  {
    hide Forest, FirstHop, Covers, Next;
    var m, ls := LineMarks(far), LineLinks(far, v);
    assert Line(far)[v] == ls && m[v].distance == Hops(far, v);
    var os := LinkOffers(OUR, m, 1, v, ls);
    forall k | 0 <= k < |ls| ensures Same(w, os[k]) <==> ls[k] == SHARED {
      OnlySharedCovers(w, ls[k]);
    }
    OneMatch(os, w);
  }

  /** When only the last offer can match, it is all there is. */
  lemma {:induction false} OneMatch(os: seq<Offer>, w: Wrapper)
    requires os != [] && forall k :: 0 <= k < |os| - 1 ==> !Same(w, os[k])
    ensures Mine(os, w) == if Same(w, os[|os| - 1]) then [os[|os| - 1]] else []
  {
    hide Same;
    var init := os[..|os| - 1];
    if init != [] {
      OneMatch(init, w);
    }
  }

  /** The two offers for the shared subnet. */
  ghost function FarOffer(far: nat): Offer
    requires Sized(far) && Forest(OUR, LineMarks(far), 1)
  {
    Offer(far, far - 1, SHARED, Next(OUR, LineMarks(far), 1, far, SHARED))
  }

  ghost function NearOffer(far: nat): Offer
    requires Sized(far) && Forest(OUR, LineMarks(far), 1)
  {
    Offer(far + 1, 1, SHARED, Next(OUR, LineMarks(far), 1, far + 1, SHARED))
  }

  lemma OffersAppend(far: nat, ids: seq<RouterId>, v: RouterId, w: Wrapper)
    requires Sized(far) && Covers(w, SHARED) && Forest(OUR, LineMarks(far), 1)
    requires (forall r :: r in ids ==> r in LineMarks(far)) && v in LineMarks(far)
    ensures var m, t := LineMarks(far), Line(far);
            Mine(ListOffers(OUR, m, 1, t, ids + [v]), w) ==
            Mine(ListOffers(OUR, m, 1, t, ids), w) + Mine(LinkOffers(OUR, m, 1, v, t[v]), w)
  {
    hide Forest, LinkOffers, Mine, Covers;
    assert (ids + [v])[..|ids|] == ids;
    MineConcat(ListOffers(OUR, LineMarks(far), 1, Line(far), ids), LinkOffers(OUR, LineMarks(far), 1, v, Line(far)[v]), w);
  }

  /** After the first three routers nobody else offers the shared subnet. */
  lemma {:induction false} SharedOffers(far: nat, k: nat, w: Wrapper)
    requires Sized(far) && Covers(w, SHARED) && Forest(OUR, LineMarks(far), 1) && 3 <= k <= |ListOrder(far)|
    requires forall r :: r in ListOrder(far) <==> r in LineMarks(far)
    ensures Mine(ListOffers(OUR, LineMarks(far), 1, Line(far), ListOrder(far)[..k]), w) == [FarOffer(far), NearOffer(far)]
  {
    hide Forest, ListOffers, LinkOffers, Mine, Covers, Next, LineMarks, Line, ListOrder, FarOffer, NearOffer;
    var ids := ListOrder(far);
    ListParts(far, k - 1);
    if k > 3 {
      SharedOffers(far, k - 1, w);
      var v := ids[k - 1];
      assert ids[..k] == ids[..k - 1] + [v];
      assert v in ids && forall r :: r in ids[..k - 1] ==> r in ids;
      OffersAppend(far, ids[..k - 1], v, w);
      MineOfRouter(far, v, w);
    } else {
      FirstOffers(far, w);
    }
  }

  lemma ListParts(far: nat, k: nat)
    requires Sized(far) && k < |ListOrder(far)|
    ensures |ListOrder(far)| == far + 1 && ListOrder(far)[..3] == [1, far, far + 1]
    ensures 3 <= k ==> 1 <= ListOrder(far)[k] < far
  {
  }

  lemma FirstOffers(far: nat, w: Wrapper)
    requires Sized(far) && Covers(w, SHARED) && Forest(OUR, LineMarks(far), 1)
    ensures forall r :: r in [1, far, far + 1] ==> r in LineMarks(far)
    ensures Mine(ListOffers(OUR, LineMarks(far), 1, Line(far), [1, far, far + 1]), w) == [FarOffer(far), NearOffer(far)]
  {
    hide Forest, ListOffers, LinkOffers, Mine, Covers, Next, LineMarks, Line;
    EndsAreListed(far);
    NoOffers(far, w);
    OffersAppend(far, [], 1, w);
    OffersAppend(far, [1], far, w);
    OffersAppend(far, [1, far], far + 1, w);
    MineOfRouter(far, 1, w);
    MineOfRouter(far, far, w);
    MineOfRouter(far, far + 1, w);
    assert [] + [1] == [1] && [1] + [far] == [1, far] && [1, far] + [far + 1] == [1, far, far + 1];
  }

  lemma EndsAreListed(far: nat)
    requires Sized(far)
    ensures 1 in LineMarks(far) && far in LineMarks(far) && far + 1 in LineMarks(far)
  {
    assert 1 in Ids(far + 1) && far in Ids(far + 1) && far + 1 in Ids(far + 1);
  }

  lemma NoOffers(far: nat, w: Wrapper)
    requires Sized(far) && Forest(OUR, LineMarks(far), 1)
    ensures Mine(ListOffers(OUR, LineMarks(far), 1, Line(far), []), w) == []
  {
  }

  /**
   The field wraps. When the far end is a multiple of 65536 hops away, as with `far == 65537`, and is
   listed before the neighbour, the wrapper for the shared subnet holds distance 0 and leads down the
   line, although a direct neighbour advertises the subnet too.
   */
  lemma FarRoutersWrap(far: nat) returns (w: Wrapper)
    requires Sized(far) && far % WORD16 == 1
    ensures Finished(Line(far), OUR, LineMarks(far), Ids(far + 1), 1) && Forest(OUR, LineMarks(far), 1)
    ensures forall r :: r in ListOrder(far) <==> r in LineMarks(far)
    ensures var t, m := Line(far), LineMarks(far);
            && w in Choose(OUR, ListOffers(OUR, m, 1, t, ListOrder(far))) && Covers(w, SHARED)
            && w.distance == 0 && w.nextRid == 2 && !w.direct
            && m[far + 1].distance == 1 && SHARED in t[far + 1] && !NoneCloser(t, m, w, m[far].distance)
  {
    hide Forest, ListOffers, Choose, LinkOffers, Mine, Covers, Finished, Edge, Line, LineMarks, NoneCloser, ListOrder;
    LineIsFinished(far);
    LineForest(far);
    ListIsComplete(far);
    LineKeys(far);
    FarEnd(far);
    OneWrapperPerSubnet(Line(far), OUR, LineMarks(far), 1, ListOrder(far), far + 1, SHARED);
    w :| w in Choose(OUR, ListOffers(OUR, LineMarks(far), 1, Line(far), ListOrder(far))) && Covers(w, SHARED);
    FarEndWins(far, w);
  }

  lemma FarEndWins(far: nat, w: Wrapper)
    requires Sized(far) && far % WORD16 == 1 && Covers(w, SHARED)
    requires Finished(Line(far), OUR, LineMarks(far), Ids(far + 1), 1) && Forest(OUR, LineMarks(far), 1)
    requires forall r :: r in ListOrder(far) <==> r in LineMarks(far)
    requires w in Choose(OUR, ListOffers(OUR, LineMarks(far), 1, Line(far), ListOrder(far)))
    ensures w.distance == 0 && w.nextRid == 2 && !w.direct
    ensures var t, m := Line(far), LineMarks(far);
            m[far + 1].distance == 1 && SHARED in t[far + 1] && !NoneCloser(t, m, w, m[far].distance)
  {
    hide Forest, ListOffers, Choose, LinkOffers, Mine, Covers, Finished, Edge, Winner, Line, LineMarks, MadeFor,
      FarOffer, NearOffer, NoneCloser, ListOrder, Undercut, IsNearest;
    var t, m, ids := Line(far), LineMarks(far), ListOrder(far);
    LineKeys(far);
    ListLength(far);
    SelectionExactly(t, OUR, m, Ids(far + 1), 1, ids, w);
    assert ids[..|ids|] == ids;
    SharedOffers(far, |ids|, w);
    FarWinner(far);
    FromFarOffer(far, w);
  }

  lemma ListLength(far: nat)
    requires Sized(far)
    ensures |ListOrder(far)| == far + 1
  {
  }

  lemma FarWinner(far: nat)
    requires Sized(far) && far % WORD16 == 1 && Forest(OUR, LineMarks(far), 1)
    ensures Winner([FarOffer(far), NearOffer(far)]) == FarOffer(far)
  {
    hide Forest, Next, LineMarks;
    assert [FarOffer(far), NearOffer(far)][..1] == [FarOffer(far)];
  }

  lemma FromFarOffer(far: nat, w: Wrapper)
    requires Sized(far) && far % WORD16 == 1 && Forest(OUR, LineMarks(far), 1) && Covers(w, SHARED)
    requires MadeFor(Line(far), OUR, LineMarks(far), 1, w, FarOffer(far))
    ensures w.distance == 0 && w.nextRid == 2 && !w.direct
    ensures var t, m := Line(far), LineMarks(far);
            && far in m && far + 1 in m && far + 1 in t
            && m[far + 1].distance == 1 && SHARED in t[far + 1] && !NoneCloser(t, m, w, m[far].distance)
  {
    hide Forest, Covers, Line, LineMarks, FirstHop;
    LineFirstHop(far, far);
    FarEnd(far);
  }

  lemma LineKeys(far: nat)
    requires Sized(far)
    ensures LineMarks(far).Keys == Line(far).Keys
  {
  }

  lemma FarEnd(far: nat)
    requires Sized(far)
    ensures var t, m := Line(far), LineMarks(far);
            && far in m && m[far].distance == far - 1 && m[far].prev.Some?
            && far + 1 in m && far + 1 in t && m[far + 1].distance == 1 && SHARED in t[far + 1]
  {
    assert SHARED in LineLinks(far, far + 1);
  }
}
