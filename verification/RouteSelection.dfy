/**
 The second half of compute_rtable: one wrapped route per advertised subnet, through the nearest
 advertiser, and the first hop towards it.
 */
module RouteSelection {
  import opened Net
  import opened ShortestPath
  import opened Dijkstra

  const WORD16: nat := 0x1_0000

  /** struct route_wrapper: `distance` is a 16-bit field. */
  datatype Wrapper = Wrapper(ip: Ip, mask: Ip, distance: nat, nextRid: RouterId, direct: bool)

  /** One link of one router, with the router's 32-bit distance and the next hop the walk finds. */
  datatype Offer = Offer(rid: RouterId, distance: nat, link: Link, next: RouterId)

  /** The wrapper is for the subnet and mask of link `l`. */
  predicate Covers(w: Wrapper, l: Link) {
    w.ip == l.Base() && w.mask == l.mask
  }

  predicate Same(w: Wrapper, o: Offer) {
    Covers(w, o.link)
  }

  /** Position of the wrapper for the subnet of `o`, or the length of the list. */
  function Find(ws: seq<Wrapper>, o: Offer): (k: nat)
    ensures k <= |ws|
    ensures k < |ws| ==> Same(ws[k], o)
    ensures forall j :: 0 <= j < k ==> !Same(ws[j], o)
  {
    if ws == [] || Same(ws[0], o) then 0 else 1 + Find(ws[1..], o)
  }

  /** What add_route_wrappers does with one link. */
  function Accept(our: RouterId, ws: seq<Wrapper>, o: Offer): seq<Wrapper> {
    var k := Find(ws, o);
    if k == |ws| then
      ws + [Wrapper(o.link.Base(), o.link.mask, o.distance % WORD16, o.next, o.rid == our)]
    else if o.distance >= ws[k].distance then
      ws
    else
      ws[k := ws[k].(distance := o.distance % WORD16, nextRid := o.next, direct := ws[k].direct || o.rid == our)]
  }

  function Choose(our: RouterId, os: seq<Offer>): seq<Wrapper> {
    if os == [] then [] else Accept(our, Choose(our, os[..|os| - 1]), os[|os| - 1])
  }

  /** Exactly our own links are at distance 0. */
  predicate Anchored(our: RouterId, os: seq<Offer>) {
    forall o :: o in os ==> (o.rid == our <==> o.distance == 0)
  }

  /** Distances fit the 16-bit field: all are less than 65535 or unreached. */
  predicate AllFit(os: seq<Offer>) {
    forall o :: o in os ==> o.distance < WORD16 - 1 || o.distance == UNREACHED
  }

  /** The offers for the subnet of `w`, in order. */
  function Mine(os: seq<Offer>, w: Wrapper): seq<Offer> {
    if os == [] then
      []
    else
      Mine(os[..|os| - 1], w) + if Same(w, os[|os| - 1]) then [os[|os| - 1]] else []
  }

  /** Of the offers for one subnet, the one whose data the wrapper ends up with. */
  function Winner(sub: seq<Offer>): Offer
    requires sub != []
  {
    if |sub| == 1 then
      sub[0]
    else
      var held, last := Winner(sub[..|sub| - 1]), sub[|sub| - 1];
      if last.distance < held.distance % WORD16 then last else held
  }

  predicate Made(our: RouterId, w: Wrapper, o: Offer) {
    Same(w, o) && w.distance == o.distance % WORD16 && w.nextRid == o.next && w.direct == (o.rid == our)
  }

  predicate IsNearest(sub: seq<Offer>, o: Offer) {
    forall p :: p in sub ==> o.distance <= p.distance
  }

  /** Some later offer is below what 16 bits hold of the first one's distance. */
  predicate Undercut(sub: seq<Offer>) {
    exists k :: 0 < k < |sub| && sub[k].distance < sub[0].distance % WORD16
  }

  predicate OnePerSubnet(ws: seq<Wrapper>) {
    forall i, j :: 0 <= i < j < |ws| ==> !(ws[i].ip == ws[j].ip && ws[i].mask == ws[j].mask)
  }

  predicate Offered(ws: seq<Wrapper>, o: Offer) {
    exists w :: w in ws && Same(w, o)
  }

  /** One wrapper per offered subnet, made from the winner of its offers. */
  ghost predicate Selected(our: RouterId, os: seq<Offer>, ws: seq<Wrapper>) {
    && OnePerSubnet(ws)
    && (forall o :: o in os ==> Offered(ws, o))
    && (forall w :: w in ws ==> FromWinner(our, os, w))
  }

  predicate FromWinner(our: RouterId, os: seq<Offer>, w: Wrapper) {
    Mine(os, w) != [] && Made(our, w, Winner(Mine(os, w)))
  }

  // ---------------------------------------------------------------- the winner of one subnet

  /** The winner is the first offer, or the nearest one if a later offer undercuts the first. */
  lemma {:induction false} WinnerIs(sub: seq<Offer>)
    requires sub != []
    ensures Winner(sub) in sub
    ensures !Undercut(sub) ==> Winner(sub) == sub[0]
    ensures Undercut(sub) ==> Winner(sub).distance < sub[0].distance % WORD16 && IsNearest(sub, Winner(sub))
  {
    if |sub| > 1 {
      var init, last := sub[..|sub| - 1], sub[|sub| - 1];
      WinnerIs(init);
      assert sub == init + [last];
      UndercutAppend(init, last);
      if !Undercut(init) && Undercut(sub) {
        forall p | p in sub ensures last.distance <= p.distance {
          var k :| 0 <= k < |sub| && sub[k] == p;
        }
      }
    }
  }

  lemma UndercutAppend(init: seq<Offer>, last: Offer)
    requires init != []
    ensures Undercut(init + [last]) <==> Undercut(init) || last.distance < init[0].distance % WORD16
  {
    var sub := init + [last];
    if Undercut(init) {
      var k :| 0 < k < |init| && init[k].distance < init[0].distance % WORD16;
      assert sub[k] == init[k];
    }
    assert sub[|init|] == last && sub[0] == init[0];
  }

  /** Exactly when the winner is a nearest offer. */
  lemma WinnerIsNearest(sub: seq<Offer>)
    requires sub != []
    ensures IsNearest(sub, Winner(sub)) <==> IsNearest(sub, sub[0]) || Undercut(sub)
  {
    WinnerIs(sub);
  }

  /** Of offers that fit the field the first of the nearest ones wins. */
  lemma {:induction false} WinnerIsFirst(sub: seq<Offer>) returns (k: nat)
    requires sub != [] && AllFit(sub)
    ensures k < |sub| && Winner(sub) == sub[k]
    ensures forall j :: 0 <= j < |sub| ==> sub[k].distance <= sub[j].distance
    ensures forall j :: 0 <= j < k ==> sub[k].distance < sub[j].distance
  {
    var init, last := sub[..|sub| - 1], sub[|sub| - 1];
    assert last in sub && forall o :: o in init ==> o in sub;
    if init == [] {
      k := 0;
    } else {
      k := WinnerIsFirst(init);
      assert init[k] in init;
      if last.distance < init[k].distance % WORD16 {
        k := |sub| - 1;
      }
    }
  }

  /** The distance held: the least of the first one's low 16 bits and all later distances. */
  lemma {:induction false} HeldDistance(sub: seq<Offer>)
    requires sub != []
    ensures var d := Winner(sub).distance % WORD16;
            && d <= sub[0].distance % WORD16 && (forall k :: 0 < k < |sub| ==> d <= sub[k].distance)
            && (d == sub[0].distance % WORD16 || exists k :: 0 < k < |sub| && d == sub[k].distance)
  {
    WinnerIs(sub);
    var w := Winner(sub);
    if Undercut(sub) {
      assert w.distance < WORD16 && w != sub[0];
      var k :| 0 <= k < |sub| && sub[k] == w;
      assert forall j :: 0 < j < |sub| ==> sub[j] in sub;
    }
  }

  lemma MineAppend(os: seq<Offer>, o: Offer, w: Wrapper)
    ensures Mine(os + [o], w) == if Same(w, o) then Mine(os, w) + [o] else Mine(os, w)
  {
    assert (os + [o])[..|os|] == os;
  }

  lemma {:induction false} MineMembers(os: seq<Offer>, w: Wrapper, o: Offer)
    ensures o in Mine(os, w) <==> o in os && Same(w, o)
  {
    hide Same;
    if os != [] {
      var init, last := os[..|os| - 1], os[|os| - 1];
      MineMembers(init, w, o);
      assert os == init + [last];
    }
  }

  lemma {:induction false} MineNone(os: seq<Offer>, w: Wrapper)
    requires forall o :: o in os ==> !Same(w, o)
    ensures Mine(os, w) == []
  {
    hide Same;
    if os != [] {
      MineNone(os[..|os| - 1], w);
    }
  }

  /** Only the subnet of the wrapper matters. */
  lemma {:induction false} MineSame(os: seq<Offer>, w: Wrapper, w': Wrapper)
    requires w.ip == w'.ip && w.mask == w'.mask
    ensures Mine(os, w') == Mine(os, w)
  {
    hide Link.Base;
    if os != [] {
      MineSame(os[..|os| - 1], w, w');
    }
  }

  lemma WinnerAppend(sub: seq<Offer>, o: Offer)
    ensures Winner(sub + [o]) ==
            if sub == [] then o else if o.distance < Winner(sub).distance % WORD16 then o else Winner(sub)
  {
    assert (sub + [o])[..|sub|] == sub;
  }

  // ---------------------------------------------------------------- one more offer

  lemma AcceptKeys(our: RouterId, ws: seq<Wrapper>, o: Offer)
    requires OnePerSubnet(ws)
    ensures OnePerSubnet(Accept(our, ws, o))
    ensures Offered(Accept(our, ws, o), o)
    ensures forall p :: Offered(ws, p) ==> Offered(Accept(our, ws, o), p)
  {
    hide Link.Base;
    var k, ws' := Find(ws, o), Accept(our, ws, o);
    assert k < |ws'| && Same(ws'[k], o);
    assert forall j :: 0 <= j < |ws| ==> ws'[j].ip == ws[j].ip && ws'[j].mask == ws[j].mask;
    forall p | Offered(ws, p) ensures Offered(ws', p) {
      var w :| w in ws && Same(w, p);
      var j :| 0 <= j < |ws| && ws[j] == w;
      assert Same(ws'[j], p);
    }
  }

  lemma StaysWinner(our: RouterId, os: seq<Offer>, w: Wrapper, o: Offer)
    requires FromWinner(our, os, w) && (Same(w, o) ==> o.distance >= w.distance)
    ensures FromWinner(our, os + [o], w)
  {
    hide Link.Base, Same, Winner, Mine;
    MineAppend(os, o, w);
    WinnerAppend(Mine(os, w), o);
  }

  lemma BecomesWinner(our: RouterId, os: seq<Offer>, w: Wrapper, o: Offer)
    requires FromWinner(our, os, w) && Same(w, o) && o.distance < w.distance && Anchored(our, os)
    ensures FromWinner(our, os + [o],
              w.(distance := o.distance % WORD16, nextRid := o.next, direct := w.direct || o.rid == our))
  {
    hide Link.Base, Winner, Mine;
    var w' := w.(distance := o.distance % WORD16, nextRid := o.next, direct := w.direct || o.rid == our);
    var p := Winner(Mine(os, w));
    MineAppend(os, o, w');
    MineSame(os, w, w');
    WinnerAppend(Mine(os, w), o);
    WinnerIs(Mine(os, w));
    MineMembers(os, w, p);
    assert p.distance != 0;
  }

  lemma NewWinner(our: RouterId, os: seq<Offer>, ws: seq<Wrapper>, o: Offer)
    requires forall p :: p in os ==> Offered(ws, p)
    requires Find(ws, o) == |ws|
    ensures FromWinner(our, os + [o], Wrapper(o.link.Base(), o.link.mask, o.distance % WORD16, o.next, o.rid == our))
  {
    hide Link.Base, Winner, Mine;
    var w := Wrapper(o.link.Base(), o.link.mask, o.distance % WORD16, o.next, o.rid == our);
    MineAppend(os, o, w);
    forall p | p in os ensures !Same(w, p) {
      assert Offered(ws, p);
      var x :| x in ws && Same(x, p);
      assert !Same(x, o);
    }
    MineNone(os, w);
    WinnerAppend([], o);
  }

  lemma AcceptPicks(our: RouterId, os: seq<Offer>, ws: seq<Wrapper>, o: Offer, w: Wrapper)
    requires Selected(our, os, ws) && Anchored(our, os) && w in Accept(our, ws, o)
    ensures FromWinner(our, os + [o], w)
  {
    hide FromWinner, Same, Anchored, Offered;
    var k, ws' := Find(ws, o), Accept(our, ws, o);
    var j :| 0 <= j < |ws'| && ws'[j] == w;
    if j < |ws| && (j != k || ws' == ws) {
      assert w == ws[j];
      if j != k { OtherKey(ws, o, k, j); }
      StaysWinner(our, os, w, o);
    } else if k < |ws| {
      BecomesWinner(our, os, ws[k], o);
    } else {
      NewWinner(our, os, ws, o);
    }
  }

  lemma OtherKey(ws: seq<Wrapper>, o: Offer, k: nat, j: nat)
    requires OnePerSubnet(ws) && k == Find(ws, o) && j < |ws| && j != k
    ensures !Same(ws[j], o)
  {
    hide Link.Base;
  }

  lemma {:induction false} ChooseCovers(our: RouterId, os: seq<Offer>)
    ensures OnePerSubnet(Choose(our, os)) && forall o :: o in os ==> Offered(Choose(our, os), o)
  {
    hide Offered, OnePerSubnet, Accept;
    EmptySelected();
    if os != [] {
      var init, last := os[..|os| - 1], os[|os| - 1];
      assert os == init + [last];
      ChooseCovers(our, init);
      AcceptKeys(our, Choose(our, init), last);
    }
  }

  /** Whatever the distances are, every wrapper is made from the winner of the offers for its subnet. */
  lemma {:induction false} ChooseSelects(our: RouterId, os: seq<Offer>)
    requires Anchored(our, os)
    ensures Selected(our, os, Choose(our, os))
  {
    hide FromWinner, Offered, OnePerSubnet, Accept;
    ChooseCovers(our, os);
    if os != [] {
      var init, last := os[..|os| - 1], os[|os| - 1];
      assert os == init + [last];
      ChooseSelects(our, init);
      forall w | w in Choose(our, os) ensures FromWinner(our, os, w) {
        AcceptPicks(our, init, Choose(our, init), last, w);
      }
    }
  }

  lemma EmptySelected()
    ensures OnePerSubnet([])
  {
  }

  // ---------------------------------------------------------------- the offers of the router list

  /** Next hop for a link of `r`: the walk, or the link's own neighbour if no run ever reached `r`. */
  ghost function Next(our: RouterId, m: Marks, run: nat, r: RouterId, l: Link): RouterId
    requires Forest(our, m, run) && r in m
  {
    if m[r].prev.None? then l.rid else FirstHop(our, m, run, r)
  }

  /** It is the router before ours on the chain of pointers, or what the link names where there are none. */
  lemma NextExactly(our: RouterId, m: Marks, run: nat, r: RouterId, l: Link)
    requires Forest(our, m, run) && r in m
    ensures m[r].prev.None? ==> Next(our, m, run, r, l) == l.rid
    ensures m[r].prev.Some? ==>
              exists n: nat :: Follow(m, r, n) == Some(Next(our, m, run, r, l)) && Follow(m, r, n + 1) == Some(our)
  {
    hide Forest, Follow, FirstHop;
    if m[r].prev.Some? {
      var n := FirstHopIsOnChain(our, m, run, r);
    }
  }

  ghost function LinkOffers(our: RouterId, m: Marks, run: nat, r: RouterId, links: seq<Link>): (os: seq<Offer>)
    requires Forest(our, m, run) && r in m
    ensures |os| == |links|
    ensures forall k :: 0 <= k < |links| ==> os[k] == Offer(r, m[r].distance, links[k], Next(our, m, run, r, links[k]))
  {
    seq(|links|, k requires 0 <= k < |links| => Offer(r, m[r].distance, links[k], Next(our, m, run, r, links[k])))
  }

  ghost function ListOffers(our: RouterId, m: Marks, run: nat, t: Topology, ids: seq<RouterId>): seq<Offer>
    requires Forest(our, m, run) && m.Keys == t.Keys && forall r :: r in ids ==> r in m
  {
    if ids == [] then
      []
    else
      var last := ids[|ids| - 1];
      ListOffers(our, m, run, t, ids[..|ids| - 1]) + LinkOffers(our, m, run, last, t[last])
  }

  /** The offers are exactly the links of the listed routers. */
  lemma {:induction false} OfferMembers(our: RouterId, m: Marks, run: nat, t: Topology, ids: seq<RouterId>, o: Offer)
    requires Forest(our, m, run) && m.Keys == t.Keys && forall r :: r in ids ==> r in m
    ensures o in ListOffers(our, m, run, t, ids) <==>
              && o.rid in ids && o.link in t[o.rid]
              && o.distance == m[o.rid].distance && o.next == Next(our, m, run, o.rid, o.link)
  {
    hide Forest, FirstHop, Next;
    if ids != [] {
      var init, last := ids[..|ids| - 1], ids[|ids| - 1];
      OfferMembers(our, m, run, t, init, o);
      assert ids == init + [last];
      var os := LinkOffers(our, m, run, last, t[last]);
      if o.rid == last && o.link in t[last] {
        var k :| 0 <= k < |t[last]| && t[last][k] == o.link;
        assert os[k].link == o.link;
        assert o.distance == m[last].distance && o.next == Next(our, m, run, last, o.link) ==> os[k] == o;
      }
    }
  }

  /** No router within `d` hops advertises the wrapper's subnet. */
  ghost predicate NoneCloser(t: Topology, m: Marks, w: Wrapper, d: nat) {
    forall x, k :: x in m && x in t && k in t[x] && Covers(w, k) ==> d <= m[x].distance
  }

  /** Nearest among the offers is nearest in the network. */
  lemma NearestMeansClosest(t: Topology, our: RouterId, m: Marks, run: nat, ids: seq<RouterId>, w: Wrapper, d: nat)
    requires Forest(our, m, run) && m.Keys == t.Keys && (forall r :: r in ids <==> r in m)
    ensures NoneCloser(t, m, w, d) <==>
            forall p :: p in Mine(ListOffers(our, m, run, t, ids), w) ==> d <= p.distance
  {
    hide Forest, ListOffers, Next, Covers, Mine;
    var os := ListOffers(our, m, run, t, ids);
    if forall p :: p in Mine(os, w) ==> d <= p.distance {
      forall x, k | x in m && x in t && k in t[x] && Covers(w, k)
        ensures d <= m[x].distance
      {
        var p := Offer(x, m[x].distance, k, Next(our, m, run, x, k));
        OfferMembers(our, m, run, t, ids, p);
        MineMembers(os, w, p);
      }
    }
    if NoneCloser(t, m, w, d) {
      forall p | p in Mine(os, w) ensures d <= p.distance {
        MineMembers(os, w, p);
        OfferMembers(our, m, run, t, ids, p);
      }
    }
  }

  /** What the selection promises of one wrapper, in terms of the network. */
  ghost predicate Nearest(t: Topology, our: RouterId, m: Marks, w: Wrapper, r: RouterId, l: Link) {
    && r in m && r in t && l in t[r] && Covers(w, l)
    && NoneCloser(t, m, w, m[r].distance)
    && (if m[r].distance == UNREACHED then
          w.distance == WORD16 - 1 && !w.direct
        else if r == our then
          w.distance == 0 && w.direct && w.nextRid == l.rid
        else
          && w.distance == m[r].distance && w.distance > 0 && !w.direct
          && IsDistance(t, our, r, w.distance)
          && Edge(t, our, w.nextRid) && Reach(t, w.nextRid, r, w.distance - 1))
  }

  /** Every finite distance fits the 16-bit field, and is not its largest value. */
  predicate ShortDistances(m: Marks) {
    forall v :: v in m && m[v].distance < UNREACHED ==> m[v].distance < WORD16 - 1
  }

  /** So it is in every network of at most 65535 routers. */
  lemma SmallNetworksFit(t: Topology, our: RouterId, m: Marks, done: set<RouterId>, run: nat)
    requires Finished(t, our, m, done, run) && |m| < WORD16
    ensures ShortDistances(m)
  {
    hide Finished;
    forall v | v in m && m[v].distance < UNREACHED ensures m[v].distance < WORD16 - 1 {
      DistancesAreExact(t, our, m, done, run, v);
    }
  }

  lemma OffersAnchored(t: Topology, our: RouterId, m: Marks, done: set<RouterId>, run: nat, ids: seq<RouterId>)
    requires Finished(t, our, m, done, run)
    requires Forest(our, m, run) && m.Keys == t.Keys && forall r :: r in ids ==> r in m
    ensures Anchored(our, ListOffers(our, m, run, t, ids))
    ensures ShortDistances(m) ==> AllFit(ListOffers(our, m, run, t, ids))
  {
    hide Finished, Forest, ListOffers, Next;
    forall o | o in ListOffers(our, m, run, t, ids)
      ensures (o.rid == our <==> o.distance == 0)
      ensures ShortDistances(m) ==> o.distance < WORD16 - 1 || o.distance == UNREACHED
    {
      OfferMembers(our, m, run, t, ids, o);
      DistancesAreExact(t, our, m, done, run, o.rid);
    }
  }

  /** The advertiser and link a wrapper is made from. */
  ghost predicate MadeFor(t: Topology, our: RouterId, m: Marks, run: nat, w: Wrapper, o: Offer)
    requires Forest(our, m, run)
  {
    && o.rid in m && o.rid in t && o.link in t[o.rid] && Covers(w, o.link)
    && o.distance == m[o.rid].distance && o.next == Next(our, m, run, o.rid, o.link)
    && w.distance == o.distance % WORD16 && w.nextRid == o.next && w.direct == (o.rid == our)
  }

  /**
   Selection, exactly, whatever the distances are. The wrapper is made from the winner of the offers
   for its subnet, and that is a nearest advertiser if and only if the first advertiser in the list
   is one, or a later one is below the low 16 bits of the first one's distance.
   */
  lemma SelectionExactly(t: Topology, our: RouterId, m: Marks, done: set<RouterId>, run: nat, ids: seq<RouterId>, w: Wrapper)
    requires Finished(t, our, m, done, run)
    requires Forest(our, m, run) && m.Keys == t.Keys && (forall r :: r in ids <==> r in m)
    requires w in Choose(our, ListOffers(our, m, run, t, ids))
    ensures var sub := Mine(ListOffers(our, m, run, t, ids), w);
            && sub != [] && MadeFor(t, our, m, run, w, Winner(sub))
            && (NoneCloser(t, m, w, Winner(sub).distance) <==> IsNearest(sub, sub[0]) || Undercut(sub))
  {
    hide Finished, Forest, ListOffers, Choose, Next, Covers, NoneCloser, Mine, Winner, Undercut;
    var os := ListOffers(our, m, run, t, ids);
    OffersAnchored(t, our, m, done, run, ids);
    ChooseSelects(our, os);
    assert FromWinner(our, os, w);
    var sub := Mine(os, w);
    var o := Winner(sub);
    WinnerIs(sub);
    WinnerIsNearest(sub);
    MineMembers(os, w, o);
    OfferMembers(our, m, run, t, ids, o);
    NearestMeansClosest(t, our, m, run, ids, w, o.distance);
  }

  /** Distances that fit the field satisfy the condition. */
  lemma FittingIsNearest(sub: seq<Offer>)
    requires sub != [] && AllFit(sub)
    ensures IsNearest(sub, sub[0]) || Undercut(sub)
  {
    if !IsNearest(sub, sub[0]) {
      var p :| p in sub && p.distance < sub[0].distance;
      var k :| 0 <= k < |sub| && sub[k] == p;
      assert sub[0] in sub;
    }
  }

  lemma FinishedParts(t: Topology, our: RouterId, m: Marks, done: set<RouterId>, run: nat)
    requires Finished(t, our, m, done, run)
    ensures Forest(our, m, run) && m.Keys == t.Keys && our in m && 0 !in t && m[our].prev == None
  {
  }

  /**
   Route selection. Every wrapper comes from an advertiser at the least distance; if that is a
   router other than ours, the next hop is our neighbour and lies on a shortest path to it.
   */
  lemma WrapperIsNearest(t: Topology, our: RouterId, m: Marks, done: set<RouterId>, run: nat, ids: seq<RouterId>, w: Wrapper)
    requires Finished(t, our, m, done, run) && ShortDistances(m)
    requires Forest(our, m, run) && m.Keys == t.Keys && (forall r :: r in ids <==> r in m)
    requires w in Choose(our, ListOffers(our, m, run, t, ids))
    ensures exists r, l :: Nearest(t, our, m, w, r, l)
  {
    hide Finished, Forest, ListOffers, Choose, Nearest, Next, Covers, NoneCloser, Mine, Winner, Undercut;
    var os := ListOffers(our, m, run, t, ids);
    SelectionExactly(t, our, m, done, run, ids, w);
    OffersAnchored(t, our, m, done, run, ids);
    var sub := Mine(os, w);
    forall o | o in sub ensures o in os { MineMembers(os, w, o); }
    FittingIsNearest(sub);
    FinishedParts(t, our, m, done, run);
    NearestFrom(t, our, m, done, run, w, Winner(sub));
  }

  lemma NearestFrom(t: Topology, our: RouterId, m: Marks, done: set<RouterId>, run: nat, w: Wrapper, o: Offer)
    requires Finished(t, our, m, done, run) && ShortDistances(m) && Forest(our, m, run) && m.Keys == t.Keys
    requires o.rid in m && o.link in t[o.rid] && o.distance == m[o.rid].distance
    requires o.next == Next(our, m, run, o.rid, o.link)
    requires Covers(w, o.link) && NoneCloser(t, m, w, o.distance)
    requires w.distance == o.distance % WORD16 && w.nextRid == o.next && w.direct == (o.rid == our)
    ensures Nearest(t, our, m, w, o.rid, o.link)
  {
    hide Finished, Forest, Edge, Reach, IsDistance, Next, Covers, NoneCloser;
    NextIsFirstHop(t, our, m, done, run, o.rid, o.link);
  }

  lemma NextIsFirstHop(t: Topology, our: RouterId, m: Marks, done: set<RouterId>, run: nat, r: RouterId, l: Link)
    requires Finished(t, our, m, done, run) && Forest(our, m, run) && r in m
    ensures m[r].distance <= UNREACHED && (m[r].distance == 0 <==> r == our)
    ensures r == our ==> Next(our, m, run, r, l) == l.rid
    ensures r != our && m[r].distance < UNREACHED ==>
              && IsDistance(t, our, r, m[r].distance)
              && Edge(t, our, Next(our, m, run, r, l)) && Reach(t, Next(our, m, run, r, l), r, m[r].distance - 1)
  {
    hide Finished, Edge, Reach, IsDistance, LinkOk;
    DistancesAreExact(t, our, m, done, run, r);
    if r != our && m[r].distance < UNREACHED {
      FirstHopIsOnShortestPath(t, our, m, done, run, r);
    }
  }

  /** The wrapper list has exactly one entry per advertised subnet and mask. */
  lemma OneWrapperPerSubnet(t: Topology, our: RouterId, m: Marks, run: nat, ids: seq<RouterId>, r: RouterId, l: Link)
    requires Forest(our, m, run) && m.Keys == t.Keys && (forall r :: r in ids <==> r in m)
    requires r in m && l in t[r]
    ensures var ws := Choose(our, ListOffers(our, m, run, t, ids));
            && OnePerSubnet(ws)
            && exists w :: w in ws && Covers(w, l)
  {
    hide Forest, ListOffers, Choose, Next;
    var os := ListOffers(our, m, run, t, ids);
    ChooseCovers(our, os);
    var o := Offer(r, m[r].distance, l, Next(our, m, run, r, l));
    OfferMembers(our, m, run, t, ids, o);
    assert Offered(Choose(our, os), o);
  }

  // ---------------------------------------------------------------- the code

  /** get_route_wrapper. */
  method GetRouteWrapper(ws: seq<Wrapper>, l: Link, ghost o: Offer) returns (k: nat)
    requires o.link == l
    ensures k == Find(ws, o)
  {
    hide Covers;
    k := 0;
    while k < |ws| && !Covers(ws[k], l)
      invariant k <= |ws|
      invariant forall j :: 0 <= j < k ==> !Same(ws[j], o)
    {
      k := k + 1;
    }
  }

  /** The next hop of one link: walk down until the next router is ours. */
  method NextHop(our: RouterId, r: Router, l: Link, routers: seq<Router>, ghost m: Marks, ghost run: nat)
    returns (next: RouterId)
    requires Lists(routers, m) && Forest(our, m, run) && r in routers
    requires forall v :: v in m ==> (m[v].distance == 0 <==> v == our)
    ensures r.rid in m && next == Next(our, m, run, r.rid, l)
  {
    hide Unique;
    MarkOf(routers, m, r);
    if r.prev == null {
      return l.rid;
    }
    var f := WalkToFirstHop(our, r, routers, m, run);
    return f.rid;
  }

  /** add_route_wrappers, for one link. */
  method AcceptLink(our: RouterId, ws: seq<Wrapper>, r: Router, l: Link, routers: seq<Router>, ghost m: Marks, ghost run: nat)
    returns (out: seq<Wrapper>)
    requires Lists(routers, m) && Forest(our, m, run) && r in routers
    requires forall v :: v in m ==> (m[v].distance == 0 <==> v == our)
    ensures r.rid in m && out == Accept(our, ws, Offer(r.rid, m[r.rid].distance, l, Next(our, m, run, r.rid, l)))
  {
    hide Unique, Lists, Forest, Find, Link.Base;
    MarkOf(routers, m, r);
    ghost var o := Offer(r.rid, m[r.rid].distance, l, Next(our, m, run, r.rid, l));
    var k := GetRouteWrapper(ws, l, o);
    if k < |ws| {
      if r.distance >= ws[k].distance {
        return ws;
      }
      var next := NextHop(our, r, l, routers, m, run);
      return ws[k := ws[k].(distance := r.distance % WORD16, nextRid := next, direct := ws[k].direct || our == r.rid)];
    }
    var next := NextHop(our, r, l, routers, m, run);
    return ws + [Wrapper(l.Base(), l.mask, r.distance % WORD16, next, our == r.rid)];
  }

  lemma {:induction false} ChooseConcatOne(our: RouterId, os: seq<Offer>, o: Offer)
    ensures Choose(our, os + [o]) == Accept(our, Choose(our, os), o)
  {
    assert (os + [o])[..|os|] == os;
  }

  ghost function IdSeq(routers: seq<Router>): (ids: seq<RouterId>)
    ensures |ids| == |routers| && forall k :: 0 <= k < |routers| ==> ids[k] == routers[k].rid
  {
    seq(|routers|, k requires 0 <= k < |routers| => routers[k].rid)
  }

  /** add_route_wrappers: all links of one router. */
  method AddRouteWrappers(our: RouterId, ws: seq<Wrapper>, r: Router, routers: seq<Router>, ghost m: Marks, ghost run: nat,
                          ghost before: seq<Offer>)
    returns (out: seq<Wrapper>)
    requires Lists(routers, m) && Forest(our, m, run) && r in routers && ws == Choose(our, before)
    requires forall v :: v in m ==> (m[v].distance == 0 <==> v == our)
    ensures r.rid in m && out == Choose(our, before + LinkOffers(our, m, run, r.rid, r.links))
  {
    hide Unique, Lists, Forest, Choose, Accept, Next;
    MarkOf(routers, m, r);
    out := ws;
    ghost var os := LinkOffers(our, m, run, r.rid, r.links);
    assert before + os[..0] == before;
    for k := 0 to |r.links|
      invariant out == Choose(our, before + os[..k])
    {
      out := AcceptLink(our, out, r, r.links[k], routers, m, run);
      assert before + os[..k + 1] == (before + os[..k]) + [os[k]];
      ChooseConcatOne(our, before + os[..k], os[k]);
    }
    assert os[..|os|] == os;
  }

  /** build_route_wrapper_list. */
  method BuildRouteWrapperList(our: RouterId, routers: seq<Router>, ghost t: Topology, ghost m: Marks,
                               ghost done: set<RouterId>, ghost run: nat)
    returns (ws: seq<Wrapper>)
    requires Lists(routers, m) && Advertises(routers, t) && Finished(t, our, m, done, run)
    ensures Forest(our, m, run) && m.Keys == t.Keys && (forall r :: r in IdSeq(routers) <==> r in m)
    ensures ws == Choose(our, ListOffers(our, m, run, t, IdSeq(routers)))
  {
    hide Unique, Lists, Forest, Finished, Choose, Next;
    FinishedParts(t, our, m, done, run);
    KeysAreIds(routers, m);
    forall v | v in m ensures m[v].distance == 0 <==> v == our { DistancesAreExact(t, our, m, done, run, v); }
    ghost var ids := IdSeq(routers);
    assert forall k :: 0 <= k < |routers| ==> routers[k].rid in Ids(routers);
    ws := [];
    EmptyChoice(our, m, run, t);
    for k := 0 to |routers|
      invariant ws == Choose(our, ListOffers(our, m, run, t, ids[..k]))
    {
      assert ids[..k + 1][..k] == ids[..k];
      ws := AddRouteWrappers(our, ws, routers[k], routers, m, run, ListOffers(our, m, run, t, ids[..k]));
    }
    assert ids[..|ids|] == ids;
  }

  lemma EmptyChoice(our: RouterId, m: Marks, run: nat, t: Topology)
    requires Forest(our, m, run) && m.Keys == t.Keys
    ensures Choose(our, ListOffers(our, m, run, t, [])) == []
  {
  }
}
