/**
 The PWOSPF network: routers, LSU packets in flight, and the steps that move them.
 Packets may be lost, duplicated and reordered, routers may time out of each other's
 databases, and links may change. The safety theorem holds in every state of every run.
 */
module Flood {
  import opened Net
  import opened LinkDatabase
  import opened Pwospf

  /** A packet in flight, with the routers it has been sent or forwarded by. */
  datatype Flight = Flight(packet: Packet, path: seq<RouterId>)

  /**
   A network state. `sent` and `forwarded` are history: the advertisement set of every LSU
   a router has originated, in order, and the (origin, sequence number) pairs a router has
   forwarded since it last timed out that origin.
   */
  datatype Network = Network(
    nodes: map<RouterId, Node>,
    flight: seq<Flight>,
    sent: map<RouterId, seq<set<Adv>>>,
    forwarded: map<RouterId, set<(RouterId, nat)>>)

  datatype Event =
    | Deliver(i: nat)
    | Lose(i: nat)
    | Duplicate(i: nat)
    | Refresh(n: RouterId)
    | Relink(n: RouterId, ifaces: seq<Iface>, links: seq<Link>)
    | Expire(n: RouterId, stale: set<RouterId>)

  function Own(n: Node): Option<Record> {
    Lookup(n.db, n.rid)
  }

  predicate MaskedLink(l: Link) {
    l.subnet & l.mask == l.subnet
  }

  predicate MaskedLinks(links: seq<Link>) {
    forall l :: l in links ==> MaskedLink(l)
  }

  /** The packets of one broadcast as flights that share a path. */
  function Fly(ps: seq<Packet>, path: seq<RouterId>): (fs: seq<Flight>)
    ensures |fs| == |ps|
    ensures forall k :: 0 <= k < |ps| ==> fs[k] == Flight(ps[k], path)
  {
    seq(|ps|, k requires 0 <= k < |ps| => Flight(ps[k], path))
  }

  /** No id is listed twice, and the router lists itself. */
  predicate ListOk(n: Node) {
    UniqueIds(n.db) && Own(n).Some?
  }

  /** Every node is stored under its id, with a well-formed list and a history. */
  predicate Shaped(s: Network) {
    && s.sent.Keys == s.nodes.Keys
    && s.forwarded.Keys == s.nodes.Keys
    && forall n :: n in s.nodes ==> s.nodes[n].rid == n && ListOk(s.nodes[n])
  }

  lemma OwnRecord(s: Network, n: RouterId)
    requires Shaped(s) && n in s.nodes
    ensures UniqueIds(s.nodes[n].db)
    ensures Own(s.nodes[n]).Some? && Own(s.nodes[n]).value.rid == n
  {
    assert ListOk(s.nodes[n]);
  }

  lemma PutListOk(n: Node, r: Record)
    requires ListOk(n)
    ensures ListOk(n.(db := Put(n.db, r)))
  {
    PutLookup(n.db, r, n.rid);
  }

  lemma WithoutListOk(n: Node, stale: set<RouterId>)
    requires ListOk(n) && n.rid !in stale
    ensures ListOk(n.(db := Without(n.db, stale)))
  {
    WithoutMembers(n.db, stale);
    WithoutLookup(n.db, stale, n.rid);
  }

  lemma StoreListOk(n: Node, m: Lsu)
    requires ListOk(n)
    ensures ListOk(n.(db := Store(n, m).db))
  {
    var was := Lookup(n.db, m.origin);
    PutListOk(n, Record(m.origin, m.seqNo, Reconciled(if was.Some? then was.value.links else [], m.advs)));
  }

  /** `owner` says which router has an address. */
  predicate Enabled(owner: map<Ip, RouterId>, s: Network, e: Event) {
    match e
    case Deliver(i) =>
      i < |s.flight| && s.flight[i].packet.dst in owner && owner[s.flight[i].packet.dst] in s.nodes
    case Lose(i) => i < |s.flight|
    case Duplicate(i) => i < |s.flight|
    case Refresh(n) => n in s.nodes
    case Relink(n, _, links) => n in s.nodes && MaskedLinks(links)
    case Expire(n, stale) => n in s.nodes && n !in stale
  }

  function Drop(fs: seq<Flight>, i: nat): seq<Flight>
    requires i < |fs|
  {
    fs[..i] + fs[i + 1..]
  }

  function SetDb(s: Network, n: RouterId, db: seq<Record>): Network
    requires n in s.nodes
  {
    s.(nodes := s.nodes[n := s.nodes[n].(db := db)])
  }

  /** Router `n` originates an LSU and advances its counter. */
  function OriginateAt(s: Network, n: RouterId): (s': Network)
    requires Shaped(s) && n in s.nodes
    ensures Shaped(s') && s'.nodes.Keys == s.nodes.Keys
  {
    hide ListOk, Own, UniqueIds, Put, Broadcast, AdvSet, Ads;
    OwnRecord(s, n);
    var node := s.nodes[n];
    var own := Own(node).value;
    PutListOk(node, own.(seqNo := (own.seqNo + 1) % WORD));
    s.(nodes := s.nodes[n := Bumped(node, own)],
       flight := s.flight + Fly(Broadcast(node.ifaces, OwnLsu(own), None), [n]),
       sent := s.sent[n := s.sent[n] + [AdvSet(Ads(own.links))]])
  }

  /** What a node has forwarded after taking packet `p`. */
  function Done(n: Node, done: set<(RouterId, nat)>, p: Packet): set<(RouterId, nat)> {
    done + if Forwards(n, p) == [] then {} else {(p.lsu.origin, p.lsu.seqNo)}
  }

  /** The part of a delivery before any LSU of the receiver itself. */
  function DeliverAt(s: Network, i: nat, n: RouterId): (s': Network)
    requires Shaped(s) && i < |s.flight| && n in s.nodes
    ensures Shaped(s') && s'.nodes.Keys == s.nodes.Keys
    ensures s'.sent == s.sent
  {
    hide ListOk, Store, Forwards, Done;
    var f := s.flight[i];
    StoreListOk(s.nodes[n], f.packet.lsu);
    SetDb(s, n, Store(s.nodes[n], f.packet.lsu).db)
      .(flight := Drop(s.flight, i) + Fly(Forwards(s.nodes[n], f.packet), f.path + [n]),
        forwarded := s.forwarded[n := Done(s.nodes[n], s.forwarded[n], f.packet)])
  }

  function ExpireAt(s: Network, n: RouterId, stale: set<RouterId>): (s': Network)
    requires Shaped(s) && n in s.nodes && n !in stale
    ensures Shaped(s') && s'.nodes.Keys == s.nodes.Keys
    ensures s'.sent == s.sent
  {
    hide ListOk, Without;
    WithoutListOk(s.nodes[n], stale);
    SetDb(s, n, Without(s.nodes[n].db, stale))
      .(forwarded := s.forwarded[n := set x | x in s.forwarded[n] && x.0 !in stale])
  }

  function RelinkAt(s: Network, n: RouterId, ifaces: seq<Iface>, links: seq<Link>): (s': Network)
    requires Shaped(s) && n in s.nodes
    ensures Shaped(s') && s'.nodes.Keys == s.nodes.Keys
    ensures s'.sent == s.sent
  {
    var node := s.nodes[n].(ifaces := ifaces);
    assert Own(node) == Own(s.nodes[n]);
    var own := Own(node).value.(links := links);
    PutListOk(node, own);
    s.(nodes := s.nodes[n := node.(db := Put(node.db, own))])
  }

  /** One step of the network. */
  function Apply(owner: map<Ip, RouterId>, s: Network, e: Event): (s': Network)
    requires Shaped(s) && Enabled(owner, s, e)
    ensures Shaped(s') && s'.nodes.Keys == s.nodes.Keys
  {
    match e
    case Deliver(i) =>
      var n := owner[s.flight[i].packet.dst];
      if Store(s.nodes[n], s.flight[i].packet.lsu).changed
      then OriginateAt(DeliverAt(s, i, n), n)
      else DeliverAt(s, i, n)
    case Lose(i) => s.(flight := Drop(s.flight, i))
    case Duplicate(i) => s.(flight := s.flight + [s.flight[i]])
    case Refresh(n) => OriginateAt(s, n)
    case Relink(n, ifaces, links) => OriginateAt(RelinkAt(s, n, ifaces, links), n)
    case Expire(n, stale) => OriginateAt(ExpireAt(s, n, stale), n)
  }

  /** The events of a run are enabled one after the other, and `end` is where it leads. */
  ghost predicate Run(owner: map<Ip, RouterId>, start: Network, events: seq<Event>, end: Network)
    requires Shaped(start)
    decreases |events|
  {
    if events == [] then
      start == end
    else
      Enabled(owner, start, events[0]) &&
      Run(owner, Apply(owner, start, events[0]), events[1..], end)
  }

  // ---------------------------------------------------------------- safety

  /** A record agrees with the LSU its origin sent under that sequence number. */
  predicate RecordOk(sent: map<RouterId, seq<set<Adv>>>, r: Record) {
    r.rid in sent && r.seqNo < |sent[r.rid]| && LinkSet(r.links) == sent[r.rid][r.seqNo]
  }

  ghost predicate NodeOk(sent: map<RouterId, seq<set<Adv>>>, n: Node) {
    && n.rid in sent
    && Own(n).Some?
    && Own(n).value.seqNo == |sent[n.rid]| < WORD
    && MaskedLinks(Own(n).value.links)
    && forall o :: o != n.rid && Lookup(n.db, o).Some? ==> RecordOk(sent, Lookup(n.db, o).value)
  }

  predicate LsuOk(sent: map<RouterId, seq<set<Adv>>>, m: Lsu) {
    && m.origin in sent
    && m.seqNo < |sent[m.origin]|
    && AdvSet(m.advs) == sent[m.origin][m.seqNo]
    && PreMasked(m.advs)
    && 1 <= m.ttl <= MAX_TTL
  }

  /** What a node has forwarded it still knows, at that sequence number or a later one. */
  predicate ForwardedOk(n: Node, done: set<(RouterId, nat)>) {
    forall x :: x in done ==>
      x.0 != n.rid && Lookup(n.db, x.0).Some? && Lookup(n.db, x.0).value.seqNo >= x.1
  }

  ghost predicate NodesOk(s: Network)
    requires Shaped(s)
  {
    forall n :: n in s.nodes ==> NodeOk(s.sent, s.nodes[n]) && ForwardedOk(s.nodes[n], s.forwarded[n])
  }

  predicate FlightOk(sent: map<RouterId, seq<set<Adv>>>, flight: seq<Flight>) {
    forall f :: f in flight ==> LsuOk(sent, f.packet.lsu)
  }

  ghost predicate Safe(s: Network) {
    Shaped(s) && NodesOk(s) && FlightOk(s.sent, s.flight)
  }

  /** No router has used up its 16-bit sequence numbers. */
  predicate Bounded(s: Network) {
    forall n :: n in s.sent ==> |s.sent[n]| < WORD
  }

  ghost predicate Initial(s: Network) {
    && Shaped(s)
    && s.flight == []
    && forall n :: n in s.nodes ==>
         && s.sent[n] == [] && s.forwarded[n] == {}
         && |s.nodes[n].db| == 1
         && s.nodes[n].db[0].rid == n && s.nodes[n].db[0].seqNo == 0
         && MaskedLinks(s.nodes[n].db[0].links)
  }

  lemma InitialIsSafe(s: Network)
    requires Initial(s)
    ensures Safe(s)
  {
  }

  lemma AdsOfMasked(links: seq<Link>)
    requires MaskedLinks(links)
    ensures PreMasked(Ads(links))
    ensures AdvSet(Ads(links)) == LinkSet(links)
  {
    var advs := Ads(links);
    forall k | 0 <= k < |links|
      ensures Norm(advs[k]) == advs[k] == links[k].Ad()
    {
      assert links[k] in links;
    }
    assert forall a :: a in advs ==> exists k :: 0 <= k < |links| && a == advs[k];
    forall t | t in LinkSet(links)
      ensures t in AdvSet(advs)
    {
      var l :| l in links && l.Ad() == t;
      var k :| 0 <= k < |links| && links[k] == l;
      assert advs[k] in advs && Norm(advs[k]) == t;
    }
  }

  /** Histories only grow, so what agreed with them still does. */
  predicate Grows(h: map<RouterId, seq<set<Adv>>>, h': map<RouterId, seq<set<Adv>>>) {
    forall n :: n in h ==> n in h' && h[n] <= h'[n]
  }

  lemma GrowsKeepsNode(h: map<RouterId, seq<set<Adv>>>, h': map<RouterId, seq<set<Adv>>>, n: Node)
    requires Grows(h, h') && NodeOk(h, n) && h'[n.rid] == h[n.rid]
    ensures NodeOk(h', n)
  {
    forall o | o != n.rid && Lookup(n.db, o).Some?
      ensures RecordOk(h', Lookup(n.db, o).value)
    {
      assert RecordOk(h, Lookup(n.db, o).value);
    }
  }

  lemma GrowsKeepsLsu(h: map<RouterId, seq<set<Adv>>>, h': map<RouterId, seq<set<Adv>>>, m: Lsu)
    requires Grows(h, h') && LsuOk(h, m)
    ensures LsuOk(h', m)
  {
  }

  /** The originating node, and the LSU it sends, agree with the history that now includes it. */
  lemma OriginateNodeIsSafe(h: map<RouterId, seq<set<Adv>>>, n: Node, done: set<(RouterId, nat)>)
    requires NodeOk(h, n) && UniqueIds(n.db) && ForwardedOk(n, done)
    requires |h[n.rid]| + 1 < WORD
    ensures var own := Own(n).value;
            var h' := h[n.rid := h[n.rid] + [AdvSet(Ads(own.links))]];
            && Grows(h, h')
            && NodeOk(h', Bumped(n, own))
            && ForwardedOk(Bumped(n, own), done)
            && LsuOk(h', OwnLsu(own))
  {
    var own := Own(n).value;
    var h' := h[n.rid := h[n.rid] + [AdvSet(Ads(own.links))]];
    var own' := own.(seqNo := (own.seqNo + 1) % WORD);
    AdsOfMasked(own.links);
    forall o
      ensures Lookup(Put(n.db, own'), o) == if o == n.rid then Some(own') else Lookup(n.db, o)
    {
      PutLookup(n.db, own', o);
    }
    forall o | o != n.rid && Lookup(n.db, o).Some?
      ensures RecordOk(h', Lookup(n.db, o).value)
    {
      assert RecordOk(h, Lookup(n.db, o).value);
    }
  }

  lemma OriginateIsSafe(s: Network, n: RouterId)
    requires Safe(s) && n in s.nodes
    requires |s.sent[n]| + 1 < WORD
    ensures Safe(OriginateAt(s, n))
  {
    hide ListOk, NodeOk, ForwardedOk, LsuOk, UniqueIds, Own, Broadcast, AdvSet, Ads, Put, Grows;
    var s', node := OriginateAt(s, n), s.nodes[n];
    OwnRecord(s, n);
    OriginateNodeIsSafe(s.sent, node, s.forwarded[n]);
    forall x | x in s'.nodes
      ensures NodeOk(s'.sent, s'.nodes[x]) && ForwardedOk(s'.nodes[x], s'.forwarded[x])
    {
      if x != n {
        GrowsKeepsNode(s.sent, s'.sent, s.nodes[x]);
      }
    }
    forall f | f in s'.flight
      ensures LsuOk(s'.sent, f.packet.lsu)
    {
      if f in s.flight {
        GrowsKeepsLsu(s.sent, s'.sent, f.packet.lsu);
      } else {
        OriginatedLsu(s, n, f);
      }
    }
  }

  /** A flight that an origination adds carries the originator's own LSU. */
  lemma OriginatedLsu(s: Network, n: RouterId, f: Flight)
    requires Shaped(s) && n in s.nodes && f in OriginateAt(s, n).flight && f !in s.flight
    ensures f.packet.lsu == OwnLsu(Own(s.nodes[n]).value) && f.path == [n]
    ensures Neighbour(s.nodes[n].ifaces, f.packet.src, f.packet.dst)
  {
    var node, own := s.nodes[n], Own(s.nodes[n]).value;
    var ps := Broadcast(node.ifaces, OwnLsu(own), None);
    BroadcastMembers(node.ifaces, OwnLsu(own), None);
    assert f in Fly(ps, [n]);
    var k :| 0 <= k < |ps| && Fly(ps, [n])[k] == f;
    assert ps[k] in ps;
  }

  /**
   A router whose list changed by an LSU announces itself: its present links go to every neighbour
   under its number and a time-to-live of 64, and the number goes up. Otherwise its record stays.
   */
  lemma ChangeIsAnnounced(owner: map<Ip, RouterId>, s: Network, i: nat, src: Ip, dst: Ip)
    requires Shaped(s) && Enabled(owner, s, Deliver(i))
    ensures var n, s' := owner[s.flight[i].packet.dst], Apply(owner, s, Deliver(i));
            && Own(s.nodes[n]).Some? && Own(s'.nodes[n]).Some?
            && var own := Own(s.nodes[n]).value;
            if Store(s.nodes[n], s.flight[i].packet.lsu).changed then
              && Own(s'.nodes[n]).value == own.(seqNo := (own.seqNo + 1) % 0x1_0000)
              && (Neighbour(s.nodes[n].ifaces, src, dst) ==>
                    Flight(Packet(src, dst, Lsu(n, own.seqNo, 64, Ads(own.links))), [n]) in s'.flight)
            else
              Own(s'.nodes[n]).value == own
  {
    hide ListOk, Store, DeliverAt, OriginateAt, Own, Ads, Neighbour;
    var n := owner[s.flight[i].packet.dst];
    DeliverKeepsOwn(s, i, n);
    if Store(s.nodes[n], s.flight[i].packet.lsu).changed {
      OriginateAnnounces(DeliverAt(s, i, n), n, src, dst);
    }
  }

  lemma DeliverKeepsOwn(s: Network, i: nat, n: RouterId)
    requires Shaped(s) && i < |s.flight| && n in s.nodes
    ensures Own(s.nodes[n]).Some? && Own(DeliverAt(s, i, n).nodes[n]) == Own(s.nodes[n])
    ensures DeliverAt(s, i, n).nodes[n].ifaces == s.nodes[n].ifaces
  {
    hide ListOk, Store, UniqueIds, Forwards, Done, Own;
    OwnRecord(s, n);
    StoreKeepsOwn(s.nodes[n], s.flight[i].packet.lsu);
  }

  lemma OriginateAnnounces(s: Network, n: RouterId, src: Ip, dst: Ip)
    requires Shaped(s) && n in s.nodes && Own(s.nodes[n]).Some?
    ensures var own, s' := Own(s.nodes[n]).value, OriginateAt(s, n);
            && Own(s'.nodes[n]) == Some(own.(seqNo := (own.seqNo + 1) % 0x1_0000))
            && (Neighbour(s.nodes[n].ifaces, src, dst) ==>
                  Flight(Packet(src, dst, Lsu(n, own.seqNo, 64, Ads(own.links))), [n]) in s'.flight)
  {
    hide ListOk, UniqueIds, Put, Broadcast, Ads, Lookup, Neighbour, Fly, AdvSet;
    OwnRecord(s, n);
    var own := Own(s.nodes[n]).value;
    PutLookup(s.nodes[n].db, own.(seqNo := (own.seqNo + 1) % WORD), n);
    BroadcastMembers(s.nodes[n].ifaces, OwnLsu(own), None);
    if Neighbour(s.nodes[n].ifaces, src, dst) {
      InFlight(Broadcast(s.nodes[n].ifaces, OwnLsu(own), None), Packet(src, dst, OwnLsu(own)), [n]);
    }
  }

  lemma StoreKeepsOwn(n: Node, lsu: Lsu)
    requires UniqueIds(n.db)
    ensures Own(n.(db := Store(n, lsu).db)) == Own(n)
  {
    hide Reconciled, Changed, LinkSet, AdvSet, PreMasked, Lookup, UniqueIds, Store;
    StoreExactly(n, lsu, n.rid);
  }

  lemma InFlight(ps: seq<Packet>, p: Packet, path: seq<RouterId>)
    requires p in ps
    ensures Flight(p, path) in Fly(ps, path)
  {
    var k :| 0 <= k < |ps| && ps[k] == p;
    assert Fly(ps, path)[k] == Flight(p, path);
  }

  /** Storing an LSU that agrees with the history leaves a database that agrees with it. */
  lemma StoreIsSafe(sent: map<RouterId, seq<set<Adv>>>, n: Node, m: Lsu)
    requires NodeOk(sent, n) && UniqueIds(n.db) && LsuOk(sent, m)
    ensures var u := Store(n, m);
            && NodeOk(sent, n.(db := u.db))
            && Lookup(u.db, n.rid) == Lookup(n.db, n.rid)
            && forall o :: Lookup(u.db, o) == (if u.newer && o == m.origin then Lookup(u.db, o) else Lookup(n.db, o))
    ensures var u := Store(n, m);
            u.newer ==>
              && m.origin != n.rid && Lookup(u.db, m.origin).Some?
              && Lookup(u.db, m.origin).value.seqNo == m.seqNo
              && (Lookup(n.db, m.origin).Some? ==> Lookup(n.db, m.origin).value.seqNo < m.seqNo)
  {
    var was := Lookup(n.db, m.origin);
    var links := if was.Some? then was.value.links else [];
    var r := Record(m.origin, m.seqNo, Reconciled(links, m.advs));
    ReconciledIsAdvertised(links, m.advs);
    assert RecordOk(sent, r);
    forall o
      ensures Lookup(Put(n.db, r), o) == if o == m.origin then Some(r) else Lookup(n.db, o)
    {
      PutLookup(n.db, r, o);
    }
  }

  /** A flight that a delivery adds carries the delivered LSU with its time-to-live decremented. */
  lemma ForwardedLsu(s: Network, i: nat, n: RouterId, g: Flight)
    requires Shaped(s) && i < |s.flight| && n in s.nodes
    requires g in DeliverAt(s, i, n).flight && g !in Drop(s.flight, i)
    ensures var f := s.flight[i];
            && Store(s.nodes[n], f.packet.lsu).newer
            && NextTtl(f.packet.lsu.ttl) > 0
            && g.packet.lsu == f.packet.lsu.(ttl := NextTtl(f.packet.lsu.ttl))
            && g.path == f.path + [n]
            && Neighbour(s.nodes[n].ifaces, g.packet.src, g.packet.dst)
            && g.packet.dst != f.packet.src
  {
    var f := s.flight[i];
    var ps := Forwards(s.nodes[n], f.packet);
    BroadcastMembers(s.nodes[n].ifaces, f.packet.lsu.(ttl := NextTtl(f.packet.lsu.ttl)), Some(f.packet.src));
    assert g in Fly(ps, f.path + [n]);
    var k :| 0 <= k < |ps| && Fly(ps, f.path + [n])[k] == g;
    assert ps[k] in ps;
  }

  lemma ForwardIsSafe(h: map<RouterId, seq<set<Adv>>>, m: Lsu)
    requires LsuOk(h, m) && NextTtl(m.ttl) > 0
    ensures LsuOk(h, m.(ttl := NextTtl(m.ttl)))
  {
  }

  lemma DeliverNodeIsSafe(h: map<RouterId, seq<set<Adv>>>, n: Node, done: set<(RouterId, nat)>, p: Packet)
    requires NodeOk(h, n) && UniqueIds(n.db) && ForwardedOk(n, done) && LsuOk(h, p.lsu)
    ensures var n' := n.(db := Store(n, p.lsu).db);
            NodeOk(h, n') && ForwardedOk(n', Done(n, done, p))
  {
    StoreIsSafe(h, n, p.lsu);
    var u := Store(n, p.lsu);
    forall x | x in done
      ensures Lookup(u.db, x.0).Some? && Lookup(u.db, x.0).value.seqNo >= x.1
    {
      assert Lookup(n.db, x.0).Some?;
    }
  }

  lemma DeliverNodesAreSafe(s: Network, i: nat, n: RouterId)
    requires Safe(s) && i < |s.flight| && n in s.nodes
    ensures NodesOk(DeliverAt(s, i, n))
  {
    hide ListOk, NodeOk, ForwardedOk, LsuOk, Store, Forwards, Done, UniqueIds, Own;
    var s' := DeliverAt(s, i, n);
    assert s.flight[i] in s.flight;
    OwnRecord(s, n);
    DeliverNodeIsSafe(s.sent, s.nodes[n], s.forwarded[n], s.flight[i].packet);
    forall x | x in s'.nodes
      ensures NodeOk(s'.sent, s'.nodes[x]) && ForwardedOk(s'.nodes[x], s'.forwarded[x])
    {
      assert s'.sent == s.sent;
      if x != n {
        assert s'.nodes[x] == s.nodes[x] && s'.forwarded[x] == s.forwarded[x];
      }
    }
  }

  lemma DeliverFlightsAreSafe(s: Network, i: nat, n: RouterId)
    requires Safe(s) && i < |s.flight| && n in s.nodes
    ensures FlightOk(s.sent, DeliverAt(s, i, n).flight)
  {
    hide LsuOk, NodesOk, ListOk, Store, Forwards, Done;
    forall g | g in DeliverAt(s, i, n).flight
      ensures LsuOk(s.sent, g.packet.lsu)
    {
      if g !in Drop(s.flight, i) {
        ForwardedLsu(s, i, n, g);
        assert s.flight[i] in s.flight;
        ForwardIsSafe(s.sent, s.flight[i].packet.lsu);
      } else {
        assert g in s.flight;
      }
    }
  }

  lemma DeliverIsSafe(s: Network, i: nat, n: RouterId)
    requires Safe(s) && i < |s.flight| && n in s.nodes
    ensures Safe(DeliverAt(s, i, n))
  {
    hide NodesOk, FlightOk, ListOk, DeliverAt;
    DeliverNodesAreSafe(s, i, n);
    DeliverFlightsAreSafe(s, i, n);
  }

  lemma ExpireNodeIsSafe(h: map<RouterId, seq<set<Adv>>>, n: Node, done: set<(RouterId, nat)>, stale: set<RouterId>)
    requires NodeOk(h, n) && UniqueIds(n.db) && ForwardedOk(n, done) && n.rid !in stale
    ensures NodeOk(h, n.(db := Without(n.db, stale)))
    ensures ForwardedOk(n.(db := Without(n.db, stale)), set x | x in done && x.0 !in stale)
  {
    forall o
      ensures Lookup(Without(n.db, stale), o) == if o in stale then None else Lookup(n.db, o)
    {
      WithoutLookup(n.db, stale, o);
    }
  }

  lemma ExpireIsSafe(s: Network, n: RouterId, stale: set<RouterId>)
    requires Safe(s) && n in s.nodes && n !in stale
    ensures Safe(ExpireAt(s, n, stale))
  {
    hide NodeOk, ForwardedOk, LsuOk, ListOk, Without, UniqueIds, Own;
    OwnRecord(s, n);
    ExpireNodeIsSafe(s.sent, s.nodes[n], s.forwarded[n], stale);
    var s' := ExpireAt(s, n, stale);
    assert forall x :: x in s'.nodes && x != n ==> s'.nodes[x] == s.nodes[x];
  }

  lemma RelinkIsSafe(s: Network, n: RouterId, ifaces: seq<Iface>, links: seq<Link>)
    requires Safe(s) && n in s.nodes && MaskedLinks(links)
    ensures Safe(RelinkAt(s, n, ifaces, links))
  {
    hide NodeOk, ForwardedOk, LsuOk, ListOk, Put, UniqueIds, Own, MaskedLinks;
    OwnRecord(s, n);
    SameOwn(s.nodes[n], ifaces);
    RelinkNodeIsSafe(s.sent, s.nodes[n], s.forwarded[n], ifaces, links);
    var s' := RelinkAt(s, n, ifaces, links);
    assert forall x :: x in s'.nodes && x != n ==> s'.nodes[x] == s.nodes[x];
  }

  lemma SameOwn(n: Node, ifaces: seq<Iface>)
    ensures Own(n.(ifaces := ifaces)) == Own(n)
  {
  }

  lemma RelinkNodeIsSafe(h: map<RouterId, seq<set<Adv>>>, n: Node, done: set<(RouterId, nat)>,
                         ifaces: seq<Iface>, links: seq<Link>)
    requires NodeOk(h, n) && UniqueIds(n.db) && ForwardedOk(n, done) && MaskedLinks(links)
    ensures var n' := Node(n.rid, Put(n.db, Own(n).value.(links := links)), ifaces);
            NodeOk(h, n') && ForwardedOk(n', done)
  {
    var own := Own(n).value.(links := links);
    forall o
      ensures Lookup(Put(n.db, own), o) == if o == n.rid then Some(own) else Lookup(n.db, o)
    {
      PutLookup(n.db, own, o);
    }
  }

  /** Losing or duplicating packets touches nothing but the packets in flight. */
  lemma ReshuffleIsSafe(s: Network, flight: seq<Flight>)
    requires Safe(s) && forall f :: f in flight ==> f in s.flight
    ensures Safe(s.(flight := flight))
  {
    hide ListOk, NodeOk, ForwardedOk, LsuOk;
  }

  lemma DeliverStepIsSafe(owner: map<Ip, RouterId>, s: Network, i: nat)
    requires Safe(s) && Enabled(owner, s, Deliver(i)) && Bounded(Apply(owner, s, Deliver(i)))
    ensures Safe(Apply(owner, s, Deliver(i)))
  {
    hide ListOk, NodesOk, FlightOk, Store, OriginateAt, DeliverAt;
    var n := owner[s.flight[i].packet.dst];
    DeliverIsSafe(s, i, n);
    if Store(s.nodes[n], s.flight[i].packet.lsu).changed {
      OriginateGrows(DeliverAt(s, i, n), n);
      OriginateIsSafe(DeliverAt(s, i, n), n);
    }
  }

  lemma RelinkStepIsSafe(owner: map<Ip, RouterId>, s: Network, n: RouterId, ifaces: seq<Iface>, links: seq<Link>)
    requires Safe(s) && Enabled(owner, s, Relink(n, ifaces, links))
    requires Bounded(Apply(owner, s, Relink(n, ifaces, links)))
    ensures Safe(Apply(owner, s, Relink(n, ifaces, links)))
  {
    hide ListOk, NodesOk, FlightOk, OriginateAt, RelinkAt, ExpireAt, MaskedLinks;
    RelinkIsSafe(s, n, ifaces, links);
    OriginateGrows(RelinkAt(s, n, ifaces, links), n);
    OriginateIsSafe(RelinkAt(s, n, ifaces, links), n);
  }

  lemma ExpireStepIsSafe(owner: map<Ip, RouterId>, s: Network, n: RouterId, stale: set<RouterId>)
    requires Safe(s) && Enabled(owner, s, Expire(n, stale)) && Bounded(Apply(owner, s, Expire(n, stale)))
    ensures Safe(Apply(owner, s, Expire(n, stale)))
  {
    hide ListOk, NodesOk, FlightOk, OriginateAt, RelinkAt, ExpireAt, MaskedLinks;
    ExpireIsSafe(s, n, stale);
    OriginateGrows(ExpireAt(s, n, stale), n);
    OriginateIsSafe(ExpireAt(s, n, stale), n);
  }

  /** Every step keeps the network safe. */
  lemma StepIsSafe(owner: map<Ip, RouterId>, s: Network, e: Event)
    requires Safe(s) && Enabled(owner, s, e)
    requires Bounded(Apply(owner, s, e))
    ensures Safe(Apply(owner, s, e))
  {
    hide ListOk, NodesOk, FlightOk, OriginateAt, MaskedLinks;
    match e
    case Deliver(i) => DeliverStepIsSafe(owner, s, i);
    case Lose(i) => ReshuffleIsSafe(s, Drop(s.flight, i));
    case Duplicate(i) => ReshuffleIsSafe(s, s.flight + [s.flight[i]]);
    case Refresh(n) =>
      OriginateGrows(s, n);
      OriginateIsSafe(s, n);
    case Relink(n, ifaces, links) => RelinkStepIsSafe(owner, s, n, ifaces, links);
    case Expire(n, stale) => ExpireStepIsSafe(owner, s, n, stale);
  }

  lemma OriginateGrows(s: Network, n: RouterId)
    requires Shaped(s) && n in s.nodes
    ensures Grows(s.sent, OriginateAt(s, n).sent)
    ensures |OriginateAt(s, n).sent[n]| == |s.sent[n]| + 1
  {
  }

  lemma StepGrows(owner: map<Ip, RouterId>, s: Network, e: Event)
    requires Shaped(s) && Enabled(owner, s, e)
    ensures Grows(s.sent, Apply(owner, s, e).sent)
  {
    hide ListOk, OriginateAt, DeliverAt, RelinkAt, ExpireAt, Store, MaskedLinks;
    match e
    case Deliver(i) =>
      var n := owner[s.flight[i].packet.dst];
      OriginateGrows(DeliverAt(s, i, n), n);
    case Lose(i) =>
    case Duplicate(i) =>
    case Refresh(n) => OriginateGrows(s, n);
    case Relink(n, ifaces, links) =>
      OriginateGrows(RelinkAt(s, n, ifaces, links), n);
    case Expire(n, stale) =>
      OriginateGrows(ExpireAt(s, n, stale), n);
  }

  lemma {:induction false} RunGrows(owner: map<Ip, RouterId>, s: Network, events: seq<Event>, end: Network)
    requires Shaped(s) && Run(owner, s, events, end)
    ensures Grows(s.sent, end.sent)
    decreases |events|
  {
    if events != [] {
      StepGrows(owner, s, events[0]);
      RunGrows(owner, Apply(owner, s, events[0]), events[1..], end);
    }
  }

  /**
   Safety over every run. As long as no router has originated 65536 LSUs, every state is safe:
   each stored record is the advertisement set its origin sent under that number, below the
   origin's counter; every packet in flight has a time-to-live between 1 and 64; ids are unique
   and every router knows itself.
   */
  lemma {:induction false} RunIsSafe(owner: map<Ip, RouterId>, s: Network, events: seq<Event>, end: Network)
    requires Safe(s) && Run(owner, s, events, end) && Bounded(end)
    ensures Safe(end)
    decreases |events|
  {
    if events != [] {
      var next := Apply(owner, s, events[0]);
      RunGrows(owner, next, events[1..], end);
      StepIsSafe(owner, s, events[0]);
      RunIsSafe(owner, next, events[1..], end);
    }
  }

  // ---------------------------------------------------------------- forwarding once

  /** What a router forwards it has not forwarded since it last timed out the origin. */
  lemma ForwardsNew(s: Network, i: nat, n: RouterId)
    requires Safe(s) && i < |s.flight| && n in s.nodes
    requires Forwards(s.nodes[n], s.flight[i].packet) != []
    ensures var m := s.flight[i].packet.lsu;
            (m.origin, m.seqNo) !in s.forwarded[n] && (m.origin, m.seqNo) in DeliverAt(s, i, n).forwarded[n]
  {
    assert s.flight[i] in s.flight;
    StoreIsSafe(s.sent, s.nodes[n], s.flight[i].packet.lsu);
  }

  /** The state before event `k` of a run. */
  ghost function StateAt(owner: map<Ip, RouterId>, s: Network, events: seq<Event>, end: Network, k: nat): (at: Network)
    requires Shaped(s) && Run(owner, s, events, end) && k <= |events|
    ensures Shaped(at) && at.nodes.Keys == s.nodes.Keys
    ensures k < |events| ==> Enabled(owner, at, events[k])
    decreases k
  {
    hide Apply, ListOk, Enabled;
    if k == 0 then s else StateAt(owner, Apply(owner, s, events[0]), events[1..], end, k - 1)
  }

  lemma {:induction false} StateNext(owner: map<Ip, RouterId>, s: Network, events: seq<Event>, end: Network, k: nat)
    requires Shaped(s) && Run(owner, s, events, end) && k < |events|
    ensures StateAt(owner, s, events, end, k + 1) == Apply(owner, StateAt(owner, s, events, end, k), events[k])
    decreases k
  {
    hide Apply, ListOk;
    if k > 0 {
      StateNext(owner, Apply(owner, s, events[0]), events[1..], end, k - 1);
    }
  }

  /** Every state of a run is safe. */
  lemma {:induction false} StateIsSafe(owner: map<Ip, RouterId>, s: Network, events: seq<Event>, end: Network, k: nat)
    requires Safe(s) && Run(owner, s, events, end) && Bounded(end) && k <= |events|
    ensures Safe(StateAt(owner, s, events, end, k))
    decreases k
  {
    hide Apply, ListOk, NodesOk, FlightOk, Enabled;
    if k > 0 {
      var next := Apply(owner, s, events[0]);
      RunGrows(owner, next, events[1..], end);
      StepIsSafe(owner, s, events[0]);
      StateIsSafe(owner, next, events[1..], end, k - 1);
    }
  }

  /** Event `e` delivers LSU number `key.1` of router `key.0` to `n`, which forwards it. */
  predicate ForwardedBy(owner: map<Ip, RouterId>, s: Network, e: Event, n: RouterId, key: (RouterId, nat))
    requires Shaped(s) && Enabled(owner, s, e)
  {
    && e.Deliver? && owner[s.flight[e.i].packet.dst] == n
    && (s.flight[e.i].packet.lsu.origin, s.flight[e.i].packet.lsu.seqNo) == key
    && Forwards(s.nodes[n], s.flight[e.i].packet) != []
  }

  /** Event `e` makes `n` time out router `o`. */
  predicate TimesOut(e: Event, n: RouterId, o: RouterId) {
    e.Expire? && e.n == n && o in e.stale
  }

  /** Router `n` has noted that it forwarded the LSU. */
  predicate Noted(s: Network, n: RouterId, key: (RouterId, nat)) {
    n in s.forwarded && key in s.forwarded[n]
  }

  lemma StepRemembers(owner: map<Ip, RouterId>, s: Network, e: Event, n: RouterId, key: (RouterId, nat))
    requires Shaped(s) && Enabled(owner, s, e) && Noted(s, n, key) && !TimesOut(e, n, key.0)
    ensures Noted(Apply(owner, s, e), n, key)
  {
    hide ListOk, Store, Forwards, Put, Broadcast, MaskedLinks, Own, UniqueIds, Without;
  }

  lemma ForwardIsNoted(owner: map<Ip, RouterId>, s: Network, e: Event, n: RouterId, key: (RouterId, nat))
    requires Safe(s) && Enabled(owner, s, e) && ForwardedBy(owner, s, e, n, key)
    ensures !Noted(s, n, key) && Noted(Apply(owner, s, e), n, key)
  {
    hide ListOk, NodesOk, FlightOk, Store, Forwards, DeliverAt;
    ForwardsNew(s, e.i, n);
    OriginateKeepsForwarded(DeliverAt(s, e.i, n), n);
  }

  lemma OriginateKeepsForwarded(s: Network, n: RouterId)
    requires Shaped(s) && n in s.nodes
    ensures OriginateAt(s, n).forwarded == s.forwarded
  {
  }

  lemma {:induction false} RunRemembers(owner: map<Ip, RouterId>, s: Network, events: seq<Event>, end: Network,
                                        a: nat, b: nat, n: RouterId, key: (RouterId, nat))
    requires Shaped(s) && Run(owner, s, events, end) && a <= b <= |events|
    requires Noted(StateAt(owner, s, events, end, a), n, key)
    requires forall k :: a <= k < b ==> !TimesOut(events[k], n, key.0)
    ensures Noted(StateAt(owner, s, events, end, b), n, key)
    decreases b - a
  {
    hide Apply, Shaped, TimesOut, Run, StateAt, Enabled, Noted;
    if a < b {
      StateNext(owner, s, events, end, a);
      StepRemembers(owner, StateAt(owner, s, events, end, a), events[a], n, key);
      RunRemembers(owner, s, events, end, a + 1, b, n, key);
    }
  }

  lemma ForwardAt(owner: map<Ip, RouterId>, s: Network, events: seq<Event>, end: Network,
                  a: nat, n: RouterId, key: (RouterId, nat))
    requires Safe(s) && Run(owner, s, events, end) && Bounded(end) && a < |events|
    requires ForwardedBy(owner, StateAt(owner, s, events, end, a), events[a], n, key)
    ensures !Noted(StateAt(owner, s, events, end, a), n, key) && Noted(StateAt(owner, s, events, end, a + 1), n, key)
  {
    hide Apply, Shaped, NodesOk, FlightOk, Run, ForwardedBy, StateAt, Enabled, Noted, Bounded;
    StateIsSafe(owner, s, events, end, a);
    ForwardIsNoted(owner, StateAt(owner, s, events, end, a), events[a], n, key);
    StateNext(owner, s, events, end, a);
  }

  /**
   Forwarding once, over every run: if a router forwards the same LSU at two deliveries, it has timed
   out the origin in between.
   */
  lemma ForwardsOnce(owner: map<Ip, RouterId>, s: Network, events: seq<Event>, end: Network,
                     a: nat, b: nat, n: RouterId, key: (RouterId, nat))
    requires Safe(s) && Run(owner, s, events, end) && Bounded(end) && a < b < |events|
    requires ForwardedBy(owner, StateAt(owner, s, events, end, a), events[a], n, key)
    requires ForwardedBy(owner, StateAt(owner, s, events, end, b), events[b], n, key)
    ensures exists k :: a < k < b && TimesOut(events[k], n, key.0)
  {
    hide Shaped, NodesOk, FlightOk, TimesOut, Run, ForwardedBy, StateAt, Enabled, Apply, Bounded, Noted;
    ForwardAt(owner, s, events, end, a, n, key);
    ForwardAt(owner, s, events, end, b, n, key);
    if forall k :: a + 1 <= k < b ==> !TimesOut(events[k], n, key.0) {
      RunRemembers(owner, s, events, end, a + 1, b, n, key);
      assert false;
    }
  }

  // ---------------------------------------------------------------- byte-swapped ids

  /** The router whose id is `o` with its bytes swapped does not know `o`. */
  predicate Stranger(s: Network, o: RouterId) {
    Swapped(o) in s.nodes ==> Lookup(s.nodes[Swapped(o)].db, o).None?
  }

  lemma StoreKeepsStranger(n: Node, m: Lsu, o: RouterId)
    requires UniqueIds(n.db) && n.rid == Swapped(o) && Lookup(n.db, o).None?
    ensures Lookup(Store(n, m).db, o).None?
  {
    hide Swapped, Reconciled, Changed, Put;
    var was := Lookup(n.db, m.origin);
    PutLookup(n.db, Record(m.origin, m.seqNo, Reconciled(if was.Some? then was.value.links else [], m.advs)), o);
  }

  lemma OriginateKeepsStranger(s: Network, n: RouterId, o: RouterId)
    requires Shaped(s) && n in s.nodes && Stranger(s, o) && Swapped(o) != o
    ensures Stranger(OriginateAt(s, n), o)
  {
    hide Swapped, Put, Broadcast, Ads, AdvSet, UniqueIds, Lookup;
    OwnRecord(s, n);
    var own := Own(s.nodes[n]).value;
    PutLookup(s.nodes[n].db, own.(seqNo := (own.seqNo + 1) % WORD), o);
  }

  lemma DeliverKeepsStranger(s: Network, i: nat, n: RouterId, o: RouterId)
    requires Shaped(s) && i < |s.flight| && n in s.nodes && Stranger(s, o)
    ensures Stranger(DeliverAt(s, i, n), o)
  {
    hide Swapped, Store, Forwards, Done, UniqueIds, Lookup;
    OwnRecord(s, n);
    if n == Swapped(o) {
      StoreKeepsStranger(s.nodes[n], s.flight[i].packet.lsu, o);
    }
  }

  lemma RelinkKeepsStranger(s: Network, n: RouterId, ifaces: seq<Iface>, links: seq<Link>, o: RouterId)
    requires Shaped(s) && n in s.nodes && Stranger(s, o) && Swapped(o) != o
    ensures Stranger(RelinkAt(s, n, ifaces, links), o)
  {
    hide Swapped, Put, UniqueIds, Lookup;
    OwnRecord(s, n);
    SameOwn(s.nodes[n], ifaces);
    PutLookup(s.nodes[n].db, Own(s.nodes[n]).value.(links := links), o);
  }

  lemma ExpireKeepsStranger(s: Network, n: RouterId, stale: set<RouterId>, o: RouterId)
    requires Shaped(s) && n in s.nodes && n !in stale && Stranger(s, o)
    ensures Stranger(ExpireAt(s, n, stale), o)
  {
    hide Swapped, Without, UniqueIds, Lookup;
    OwnRecord(s, n);
    WithoutLookup(s.nodes[n].db, stale, o);
  }

  lemma StepKeepsStranger(owner: map<Ip, RouterId>, s: Network, e: Event, o: RouterId)
    requires Shaped(s) && Enabled(owner, s, e) && Stranger(s, o) && Swapped(o) != o
    ensures Stranger(Apply(owner, s, e), o)
  {
    hide Stranger, ListOk, Store, DeliverAt, OriginateAt, RelinkAt, ExpireAt, MaskedLinks;
    match e
    case Deliver(i) =>
      var n := owner[s.flight[i].packet.dst];
      DeliverKeepsStranger(s, i, n, o);
      OriginateKeepsStranger(DeliverAt(s, i, n), n, o);
    case Lose(i) => SameNodes(s, Drop(s.flight, i), o);
    case Duplicate(i) => SameNodes(s, s.flight + [s.flight[i]], o);
    case Refresh(n) => OriginateKeepsStranger(s, n, o);
    case Relink(n, ifaces, links) =>
      RelinkKeepsStranger(s, n, ifaces, links, o);
      OriginateKeepsStranger(RelinkAt(s, n, ifaces, links), n, o);
    case Expire(n, stale) =>
      ExpireKeepsStranger(s, n, stale, o);
      OriginateKeepsStranger(ExpireAt(s, n, stale), n, o);
  }

  lemma SameNodes(s: Network, flight: seq<Flight>, o: RouterId)
    ensures Stranger(s.(flight := flight), o) == Stranger(s, o)
  {
  }

  lemma {:induction false} RunKeepsStranger(owner: map<Ip, RouterId>, s: Network, events: seq<Event>, end: Network, o: RouterId)
    requires Shaped(s) && Run(owner, s, events, end) && Stranger(s, o) && Swapped(o) != o
    ensures end.nodes.Keys == s.nodes.Keys && Stranger(end, o)
    decreases |events|
  {
    hide Stranger, Apply, ListOk, Swapped, Enabled;
    if events != [] {
      StepKeepsStranger(owner, s, events[0], o);
      RunKeepsStranger(owner, Apply(owner, s, events[0]), events[1..], end, o);
    }
  }

  /**
   In every run, with loss, time-outs and changing links: a router never learns of the one whose id,
   with its bytes swapped, is its own.
   */
  lemma SwappedIdsNeverMeet(owner: map<Ip, RouterId>, s: Network, events: seq<Event>, end: Network, o: RouterId)
    requires Initial(s) && Run(owner, s, events, end) && Swapped(o) in s.nodes && Swapped(o) != o
    ensures Swapped(o) in end.nodes && Lookup(end.nodes[Swapped(o)].db, o).None?
  {
    hide Swapped, Run, ListOk, MaskedLinks;
    assert Lookup(s.nodes[Swapped(o)].db, o).None?;
    RunKeepsStranger(owner, s, events, end, o);
  }
}
