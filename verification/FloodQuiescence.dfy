/**
 Flooding stops. While links are fixed and nothing stale is in flight, every delivery lowers a
 potential, although a database that changes makes its router flood an LSU of its own. Together
 with convergence: the network falls silent after a bounded number of deliveries, and then every
 router that flooding can reach holds the present links of every router that has spoken.
 */
module FloodQuiescence {
  import opened Net
  import opened LinkDatabase
  import opened Pwospf
  import opened Flood
  import opened FloodConvergence

  /** What router `o` would advertise now. */
  function Present(s: Network, o: RouterId): set<Adv>
    requires o in s.nodes && Own(s.nodes[o]).Some?
  {
    LinkSet(Own(s.nodes[o]).value.links)
  }

  /** Router `n` has the present links of `o`. */
  ghost predicate Right(s: Network, n: RouterId, o: RouterId)
    requires Shaped(s) && n in s.nodes && o in s.nodes
  {
    OwnRecord(s, o);
    var r := Lookup(s.nodes[n].db, o);
    r.Some? && LinkSet(r.value.links) == Present(s, o)
  }

  /** The (router, origin) entries that are missing or out of date. */
  ghost function Wrong(s: Network): set<(RouterId, RouterId)>
    requires Shaped(s)
  {
    set n, o | n in s.nodes && o in s.nodes && n != o && !Right(s, n, o) :: (n, o)
  }

  /** No LSU in flight is stale, no router is without links, and no router has more than `d` neighbours. */
  ghost predicate Calm(s: Network, d: nat)
    requires Shaped(s)
  {
    && (forall f :: f in s.flight ==> Timely(s, f.packet.lsu))
    && (forall n :: n in s.nodes ==> Degree(s.nodes[n].ifaces) <= d)
    && (forall n :: n in s.nodes ==> HasLinks(s.nodes[n]))
  }

  ghost predicate Timely(s: Network, m: Lsu)
    requires Shaped(s)
  {
    m.origin in s.nodes && (OwnRecord(s, m.origin); AdvSet(m.advs) == Present(s, m.origin))
  }

  predicate HasLinks(n: Node) {
    Own(n).Some? && Own(n).value.links != []
  }

  /** Even if every wrong entry made its router originate once, no counter would wrap. */
  ghost predicate Room(s: Network)
    requires Shaped(s)
  {
    forall n :: n in s.sent ==> |s.sent[n]| + |Wrong(s)| < WORD
  }

  function Power(b: nat, k: nat): (p: nat)
    ensures b > 0 ==> p > 0
  {
    if k == 0 then 1 else b * Power(b, k - 1)
  }

  function Weight(d: nat, fs: seq<Flight>): nat {
    if fs == [] then 0 else Weight(d, fs[..|fs| - 1]) + Power(d + 1, fs[|fs| - 1].packet.lsu.ttl)
  }

  /** What one LSU of one's own can put in flight. */
  function Burst(d: nat): nat {
    d * Power(d + 1, MAX_TTL)
  }

  ghost function Potential(d: nat, s: Network): nat
    requires Shaped(s)
  {
    hide Wrong, Burst, Weight;
    |Wrong(s)| * Burst(d) + Weight(d, s.flight)
  }

  // ---------------------------------------------------------------- weights

  lemma {:induction false} WeightConcat(d: nat, a: seq<Flight>, b: seq<Flight>)
    ensures Weight(d, a + b) == Weight(d, a) + Weight(d, b)
    decreases |b|
  {
    if b == [] {
      assert a + b == a;
    } else {
      var init := b[..|b| - 1];
      assert (a + b)[..|a + b| - 1] == a + init;
      WeightConcat(d, a, init);
    }
  }

  lemma WeightDrop(d: nat, fs: seq<Flight>, i: nat)
    requires i < |fs|
    ensures Weight(d, fs) == Weight(d, Drop(fs, i)) + Power(d + 1, fs[i].packet.lsu.ttl)
  {
    assert fs == fs[..i] + ([fs[i]] + fs[i + 1..]);
    WeightConcat(d, fs[..i], [fs[i]] + fs[i + 1..]);
    WeightConcat(d, [fs[i]], fs[i + 1..]);
    WeightConcat(d, fs[..i], fs[i + 1..]);
    assert [fs[i]][..0] == [];
  }

  lemma {:induction false} WeightUniform(d: nat, fs: seq<Flight>, ttl: nat)
    requires forall f :: f in fs ==> f.packet.lsu.ttl == ttl
    ensures Weight(d, fs) == |fs| * Power(d + 1, ttl)
  {
    if fs != [] {
      var init := fs[..|fs| - 1];
      WeightUniform(d, init, ttl);
      assert fs[|fs| - 1] in fs;
      assert |fs| * Power(d + 1, ttl) == |init| * Power(d + 1, ttl) + Power(d + 1, ttl);
    }
  }

  lemma ScaleMonotone(a: nat, b: nat, c: nat)
    requires a <= b
    ensures a * c <= b * c
  {
    assert b * c == a * c + (b - a) * c;
  }

  lemma FlyWeight(d: nat, ifaces: seq<Iface>, lsu: Lsu, exclude: Option<Ip>, path: seq<RouterId>)
    requires Degree(ifaces) <= d
    ensures Weight(d, Fly(Broadcast(ifaces, lsu, exclude), path)) <= d * Power(d + 1, lsu.ttl)
  {
    hide Weight, Power, Broadcast, Degree, Neighbour;
    var ps := Broadcast(ifaces, lsu, exclude);
    BroadcastLength(ifaces, lsu, exclude);
    BroadcastMembers(ifaces, lsu, exclude);
    forall f | f in Fly(ps, path) ensures f.packet.lsu.ttl == lsu.ttl {
      var k :| 0 <= k < |ps| && Fly(ps, path)[k] == f;
      assert ps[k] in ps;
    }
    WeightUniform(d, Fly(ps, path), lsu.ttl);
    ScaleMonotone(|ps|, d, Power(d + 1, lsu.ttl));
  }

  /** A delivery, without the receiver's own LSU, lowers the weight: d copies weigh less than one original. */
  lemma DeliverWeight(d: nat, s: Network, i: nat, n: RouterId)
    requires Shaped(s) && i < |s.flight| && n in s.nodes && Degree(s.nodes[n].ifaces) <= d
    requires s.flight[i].packet.lsu.ttl >= 1
    ensures Weight(d, DeliverAt(s, i, n).flight) < Weight(d, s.flight)
  {
    hide ListOk, Store, Degree, Done, Weight;
    var f := s.flight[i];
    var out := Forwards(s.nodes[n], f.packet);
    WeightConcat(d, Drop(s.flight, i), Fly(out, f.path + [n]));
    WeightDrop(d, s.flight, i);
    if out == [] {
      EmptyWeight(d, Fly(out, f.path + [n]));
    } else {
      FlyWeight(d, s.nodes[n].ifaces, f.packet.lsu.(ttl := f.packet.lsu.ttl - 1), Some(f.packet.src), f.path + [n]);
      PowerStep(d, f.packet.lsu.ttl);
    }
  }

  lemma EmptyWeight(d: nat, fs: seq<Flight>)
    requires |fs| == 0
    ensures Weight(d, fs) == 0
  {
  }

  lemma PowerStep(d: nat, ttl: nat)
    requires ttl >= 1
    ensures d * Power(d + 1, ttl - 1) < Power(d + 1, ttl)
  {
    var p := Power(d + 1, ttl - 1);
    assert Power(d + 1, ttl) == (d + 1) * p == d * p + p;
  }

  lemma OriginateWeight(d: nat, s: Network, n: RouterId)
    requires Shaped(s) && n in s.nodes && Degree(s.nodes[n].ifaces) <= d
    ensures Weight(d, OriginateAt(s, n).flight) <= Weight(d, s.flight) + Burst(d)
  {
    hide ListOk, Own, UniqueIds, Weight, Power, Degree, AdvSet;
    OwnRecord(s, n);
    var own := Own(s.nodes[n]).value;
    var more := Fly(Broadcast(s.nodes[n].ifaces, OwnLsu(own), None), [n]);
    WeightConcat(d, s.flight, more);
    FlyWeight(d, s.nodes[n].ifaces, OwnLsu(own), None, [n]);
  }

  // ---------------------------------------------------------------- entries

  /** Storing leaves every entry but the origin's, and the flag says whether that one was wrong. */
  lemma StoreLinks(n: Node, m: Lsu, o: RouterId)
    requires UniqueIds(n.db) && PreMasked(m.advs) && AdvSet(m.advs) != {}
    ensures var u := Store(n, m);
            var was, now := Lookup(n.db, o), Lookup(u.db, o);
            && (o != m.origin || !u.newer ==> now == was)
            && (o == m.origin && u.newer ==> now.Some? && LinkSet(now.value.links) == AdvSet(m.advs))
            && (o == m.origin && u.newer ==>
                 (u.changed <==> !(was.Some? && LinkSet(was.value.links) == AdvSet(m.advs))))
            && (u.changed ==> u.newer)
  {
    var was := Lookup(n.db, m.origin);
    var links := if was.Some? then was.value.links else [];
    ReconciledIsAdvertised(links, m.advs);
    PutLookup(n.db, Record(m.origin, m.seqNo, Reconciled(links, m.advs)), o);
    if links != [] {
      ChangedExactly(links, m.advs);
    } else {
      assert LinkSet(links) == {};
    }
  }

  lemma NonEmptyAds(links: seq<Link>)
    requires links != []
    ensures LinkSet(links) != {}
  {
    assert links[0].Ad() in LinkSet(links);
  }

  /** A timely LSU is masked, and not empty. */
  lemma TimelyLsu(s: Network, d: nat, i: nat)
    requires Safe(s) && Calm(s, d) && i < |s.flight|
    ensures var m := s.flight[i].packet.lsu;
            && PreMasked(m.advs) && AdvSet(m.advs) != {} && m.ttl >= 1
            && m.origin in s.nodes && (OwnRecord(s, m.origin); AdvSet(m.advs) == Present(s, m.origin))
  {
    hide NodesOk, ListOk, Own, UniqueIds;
    var f := s.flight[i];
    assert f in s.flight && LsuOk(s.sent, f.packet.lsu) && Timely(s, f.packet.lsu);
    OwnRecord(s, f.packet.lsu.origin);
    assert HasLinks(s.nodes[f.packet.lsu.origin]);
    NonEmptyAds(Own(s.nodes[f.packet.lsu.origin]).value.links);
  }

  /** Nobody's own links change when an LSU is delivered. */
  lemma DeliverPresent(s: Network, i: nat, n: RouterId, o: RouterId)
    requires Shaped(s) && i < |s.flight| && n in s.nodes && o in s.nodes
    ensures Own(DeliverAt(s, i, n).nodes[o]) == Own(s.nodes[o])
  {
    hide ListOk, Store, Done, Forwards, Lookup;
    StoreOwn(s.nodes[n], s.flight[i].packet.lsu);
  }

  lemma StoreOwn(n: Node, m: Lsu)
    ensures Own(n.(db := Store(n, m).db)) == Own(n)
  {
    var was := Lookup(n.db, m.origin);
    var r := Record(m.origin, m.seqNo, Reconciled(if was.Some? then was.value.links else [], m.advs));
    if m.origin != n.rid {
      PutOther(n.db, r, n.rid);
    }
  }

  lemma PutOther(db: seq<Record>, r: Record, rid: RouterId)
    requires r.rid != rid
    ensures Lookup(Put(db, r), rid) == Lookup(db, rid)
  {
    var i, k, k' := IndexOf(db, r.rid), IndexOf(db, rid), IndexOf(Put(db, r), rid);
    var db' := Put(db, r);
    assert forall j :: 0 <= j < |db| && j != i ==> db'[j] == db[j];
    assert i < |db'| && db'[i] == r;
    if k < |db| {
      assert db'[k] == db[k];
    }
    if k' < |db'| {
      assert k' < |db| && db[k'] == db'[k'];
    }
  }

  lemma DeliverRight(s: Network, d: nat, i: nat, n: RouterId, x: RouterId, o: RouterId)
    requires Safe(s) && Calm(s, d) && i < |s.flight| && n in s.nodes && x in s.nodes && o in s.nodes && x != o
    ensures var u, m := Store(s.nodes[n], s.flight[i].packet.lsu), s.flight[i].packet.lsu;
            && Right(DeliverAt(s, i, n), x, o) == (Right(s, x, o) || (u.newer && x == n && o == m.origin))
            && (u.newer && x == n && o == m.origin ==> (u.changed <==> !Right(s, x, o)))
            && (u.changed ==> u.newer && m.origin in s.nodes && m.origin != n)
  {
    hide NodesOk, FlightOk, ListOk, Store, Own, UniqueIds, Done, Forwards, Lookup, LinkSet, PreMasked, AdvSet;
    TimelyLsu(s, d, i);
    OwnRecord(s, n);
    OwnRecord(s, o);
    DeliverPresent(s, i, n, o);
    StoreLinks(s.nodes[n], s.flight[i].packet.lsu, o);
    StoreAccepts(s.nodes[n], s.flight[i].packet.lsu);
  }

  lemma StoreAccepts(n: Node, m: Lsu)
    ensures Store(n, m).changed ==> Store(n, m).newer
    ensures Store(n, m).newer ==> m.origin != n.rid
  {
  }

  /** A delivery mends the receiver's entry if its flag is set, and otherwise changes no entry. */
  lemma DeliverWrong(s: Network, d: nat, i: nat, n: RouterId)
    requires Safe(s) && Calm(s, d) && i < |s.flight| && n in s.nodes
    ensures var u := Store(s.nodes[n], s.flight[i].packet.lsu);
            |Wrong(DeliverAt(s, i, n))| == |Wrong(s)| - if u.changed then 1 else 0
  {
    hide NodesOk, FlightOk, ListOk, Store, Right, DeliverAt, Timely, Calm;
    var s', u, o := DeliverAt(s, i, n), Store(s.nodes[n], s.flight[i].packet.lsu), s.flight[i].packet.lsu.origin;
    TimelyLsu(s, d, i);
    forall x, y | x in s.nodes && y in s.nodes && x != y
      ensures Right(s', x, y) == (Right(s, x, y) || (u.newer && x == n && y == o))
      ensures u.newer && x == n && y == o ==> (u.changed <==> !Right(s, x, y))
    {
      DeliverRight(s, d, i, n, x, y);
    }
    StoreAccepts(s.nodes[n], s.flight[i].packet.lsu);
    if u.changed {
      assert (n, o) in Wrong(s);
      assert Wrong(s') == Wrong(s) - {(n, o)};
    } else {
      assert Wrong(s') == Wrong(s);
    }
  }

  lemma OriginateOwn(s: Network, n: RouterId, o: RouterId)
    requires Shaped(s) && n in s.nodes && o in s.nodes
    ensures Own(s.nodes[o]).Some? && Own(OriginateAt(s, n).nodes[o]).Some?
    ensures Own(OriginateAt(s, n).nodes[o]).value.links == Own(s.nodes[o]).value.links
  {
    hide ListOk, Own, UniqueIds, Put, Broadcast, AdvSet, Ads;
    OwnRecord(s, o);
    OwnRecord(s, n);
    OwnRecord(OriginateAt(s, n), o);
    BumpedOwn(s.nodes[n], Own(s.nodes[n]).value);
  }

  lemma BumpedOwn(n: Node, own: Record)
    requires UniqueIds(n.db) && Own(n) == Some(own)
    ensures Own(Bumped(n, own)).Some? && Own(Bumped(n, own)).value.links == own.links
  {
    PutLookup(n.db, own.(seqNo := (own.seqNo + 1) % WORD), n.rid);
  }

  lemma OriginateEntry(s: Network, n: RouterId, x: RouterId, o: RouterId)
    requires Shaped(s) && n in s.nodes && x in s.nodes && x != o
    ensures Lookup(OriginateAt(s, n).nodes[x].db, o) == Lookup(s.nodes[x].db, o)
  {
    hide ListOk, Own, UniqueIds, Put, Broadcast, AdvSet, Ads, Lookup;
    OwnRecord(s, n);
    if x == n {
      var own := Own(s.nodes[n]).value;
      PutOther(s.nodes[n].db, own.(seqNo := (own.seqNo + 1) % WORD), o);
    }
  }

  lemma OriginateWrong(s: Network, n: RouterId)
    requires Shaped(s) && n in s.nodes
    ensures Wrong(OriginateAt(s, n)) == Wrong(s)
  {
    hide ListOk, Own, UniqueIds, OriginateAt, Lookup, LinkSet;
    forall x, o | x in s.nodes && o in s.nodes && x != o
      ensures Right(OriginateAt(s, n), x, o) == Right(s, x, o)
    {
      OwnRecord(s, o);
      OwnRecord(OriginateAt(s, n), o);
      OriginateOwn(s, n, o);
      OriginateEntry(s, n, x, o);
    }
  }

  // ---------------------------------------------------------------- calm is kept

  lemma DeliverIsCalm(s: Network, d: nat, i: nat, n: RouterId)
    requires Safe(s) && Calm(s, d) && i < |s.flight| && n in s.nodes
    ensures Calm(DeliverAt(s, i, n), d)
  {
    hide NodesOk, FlightOk, ListOk, Own, UniqueIds, Store, Done, Forwards, Degree, AdvSet, LinkSet;
    var s' := DeliverAt(s, i, n);
    forall o | o in s.nodes ensures Own(s'.nodes[o]) == Own(s.nodes[o]) { DeliverPresent(s, i, n, o); }
    forall g | g in s'.flight
      ensures Timely(s', g.packet.lsu)
    {
      if g in Drop(s.flight, i) {
        assert g in s.flight && Timely(s, g.packet.lsu);
      } else {
        ForwardedLsu(s, i, n, g);
        assert s.flight[i] in s.flight && Timely(s, s.flight[i].packet.lsu);
      }
      OwnRecord(s, g.packet.lsu.origin);
      OwnRecord(s', g.packet.lsu.origin);
    }
    assert forall x :: x in s'.nodes ==> s'.nodes[x].ifaces == s.nodes[x].ifaces;
  }

  lemma OwnLsuTimely(s: Network, n: RouterId)
    requires Safe(s) && n in s.nodes
    ensures Own(s.nodes[n]).Some? && AdvSet(OwnLsu(Own(s.nodes[n]).value).advs) == Present(s, n)
  {
    OwnRecord(s, n);
    assert NodeOk(s.sent, s.nodes[n]);
    AdsOfMasked(Own(s.nodes[n]).value.links);
  }

  lemma OriginateIsCalm(s: Network, d: nat, n: RouterId)
    requires Safe(s) && Calm(s, d) && n in s.nodes
    ensures Calm(OriginateAt(s, n), d)
  {
    hide NodesOk, FlightOk, ListOk, Own, UniqueIds, OriginateAt, Degree, AdvSet, LinkSet, Neighbour;
    var s' := OriginateAt(s, n);
    forall x | x in s.nodes
      ensures Own(s'.nodes[x]).Some? && Own(s.nodes[x]).Some?
      ensures Own(s'.nodes[x]).value.links == Own(s.nodes[x]).value.links
      ensures s'.nodes[x].ifaces == s.nodes[x].ifaces
    {
      OwnRecord(s, x);
      OwnRecord(s', x);
      OriginateOwn(s, n, x);
      OriginateIfaces(s, n, x);
    }
    forall g | g in s'.flight
      ensures Timely(s', g.packet.lsu)
    {
      if g in s.flight {
        assert Timely(s, g.packet.lsu);
      } else {
        OriginatedLsu(s, n, g);
        OwnRecord(s, n);
        OwnLsuTimely(s, n);
      }
    }
    forall x | x in s'.nodes ensures HasLinks(s'.nodes[x]) { assert HasLinks(s.nodes[x]); }
  }

  lemma OriginateIfaces(s: Network, n: RouterId, x: RouterId)
    requires Shaped(s) && n in s.nodes && x in s.nodes
    ensures OriginateAt(s, n).nodes[x].ifaces == s.nodes[x].ifaces
  {
    hide ListOk, Own, UniqueIds, Put, Broadcast, AdvSet, Ads;
  }

  // ---------------------------------------------------------------- the potential

  /** The pair (wrong entries, weight in flight) goes down in its lexicographic order. */
  ghost predicate Lower(d: nat, s': Network, s: Network)
    requires Shaped(s') && Shaped(s)
  {
    || |Wrong(s')| < |Wrong(s)|
    || (|Wrong(s')| == |Wrong(s)| && Weight(d, s'.flight) < Weight(d, s.flight))
  }

  /**
   Every delivery lowers the pair, and with it the number that bounds how long this can go on; and it
   keeps what the argument rests on.
   */
  lemma DeliveryLowersPotential(owner: map<Ip, RouterId>, s: Network, d: nat, i: nat)
    requires Safe(s) && Calm(s, d) && Room(s) && Enabled(owner, s, Deliver(i))
    ensures var s' := Apply(owner, s, Deliver(i));
            && Safe(s') && Calm(s', d) && Room(s')
            && Lower(d, s', s) && Potential(d, s') < Potential(d, s)
  {
    hide NodesOk, FlightOk, ListOk, Calm, Wrong, Weight, Burst, Apply;
    DeliveryIsCalm(owner, s, d, i);
    DeliveryNumbers(owner, s, d, i);
    var s' := Apply(owner, s, Deliver(i));
    Falls(|Wrong(s)|, |Wrong(s')|, Weight(d, s.flight), Weight(d, s'.flight), Burst(d));
  }

  lemma Falls(entries: nat, entries': nat, weight: nat, weight': nat, burst: nat)
    requires (entries' == entries && weight' < weight) || (entries' == entries - 1 && weight' < weight + burst)
    ensures entries' * burst + weight' < entries * burst + weight
  {
    if entries' == entries - 1 {
      assert entries * burst == entries' * burst + burst;
    }
  }

  lemma DeliveryIsCalm(owner: map<Ip, RouterId>, s: Network, d: nat, i: nat)
    requires Safe(s) && Calm(s, d) && Room(s) && Enabled(owner, s, Deliver(i))
    ensures var s' := Apply(owner, s, Deliver(i)); Safe(s') && Calm(s', d) && Room(s')
  {
    hide NodesOk, FlightOk, ListOk, Calm, Wrong, Store, DeliverAt, OriginateAt;
    var n := owner[s.flight[i].packet.dst];
    var mid := DeliverAt(s, i, n);
    DeliverIsSafe(s, i, n);
    DeliverIsCalm(s, d, i, n);
    DeliverWrong(s, d, i, n);
    if Store(s.nodes[n], s.flight[i].packet.lsu).changed {
      OriginateIsSafe(mid, n);
      OriginateIsCalm(mid, d, n);
      OriginateWrong(mid, n);
      OriginateOthers(mid, n);
    }
  }

  /** Either a wrong entry is mended, at the cost of one burst, or the weight in flight goes down. */
  lemma DeliveryNumbers(owner: map<Ip, RouterId>, s: Network, d: nat, i: nat)
    requires Safe(s) && Calm(s, d) && Enabled(owner, s, Deliver(i))
    ensures var s' := Apply(owner, s, Deliver(i));
            || (|Wrong(s')| == |Wrong(s)| && Weight(d, s'.flight) < Weight(d, s.flight))
            || (|Wrong(s')| == |Wrong(s)| - 1 && Weight(d, s'.flight) < Weight(d, s.flight) + Burst(d))
  {
    hide NodesOk, FlightOk, ListOk, Calm, Wrong, Weight, Burst, Store, DeliverAt, OriginateAt, Degree;
    var n := owner[s.flight[i].packet.dst];
    var mid := DeliverAt(s, i, n);
    TimelyLsu(s, d, i);
    CalmDegree(s, d, n);
    DeliverIsCalm(s, d, i, n);
    DeliverWeight(d, s, i, n);
    DeliverWrong(s, d, i, n);
    if Store(s.nodes[n], s.flight[i].packet.lsu).changed {
      CalmDegree(mid, d, n);
      OriginateWeight(d, mid, n);
      OriginateWrong(mid, n);
    }
  }

  lemma CalmDegree(s: Network, d: nat, n: RouterId)
    requires Shaped(s) && Calm(s, d) && n in s.nodes
    ensures Degree(s.nodes[n].ifaces) <= d
  {
  }

  /** A run of deliveries. */
  ghost predicate Deliveries(owner: map<Ip, RouterId>, s: Network, events: seq<Event>, end: Network)
    requires Shaped(s)
    decreases |events|
  {
    if events == [] then
      s == end
    else
      events[0].Deliver? && Enabled(owner, s, events[0]) &&
      Deliveries(owner, Apply(owner, s, events[0]), events[1..], end)
  }

  /** Quiescence: no run of deliveries is longer than the potential it starts from. */
  lemma {:induction false} DeliveriesAreBounded(owner: map<Ip, RouterId>, s: Network, d: nat, events: seq<Event>, end: Network)
    requires Safe(s) && Calm(s, d) && Room(s) && Deliveries(owner, s, events, end)
    ensures Safe(end) && Calm(end, d) && Room(end)
    ensures |events| + Potential(d, end) <= Potential(d, s)
    decreases |events|
  {
    hide NodesOk, FlightOk, ListOk, Calm, Potential, Room, Apply;
    if events != [] {
      DeliveryLowersPotential(owner, s, d, events[0].i);
      DeliveriesAreBounded(owner, Apply(owner, s, events[0]), d, events[1..], end);
    }
  }

  lemma RoomIsBounded(s: Network)
    requires Shaped(s) && Room(s)
    ensures Bounded(s)
  {
    hide Wrong, ListOk;
  }

  lemma {:induction false} DeliveriesFlood(owner: map<Ip, RouterId>, topo: Topology, s: Network, d: nat,
                                           events: seq<Event>, end: Network)
    requires Flooding(owner, topo, s) && Calm(s, d) && Room(s) && SpokeLast(s) && Deliveries(owner, s, events, end)
    ensures Flooding(owner, topo, end) && SpokeLast(end)
    decreases |events|
  {
    hide PathsOk, AllCovered, KnownAreWithin, NodesOk, FlightOk, ListOk, Calm, Potential, Room, Apply, SpokeLast;
    if events != [] {
      var next := Apply(owner, s, events[0]);
      DeliveryLowersPotential(owner, s, d, events[0].i);
      RoomIsBounded(next);
      StepFloods(owner, topo, s, events[0]);
      DeliveryStepSpoke(owner, s, d, events[0].i);
      DeliveriesFlood(owner, topo, next, d, events[1..], end);
    }
  }

  lemma PacketsAreDeliverable(owner: map<Ip, RouterId>, topo: Topology, s: Network)
    requires Flooding(owner, topo, s) && s.flight != []
    ensures Enabled(owner, s, Deliver(0))
  {
    hide NodesOk, FlightOk, ListOk, AllCovered, KnownAreWithin, Neighbour, Has, Adjacent;
    assert s.flight[0] in s.flight && PathOk(owner, topo, s, s.flight[0]);
  }

  /** What the last LSU of `o` says is what `o` would say now. */
  ghost predicate SpokeLast(s: Network)
    requires Shaped(s)
  {
    forall o :: o in s.nodes && s.sent[o] != [] ==>
      (OwnRecord(s, o); s.sent[o][|s.sent[o]| - 1] == Present(s, o))
  }

  lemma DeliverSpoke(s: Network, i: nat, n: RouterId)
    requires Shaped(s) && i < |s.flight| && n in s.nodes && SpokeLast(s)
    ensures SpokeLast(DeliverAt(s, i, n))
  {
    hide ListOk, Own, UniqueIds, DeliverAt, LinkSet;
    forall o | o in s.nodes
      ensures Own(s.nodes[o]).Some? && Own(DeliverAt(s, i, n).nodes[o]) == Own(s.nodes[o])
    {
      OwnRecord(s, o);
      DeliverPresent(s, i, n, o);
    }
  }

  lemma OriginateSent(s: Network, n: RouterId, o: RouterId)
    requires Safe(s) && n in s.nodes && o in s.nodes
    ensures Own(s.nodes[n]).Some?
    ensures OriginateAt(s, n).sent[o] ==
            if o == n then s.sent[n] + [LinkSet(Own(s.nodes[n]).value.links)] else s.sent[o]
  {
    OwnRecord(s, n);
    assert NodeOk(s.sent, s.nodes[n]);
    AdsOfMasked(Own(s.nodes[n]).value.links);
  }

  lemma OriginateSpoke(s: Network, n: RouterId)
    requires Safe(s) && n in s.nodes && SpokeLast(s)
    ensures SpokeLast(OriginateAt(s, n))
  {
    hide NodesOk, FlightOk, ListOk, Own, UniqueIds, OriginateAt, LinkSet;
    forall o | o in s.nodes && OriginateAt(s, n).sent[o] != []
      ensures Own(OriginateAt(s, n).nodes[o]).Some?
      ensures OriginateAt(s, n).sent[o][|OriginateAt(s, n).sent[o]| - 1] == Present(OriginateAt(s, n), o)
    {
      OwnRecord(s, o);
      OriginateOwn(s, n, o);
      OriginateSent(s, n, o);
    }
  }

  lemma DeliveryStepSpoke(owner: map<Ip, RouterId>, s: Network, d: nat, i: nat)
    requires Safe(s) && Enabled(owner, s, Deliver(i)) && SpokeLast(s)
    ensures SpokeLast(Apply(owner, s, Deliver(i)))
  {
    hide NodesOk, FlightOk, ListOk, Own, UniqueIds, DeliverAt, OriginateAt, Store, SpokeLast;
    var n := owner[s.flight[i].packet.dst];
    DeliverSpoke(s, i, n);
    DeliverIsSafe(s, i, n);
    OriginateSpoke(DeliverAt(s, i, n), n);
  }

  lemma QuietEntryIsRight(owner: map<Ip, RouterId>, topo: Topology, s: Network, n: RouterId, o: RouterId)
    requires Flooding(owner, topo, s) && s.flight == [] && SpokeLast(s)
    requires n in s.nodes && o in s.nodes && n != o && s.sent[o] != [] && Linked(owner, topo, o, n)
    ensures Right(s, n, o)
  {
    hide PathsOk, AllCovered, KnownAreWithin, NodesOk, FlightOk, ListOk, Linked, Lookup, LinkSet, WellWired, Own, UniqueIds;
    OwnRecord(s, o);
    QuietMeansConverged(owner, topo, s, n, o);
  }

  /**
   The network settles. From any flooding state in which nothing stale is in flight, deliveries can
   go on for at most `Potential` steps; as long as packets are in flight another delivery is possible;
   and when none are left, every router has the present links of every router that has spoken and
   that flooding can reach it from.
   */
  lemma FloodSettles(owner: map<Ip, RouterId>, topo: Topology, s: Network, d: nat, events: seq<Event>, end: Network)
    requires Flooding(owner, topo, s) && Calm(s, d) && Room(s) && SpokeLast(s) && Deliveries(owner, s, events, end)
    ensures |events| <= Potential(d, s)
    ensures Shaped(end) && (end.flight == [] || Enabled(owner, end, Deliver(0)))
    ensures end.flight == [] ==>
      forall n, o :: n in end.nodes && o in end.nodes && n != o && end.sent[o] != [] && Linked(owner, topo, o, n) ==>
        Right(end, n, o)
  {
    hide PathsOk, AllCovered, KnownAreWithin, NodesOk, FlightOk, ListOk, Calm, Potential, Room, Apply, Linked,
      Right, SpokeLast, WellWired;
    DeliveriesAreBounded(owner, s, d, events, end);
    DeliveriesFlood(owner, topo, s, d, events, end);
    if end.flight != [] {
      PacketsAreDeliverable(owner, topo, end);
    } else {
      forall n, o | n in end.nodes && o in end.nodes && n != o && end.sent[o] != [] && Linked(owner, topo, o, n)
        ensures Right(end, n, o)
      {
        QuietEntryIsRight(owner, topo, end, n, o);
      }
    }
  }

  // ---------------------------------------------------------------- cold start

  /** The routers of `ns` originate, one after the other. */
  function Announced(s: Network, ns: seq<RouterId>): (s': Network)
    requires Shaped(s) && forall i :: 0 <= i < |ns| ==> ns[i] in s.nodes
    ensures Shaped(s') && s'.nodes.Keys == s.nodes.Keys
  {
    if ns == [] then s else OriginateAt(Announced(s, ns[..|ns| - 1]), ns[|ns| - 1])
  }

  lemma {:induction false} PairsBound(a: set<RouterId>, b: set<RouterId>, pairs: set<(RouterId, RouterId)>)
    requires forall p :: p in pairs ==> p.0 in a && p.1 in b
    ensures |pairs| <= |a| * |b|
    decreases a
  {
    if a == {} {
      assert pairs == {};
    } else {
      var x :| x in a;
      var row := set p | p in pairs && p.0 == x;
      RowBound(x, b, row);
      PairsBound(a - {x}, b, pairs - row);
      Parts(pairs, row);
      OneMoreRow(|a - {x}|, |a|, |b|);
    }
  }

  lemma Parts<T>(whole: set<T>, part: set<T>)
    requires part <= whole
    ensures |whole| == |part| + |whole - part|
  {
  }

  lemma OneMoreRow(n: nat, n': nat, m: nat)
    requires n' == n + 1
    ensures n' * m == n * m + m
  {
  }

  lemma {:induction false} RowBound(x: RouterId, b: set<RouterId>, row: set<(RouterId, RouterId)>)
    requires forall p :: p in row ==> p.0 == x && p.1 in b
    ensures |row| <= |b|
    decreases row
  {
    if row != {} {
      var p :| p in row;
      RowBound(x, b - {p.1}, row - {p});
    }
  }

  lemma WrongBound(s: Network)
    requires Shaped(s)
    ensures |Wrong(s)| <= |s.nodes.Keys| * |s.nodes.Keys|
  {
    hide ListOk, Right;
    PairsBound(s.nodes.Keys, s.nodes.Keys, Wrong(s));
  }

  lemma OriginateCount(s: Network, n: RouterId, o: RouterId)
    requires Shaped(s) && n in s.nodes && o in s.nodes
    ensures o in OriginateAt(s, n).sent
    ensures |OriginateAt(s, n).sent[o]| == |s.sent[o]| + if o == n then 1 else 0
  {
  }

  /** How often each router has spoken. */
  lemma {:induction false} AnnouncedCount(s: Network, ns: seq<RouterId>, n: RouterId)
    requires Shaped(s) && (forall i :: 0 <= i < |ns| ==> ns[i] in s.nodes) && n in s.nodes && s.sent[n] == []
    ensures n in Announced(s, ns).sent
    ensures |Announced(s, ns).sent[n]| <= |ns| && (Announced(s, ns).sent[n] != [] <==> n in ns)
  {
    hide ListOk, OriginateAt;
    if ns != [] {
      var init, last := ns[..|ns| - 1], ns[|ns| - 1];
      AnnouncedCount(s, init, n);
      OriginateCount(Announced(s, init), last, n);
      assert ns == init + [last];
    }
  }

  lemma AnnouncedBounded(s: Network, ns: seq<RouterId>)
    requires Shaped(s) && (forall i :: 0 <= i < |ns| ==> ns[i] in s.nodes) && |ns| < WORD
    requires forall n :: n in s.nodes ==> s.sent[n] == []
    ensures Bounded(Announced(s, ns))
  {
    hide ListOk, Announced;
    forall n | n in Announced(s, ns).sent ensures |Announced(s, ns).sent[n]| < WORD {
      AnnouncedCount(s, ns, n);
    }
  }

  /** The state that announcing and delivering keep. */
  ghost predicate Ready(owner: map<Ip, RouterId>, topo: Topology, s: Network, d: nat) {
    Flooding(owner, topo, s) && Calm(s, d) && SpokeLast(s)
  }

  lemma OriginateIsReady(owner: map<Ip, RouterId>, topo: Topology, s: Network, d: nat, n: RouterId)
    requires Ready(owner, topo, s, d) && Shaped(s) && n in s.nodes && Bounded(OriginateAt(s, n))
    ensures Ready(owner, topo, OriginateAt(s, n), d)
  {
    hide PathsOk, AllCovered, KnownAreWithin, NodesOk, FlightOk, ListOk, Calm, SpokeLast, OriginateAt, WellWired,
      OnTopology, Bounded;
    OriginateIsCalm(s, d, n);
    OriginateSpoke(s, n);
    StepFloods(owner, topo, s, Refresh(n));
  }

  lemma {:induction false} AnnouncedIsReady(owner: map<Ip, RouterId>, topo: Topology, s: Network, d: nat, ns: seq<RouterId>)
    requires Ready(owner, topo, s, d) && Shaped(s) && |ns| < WORD && forall i :: 0 <= i < |ns| ==> ns[i] in s.nodes
    requires forall n :: n in s.nodes ==> s.sent[n] == []
    ensures Ready(owner, topo, Announced(s, ns), d)
  {
    hide Ready, ListOk, OriginateAt, Bounded;
    if ns != [] {
      AnnouncedIsReady(owner, topo, s, d, ns[..|ns| - 1]);
      AnnouncedBounded(s, ns);
      OriginateIsReady(owner, topo, Announced(s, ns[..|ns| - 1]), d, ns[|ns| - 1]);
    }
  }

  lemma InitialIsCalm(s: Network, d: nat)
    requires Initial(s)
    requires forall n :: n in s.nodes ==> Degree(s.nodes[n].ifaces) <= d && s.nodes[n].db[0].links != []
    ensures Calm(s, d) && SpokeLast(s)
  {
    hide Degree, MaskedLinks;
  }

  /** Every router is up, has links, and is about to announce itself. */
  ghost predicate Starting(owner: map<Ip, RouterId>, topo: Topology, s: Network, d: nat, ns: seq<RouterId>) {
    && Initial(s) && OnTopology(topo, s) && WellWired(owner, topo) && ShortChains(owner, topo)
    && (forall n :: n in s.nodes ==> Degree(s.nodes[n].ifaces) <= d && s.nodes[n].db[0].links != [])
    && (forall i :: 0 <= i < |ns| ==> ns[i] in s.nodes) && (forall n :: n in s.nodes ==> n in ns)
    && |ns| + |s.nodes| * |s.nodes| < WORD
  }

  /** Each router has the present links of every router that flooding can reach it from. */
  ghost predicate Converged(owner: map<Ip, RouterId>, topo: Topology, s: Network)
    requires Shaped(s)
  {
    forall n, o :: n in s.nodes && o in s.nodes && n != o && Linked(owner, topo, o, n) ==> Right(s, n, o)
  }

  lemma StartingShape(owner: map<Ip, RouterId>, topo: Topology, s: Network, d: nat, ns: seq<RouterId>)
    requires Starting(owner, topo, s, d, ns)
    ensures Shaped(s) && forall i :: 0 <= i < |ns| ==> ns[i] in s.nodes
    ensures (forall n :: n in s.nodes ==> n in ns) && |ns| + |s.nodes| * |s.nodes| < WORD
    ensures forall n :: n in s.nodes ==> s.sent[n] == []
  {
    hide ListOk, WellWired, Degree, OnTopology, MaskedLinks, ShortChains;
  }

  lemma StartingIsReady(owner: map<Ip, RouterId>, topo: Topology, s: Network, d: nat, ns: seq<RouterId>)
    requires Starting(owner, topo, s, d, ns)
    ensures Ready(owner, topo, s, d)
  {
    hide Flooding, Calm, SpokeLast, Degree, OnTopology, WellWired, MaskedLinks, ShortChains;
    InitialIsCalm(s, d);
    InitialFloods(owner, topo, s);
  }

  /** After the announcements every router has spoken, and no counter is near its end. */
  lemma AnnouncedRoom(s: Network, ns: seq<RouterId>)
    requires Shaped(s) && (forall i :: 0 <= i < |ns| ==> ns[i] in s.nodes) && (forall n :: n in s.nodes ==> n in ns)
    requires |ns| + |s.nodes| * |s.nodes| < WORD && forall n :: n in s.nodes ==> s.sent[n] == []
    ensures Room(Announced(s, ns))
    ensures forall n :: n in s.nodes ==> n in Announced(s, ns).sent && Announced(s, ns).sent[n] != []
  {
    hide Announced, ListOk, Wrong, Room;
    var a := Announced(s, ns);
    WrongBound(a);
    forall n | n in s.nodes ensures n in a.sent && |a.sent[n]| <= |ns| && a.sent[n] != [] {
      AnnouncedCount(s, ns, n);
    }
    RoomAfter(s, a, |ns|);
  }

  /**
   From start-up: once every router has announced itself, the flood dies out after a bounded number
   of deliveries, and then each router has the exact links of every router flooding can reach it from.
   */
  lemma ColdStartConverges(owner: map<Ip, RouterId>, topo: Topology, s: Network, d: nat, ns: seq<RouterId>,
                           events: seq<Event>, end: Network)
    requires Starting(owner, topo, s, d, ns) && Shaped(s) && forall i :: 0 <= i < |ns| ==> ns[i] in s.nodes
    requires Deliveries(owner, Announced(s, ns), events, end)
    ensures |events| <= Potential(d, Announced(s, ns))
    ensures Shaped(end) && end.nodes.Keys == s.nodes.Keys && (end.flight == [] || Enabled(owner, end, Deliver(0)))
    ensures end.flight == [] ==> Converged(owner, topo, end)
  {
    hide Flooding, Calm, SpokeLast, Announced, ListOk, Linked, Right, Potential, Starting, Room, Shaped, Deliveries, Enabled;
    StartingShape(owner, topo, s, d, ns);
    StartingIsReady(owner, topo, s, d, ns);
    AnnouncedIsReady(owner, topo, s, d, ns);
    AnnouncedRoom(s, ns);
    FloodSettles(owner, topo, Announced(s, ns), d, events, end);
    DeliveriesSent(owner, Announced(s, ns), events, end);
  }

  lemma RoomAfter(s: Network, a: Network, k: nat)
    requires Shaped(a) && a.nodes.Keys == s.nodes.Keys
    requires |Wrong(a)| <= |a.nodes.Keys| * |a.nodes.Keys| && k + |s.nodes| * |s.nodes| < WORD
    requires forall n :: n in s.nodes ==> n in a.sent && |a.sent[n]| <= k
    ensures Room(a)
  {
    hide Wrong, ListOk;
    assert |a.nodes.Keys| == |s.nodes.Keys| == |s.nodes|;
  }

  lemma {:induction false} DeliveriesSent(owner: map<Ip, RouterId>, s: Network, events: seq<Event>, end: Network)
    requires Shaped(s) && Deliveries(owner, s, events, end)
    ensures Shaped(end) && end.nodes.Keys == s.nodes.Keys
    ensures forall n :: n in s.nodes && s.sent[n] != [] ==> end.sent[n] != []
    decreases |events|
  {
    hide Apply, ListOk;
    if events != [] {
      var next := Apply(owner, s, events[0]);
      DeliveriesSent(owner, next, events[1..], end);
      StepGrows(owner, s, events[0]);
    }
  }
}
