/**
 One PWOSPF router: its link-state database and what it does with LSU packets.
 The functions give each step as a value; the class below them is the code that
 updates the router list in place, proved equal to those functions.
 */
module Pwospf {
  import opened Net
  import opened LinkDatabase

  const MAX_TTL: nat := 64
  const WORD: nat := 0x1_0000

  /** An entry of the router list (struct pwospf_router, without the shortest-path fields). */
  datatype Record = Record(rid: RouterId, seqNo: nat, links: seq<Link>)

  datatype Lsu = Lsu(origin: RouterId, seqNo: nat, ttl: nat, advs: seq<Adv>)

  /** An LSU on the wire, between two interface addresses. */
  datatype Packet = Packet(src: Ip, dst: Ip, lsu: Lsu)

  datatype Node = Node(rid: RouterId, db: seq<Record>, ifaces: seq<Iface>)

  /** The router id with its bytes reversed, as ntohl leaves it on a little-endian host. */
  function Swapped(r: RouterId): RouterId {
    r % 0x100 * 0x100_0000 + r / 0x100 % 0x100 * 0x1_0000 + r / 0x1_0000 % 0x100 * 0x100 + r / 0x100_0000
  }

  /**
   Whether router `n` looks at LSUs of `origin` at all. The validity check compares the
   byte-swapped id with ours, the LSU handler compares the id itself.
   */
  predicate Accepts(n: RouterId, origin: RouterId) {
    Swapped(origin) != n && origin != n
  }

  /** Position of the first record of `rid`, or the length of the list. */
  function IndexOf(db: seq<Record>, rid: RouterId): (i: nat)
    ensures i <= |db|
    ensures i < |db| ==> db[i].rid == rid
    ensures forall j :: 0 <= j < i ==> db[j].rid != rid
  {
    if db == [] || db[0].rid == rid then 0 else 1 + IndexOf(db[1..], rid)
  }

  function Lookup(db: seq<Record>, rid: RouterId): (r: Option<Record>)
    ensures r.Some? ==> r.value in db && r.value.rid == rid
    ensures r.None? <==> forall x :: x in db ==> x.rid != rid
  {
    var i := IndexOf(db, rid);
    if i < |db| then Some(db[i]) else None
  }

  predicate UniqueIds(db: seq<Record>) {
    forall i, j :: 0 <= i < j < |db| ==> db[i].rid != db[j].rid
  }

  /** The list with the entry of `r.rid` replaced, or with `r` appended. */
  function Put(db: seq<Record>, r: Record): seq<Record> {
    var i := IndexOf(db, r.rid);
    if i < |db| then db[i := r] else db + [r]
  }

  lemma PutLookup(db: seq<Record>, r: Record, rid: RouterId)
    requires UniqueIds(db)
    ensures UniqueIds(Put(db, r))
    ensures Lookup(Put(db, r), rid) == if rid == r.rid then Some(r) else Lookup(db, rid)
  {
    var i, db' := IndexOf(db, r.rid), Put(db, r);
    assert i < |db'| && db'[i] == r;
    assert forall j :: 0 <= j < |db| && j != i ==> db'[j] == db[j];
    var k, k' := IndexOf(db, rid), IndexOf(db', rid);
    if rid != r.rid {
      if k < |db| {
        assert db'[k] == db[k] && db'[k'].rid == db'[k].rid;
      }
    } else {
      assert db'[k'].rid == db'[i].rid;
    }
  }

  /** The records a time-out pass keeps. */
  function Without(db: seq<Record>, gone: set<RouterId>): seq<Record> {
    if db == [] then
      []
    else
      Without(db[..|db| - 1], gone) + (if db[|db| - 1].rid in gone then [] else [db[|db| - 1]])
  }

  lemma WithoutMembers(db: seq<Record>, gone: set<RouterId>)
    ensures forall x :: x in Without(db, gone) <==> x in db && x.rid !in gone
    ensures UniqueIds(db) ==> UniqueIds(Without(db, gone))
  {
    if db != [] {
      var init, last := db[..|db| - 1], db[|db| - 1];
      WithoutMembers(init, gone);
      assert db == init + [last];
      if UniqueIds(db) {
        assert forall x :: x in init ==> x.rid != last.rid;
        assert UniqueIds(init);
      }
    }
  }

  lemma WithoutLookup(db: seq<Record>, gone: set<RouterId>, rid: RouterId)
    requires UniqueIds(db)
    ensures Lookup(Without(db, gone), rid) == if rid in gone then None else Lookup(db, rid)
  {
    WithoutMembers(db, gone);
    var kept := Without(db, gone);
    var r, r' := Lookup(db, rid), Lookup(kept, rid);
    if r'.Some? {
      assert r'.value in db && r.Some?;
    }
  }

  /** Packets to every neighbour on an active interface, except the one at `exclude`. */
  function SendOn(i: Iface, nbrs: seq<Nbr>, lsu: Lsu, exclude: Option<Ip>): seq<Packet> {
    if nbrs == [] then
      []
    else
      var ip := nbrs[|nbrs| - 1].ip;
      SendOn(i, nbrs[..|nbrs| - 1], lsu, exclude) + (if exclude == Some(ip) then [] else [Packet(i.ip, ip, lsu)])
  }

  function Broadcast(ifaces: seq<Iface>, lsu: Lsu, exclude: Option<Ip>): seq<Packet> {
    if ifaces == [] then
      []
    else
      var last := ifaces[|ifaces| - 1];
      Broadcast(ifaces[..|ifaces| - 1], lsu, exclude) +
      (if last.active then SendOn(last, last.nbrs, lsu, exclude) else [])
  }

  predicate HeardAt(nbrs: seq<Nbr>, ip: Ip) {
    exists b :: b in nbrs && b.ip == ip
  }

  /** Some active interface at `ip` has a neighbour at `nbr`. */
  predicate Neighbour(ifaces: seq<Iface>, ip: Ip, nbr: Ip) {
    exists i :: i in ifaces && i.active && i.ip == ip && HeardAt(i.nbrs, nbr)
  }

  /** The advertisements of an LSU: one per entry of our own interface list. */
  function Ads(links: seq<Link>): (advs: seq<Adv>)
    ensures |advs| == |links|
    ensures forall k :: 0 <= k < |links| ==> advs[k] == links[k].Ad()
  {
    if links == [] then [] else Ads(links[..|links| - 1]) + [links[|links| - 1].Ad()]
  }

  /** The node with its own record's sequence number advanced, a 16-bit counter. */
  function Bumped(n: Node, own: Record): Node {
    n.(db := Put(n.db, own.(seqNo := (own.seqNo + 1) % WORD)))
  }

  function OwnLsu(own: Record): Lsu {
    Lsu(own.rid, own.seqNo, MAX_TTL, Ads(own.links))
  }

  /** What storing an LSU does: the new database, and whether it was newer and whether it differed. */
  datatype Update = Update(db: seq<Record>, newer: bool, changed: bool)

  function Store(n: Node, lsu: Lsu): Update {
    if !Accepts(n.rid, lsu.origin) then
      Update(n.db, false, false)
    else
      match Lookup(n.db, lsu.origin)
      case Some(r) =>
        if lsu.seqNo > r.seqNo then
          Update(Put(n.db, Record(lsu.origin, lsu.seqNo, Reconciled(r.links, lsu.advs))),
                 true, Changed(r.links, lsu.advs))
        else
          Update(n.db, false, false)
      case None =>
        Update(Put(n.db, Record(lsu.origin, lsu.seqNo, Reconciled([], lsu.advs))), true, true)
  }

  /**
   What storing does, in terms of sets: an LSU counts if it is not our own and newer than what is
   listed for its origin; the list changed if the origin was new, or had other links; and no other
   record is touched.
   */
  lemma StoreExactly(n: Node, lsu: Lsu, o: RouterId)
    requires UniqueIds(n.db)
    ensures var u, was, got := Store(n, lsu), Lookup(n.db, lsu.origin), Lookup(Store(n, lsu).db, lsu.origin);
            && (u.newer <==> Swapped(lsu.origin) != n.rid && lsu.origin != n.rid && (was.Some? ==> lsu.seqNo > was.value.seqNo))
            && (u.changed <==>
                u.newer && (was.Some? && was.value.links != [] ==> LinkSet(was.value.links) != AdvSet(lsu.advs)))
            && (!u.newer ==> u.db == n.db)
            && (u.newer ==> got.Some? && got.value.seqNo == lsu.seqNo)
            && (u.newer && PreMasked(lsu.advs) ==> LinkSet(got.value.links) == AdvSet(lsu.advs))
            && (o != lsu.origin ==> Lookup(u.db, o) == Lookup(n.db, o))
  {
    hide Reconciled, Changed, LinkSet, AdvSet, PreMasked, Put, Lookup, UniqueIds;
    var was := Lookup(n.db, lsu.origin);
    var links := if was.Some? then was.value.links else [];
    var r := Record(lsu.origin, lsu.seqNo, Reconciled(links, lsu.advs));
    PutLookup(n.db, r, o);
    PutLookup(n.db, r, lsu.origin);
    if links != [] {
      ChangedExactly(links, lsu.advs);
    } else {
      EmptyIsChanged(lsu.advs);
    }
    if PreMasked(lsu.advs) {
      ReconciledIsAdvertised(links, lsu.advs);
    }
  }

  /** The 16-bit decrement of the time-to-live. */
  function NextTtl(ttl: nat): nat {
    if ttl == 0 then WORD - 1 else ttl - 1
  }

  /** The copies of a newer LSU sent on to the other neighbours. */
  function Forwards(n: Node, p: Packet): seq<Packet> {
    if Store(n, p.lsu).newer && NextTtl(p.lsu.ttl) > 0 then
      Broadcast(n.ifaces, p.lsu.(ttl := NextTtl(p.lsu.ttl)), Some(p.src))
    else
      []
  }

  lemma SendOnMembers(i: Iface, nbrs: seq<Nbr>, lsu: Lsu, exclude: Option<Ip>)
    ensures forall p :: p in SendOn(i, nbrs, lsu, exclude) <==>
              p.src == i.ip && p.lsu == lsu && HeardAt(nbrs, p.dst) && exclude != Some(p.dst)
    ensures |SendOn(i, nbrs, lsu, exclude)| <= |nbrs|
  {
    if nbrs != [] {
      var init := nbrs[..|nbrs| - 1];
      SendOnMembers(i, init, lsu, exclude);
      assert nbrs == init + [nbrs[|nbrs| - 1]];
      assert forall ip :: HeardAt(nbrs, ip) <==> HeardAt(init, ip) || nbrs[|nbrs| - 1].ip == ip;
    }
  }

  /** A broadcast reaches exactly the neighbours other than the excluded one. */
  lemma BroadcastMembers(ifaces: seq<Iface>, lsu: Lsu, exclude: Option<Ip>)
    ensures forall p :: p in Broadcast(ifaces, lsu, exclude) <==>
              p.lsu == lsu && exclude != Some(p.dst) && Neighbour(ifaces, p.src, p.dst)
  {
    if ifaces != [] {
      var init, last := ifaces[..|ifaces| - 1], ifaces[|ifaces| - 1];
      BroadcastMembers(init, lsu, exclude);
      SendOnMembers(last, last.nbrs, lsu, exclude);
      assert ifaces == init + [last];
      forall p: Packet
        ensures Neighbour(ifaces, p.src, p.dst) <==>
                Neighbour(init, p.src, p.dst) || (last.active && last.ip == p.src && HeardAt(last.nbrs, p.dst))
      {
      }
    }
  }

  /** A newer LSU is sent on, with its 16-bit time-to-live one less, to every neighbour but its sender. */
  lemma ForwardsExactly(n: Node, p: Packet, q: Packet)
    requires p.lsu.ttl < 0x1_0000
    ensures q in Forwards(n, p) <==>
            && Store(n, p.lsu).newer && p.lsu.ttl != 1 && q.lsu == p.lsu.(ttl := (p.lsu.ttl + 0xFFFF) % 0x1_0000)
            && q.dst != p.src && Neighbour(n.ifaces, q.src, q.dst)
  {
    hide Store, Broadcast, Neighbour;
    BroadcastMembers(n.ifaces, p.lsu.(ttl := NextTtl(p.lsu.ttl)), Some(p.src));
  }

  /** The number of neighbours a broadcast can go to. */
  function Degree(ifaces: seq<Iface>): nat {
    if ifaces == [] then
      0
    else
      var last := ifaces[|ifaces| - 1];
      Degree(ifaces[..|ifaces| - 1]) + if last.active then |last.nbrs| else 0
  }

  lemma BroadcastLength(ifaces: seq<Iface>, lsu: Lsu, exclude: Option<Ip>)
    ensures |Broadcast(ifaces, lsu, exclude)| <= Degree(ifaces)
  {
    if ifaces != [] {
      var init, last := ifaces[..|ifaces| - 1], ifaces[|ifaces| - 1];
      BroadcastLength(init, lsu, exclude);
      SendOnMembers(last, last.nbrs, lsu, exclude);
    }
  }

  /** Every listed router has a time of its last update. */
  predicate Timed(db: seq<Record>, updated: map<RouterId, int>) {
    forall r :: r in db ==> r.rid in updated
  }

  /** The unsigned comparison of a difference of times with three LSU intervals. */
  predicate Overdue(diff: int, interval: nat) {
    diff % 0x1_0000_0000 > (3 * interval) % 0x1_0000_0000
  }

  /** The routers, other than `our`, whose last newer LSU is more than three intervals old. */
  function StaleIds(db: seq<Record>, updated: map<RouterId, int>, our: RouterId, now: int, interval: nat): (ids: set<RouterId>)
    requires Timed(db, updated)
    ensures forall r :: r in db ==> (r.rid in ids <==> r.rid != our && Overdue(now - updated[r.rid], interval))
    ensures our !in ids && forall id :: id in ids ==> exists r :: r in db && r.rid == id
  {
    hide Overdue;
    set r | r in db && r.rid != our && Overdue(now - updated[r.rid], interval) :: r.rid
  }

  /** A time-out pass keeps our own record and those updated within three intervals. */
  lemma ExpiryExactly(db: seq<Record>, updated: map<RouterId, int>, our: RouterId, now: int, interval: nat, r: Record)
    requires Timed(db, updated) && r in db
    requires 0 <= now - updated[r.rid] < 0x1_0000_0000 && 3 * interval < 0x1_0000_0000
    ensures r in Without(db, StaleIds(db, updated, our, now, interval)) <==>
            r.rid == our || now - updated[r.rid] <= 3 * interval
  {
    hide StaleIds;
    WithoutMembers(db, StaleIds(db, updated, our, now, interval));
  }

  lemma TimedPut(db: seq<Record>, r: Record, updated: map<RouterId, int>, now: int)
    requires Timed(db, updated)
    ensures Timed(Put(db, r), updated[r.rid := now])
    ensures r.rid in updated ==> Timed(Put(db, r), updated)
  {
    var i := IndexOf(db, r.rid);
    assert forall x :: x in Put(db, r) ==> x == r || x in db;
  }

  /** The control plane of one router: the router list is a field the methods update. */
  class Router {
    const rid: RouterId
    var db: seq<Record>
    var ifaces: seq<Iface>
    var updated: map<RouterId, int>

    ghost function View(): Node
      reads this
    {
      Node(rid, db, ifaces)
    }

    ghost predicate Valid()
      reads this
    {
      UniqueIds(db) && Lookup(db, rid).Some? && Timed(db, updated)
    }

    /** init_router_list: a list holding only ourselves, one blank link per interface. */
    constructor (rid: RouterId, ifaces: seq<Iface>, now: int)
      ensures Valid() && this.rid == rid && this.ifaces == ifaces && |db| == 1 && updated == map[rid := now]
      ensures db[0].seqNo == 0 && |db[0].links| == |ifaces|
      ensures forall k :: 0 <= k < |ifaces| ==>
                db[0].links[k] == Link(ifaces[k].Subnet(), ifaces[k].mask, 0, false)
    {
      this.rid, this.ifaces, this.updated := rid, ifaces, map[rid := now];
      var links: seq<Link> := [];
      for k := 0 to |ifaces|
        invariant |links| == k
        invariant forall j :: 0 <= j < k ==> links[j] == Link(ifaces[j].Subnet(), ifaces[j].mask, 0, false)
      {
        links := links + [Link(ifaces[k].ip & ifaces[k].mask, ifaces[k].mask, 0, false)];
      }
      this.db := [Record(rid, 0, links)];
    }

    /** get_router_by_rid, as a position in the list. */
    method Find(wanted: RouterId) returns (i: nat)
      ensures i == IndexOf(db, wanted)
    {
      i := 0;
      while i < |db| && db[i].rid != wanted
        invariant i <= |db|
        invariant forall j :: 0 <= j < i ==> db[j].rid != wanted
      {
        i := i + 1;
      }
    }

    /** broadcast_pwospf_lsu_packet: the walk over interfaces and their neighbours. */
    method Send(lsu: Lsu, exclude: Option<Ip>) returns (out: seq<Packet>)
      ensures out == Broadcast(ifaces, lsu, exclude)
    {
      out := [];
      for k := 0 to |ifaces|
        invariant out == Broadcast(ifaces[..k], lsu, exclude)
      {
        assert ifaces[..k + 1][..k] == ifaces[..k];
        var i := ifaces[k];
        if i.active {
          ghost var before := out;
          for j := 0 to |i.nbrs|
            invariant out == before + SendOn(i, i.nbrs[..j], lsu, exclude)
          {
            assert i.nbrs[..j + 1][..j] == i.nbrs[..j];
            if exclude != Some(i.nbrs[j].ip) {
              out := out + [Packet(i.ip, i.nbrs[j].ip, lsu)];
            }
          }
          assert i.nbrs[..|i.nbrs|] == i.nbrs;
        }
      }
      assert ifaces[..|ifaces|] == ifaces;
    }

    /** construct_pwospf_lsu_adv. */
    method ConstructAdvs(links: seq<Link>) returns (advs: seq<Adv>)
      ensures advs == Ads(links)
    {
      advs := [];
      for j := 0 to |links|
        invariant advs == Ads(links[..j])
      {
        assert links[..j + 1][..j] == links[..j];
        advs := advs + [Adv(links[j].subnet, links[j].mask, links[j].rid)];
      }
      assert links[..|links|] == links;
    }

    /** start_lsu_bcast_flood: advertise our links under our counter, then advance the counter. */
    method Originate() returns (out: seq<Packet>)
      requires Valid()
      modifies `db
      ensures var own := Lookup(old(db), rid).value;
              && View() == Bumped(old(View()), own)
              && out == Broadcast(ifaces, OwnLsu(own), None)
      ensures Valid()
    {
      hide Broadcast, Ads, Timed;
      var k := Find(rid);
      var own := db[k];
      OwnIsTimed();
      TimedPut(db, own.(seqNo := (own.seqNo + 1) % WORD), updated, 0);
      var advs := ConstructAdvs(own.links);
      out := Send(Lsu(rid, own.seqNo, MAX_TTL, advs), None);
      PutLookup(db, own.(seqNo := (own.seqNo + 1) % WORD), rid);
      db := db[k := own.(seqNo := (own.seqNo + 1) % WORD)];
    }

    /** process_pwospf_lsu_packet, after the check of is_pwospf_packet_valid. */
    method ProcessLsu(p: Packet, now: int) returns (out: seq<Packet>)
      requires Valid()
      modifies `db, `updated
      ensures updated == if Store(old(View()), p.lsu).newer then old(updated)[p.lsu.origin := now] else old(updated)
      ensures var u := Store(old(View()), p.lsu);
              var mid := old(View()).(db := u.db);
              var own := Lookup(u.db, rid);
              && own == Lookup(old(db), rid)
              && View() == (if u.changed then Bumped(mid, own.value) else mid)
              && out == Forwards(old(View()), p) +
                        if u.changed then Broadcast(ifaces, OwnLsu(own.value), None) else []
      ensures Valid()
    {
      hide Broadcast, Store, Swapped, Put, Timed, UniqueIds;
      ForwardsIf(View(), p);
      var newer, changed := StoreLsu(p.lsu, now);
      var ttl := if p.lsu.ttl == 0 then WORD - 1 else p.lsu.ttl - 1;
      out := [];
      if newer && ttl > 0 {
        out := Send(p.lsu.(ttl := ttl), Some(p.src));
      }
      if changed {
        var more := Originate();
        out := out + more;
      }
    }

    /** The part of it that updates the database. */
    method StoreLsu(lsu: Lsu, now: int) returns (newer: bool, changed: bool)
      requires Valid()
      modifies `db, `updated
      ensures var u := Store(old(View()), lsu); db == u.db && newer == u.newer && changed == u.changed
      ensures updated == if newer then old(updated)[lsu.origin := now] else old(updated)
      ensures Valid() && Lookup(db, rid) == Lookup(old(db), rid)
    {
      hide Reconciled, Changed, Timed;
      newer, changed := false, false;
      if Swapped(lsu.origin) == rid || lsu.origin == rid {
        return;
      }
      var k := Find(lsu.origin);
      ghost var r := Record(lsu.origin, lsu.seqNo, Reconciled(if k < |db| then db[k].links else [], lsu.advs));
      PutLookup(db, r, rid);
      TimedPut(db, r, updated, now);
      if k < |db| {
        if lsu.seqNo > db[k].seqNo {
          newer := true;
          var links;
          links, changed := PopulateInterfaceList(db[k].links, lsu.advs);
          db := db[k := Record(lsu.origin, lsu.seqNo, links)];
        }
      } else {
        newer, changed := true, true;
        var links, _ := PopulateInterfaceList([], lsu.advs);
        db := db + [Record(lsu.origin, lsu.seqNo, links)];
      }
      if newer {
        updated := updated[lsu.origin := now];
      }
    }

    lemma OwnIsTimed()
      requires Valid()
      ensures rid in updated
    {
    }

    /** pwospf_lsu_timeout_thread: drop the routers not heard of for three intervals, but never ourselves. */
    method ExpireRouters(now: int, interval: nat) returns (timedOut: bool)
      requires Valid()
      modifies `db
      ensures var stale := StaleIds(old(db), updated, rid, now, interval);
              db == Without(old(db), stale) && (timedOut <==> stale != {})
      ensures Valid()
    {
      hide Overdue, StaleIds, Lookup;
      ghost var stale := StaleIds(db, updated, rid, now, interval);
      var kept: seq<Record> := [];
      timedOut := false;
      for k := 0 to |db|
        invariant db == old(db)
        invariant kept == Without(db[..k], stale)
        invariant timedOut ==> stale != {}
        invariant !timedOut ==> forall j :: 0 <= j < k ==> db[j].rid !in stale
      {
        assert db[..k + 1][..k] == db[..k] && db[k] in db;
        if db[k].rid != rid && Overdue(now - updated[db[k].rid], interval) {
          timedOut := true;
        } else {
          kept := kept + [db[k]];
        }
      }
      assert db[..|db|] == db;
      WithoutLookup(db, stale, rid);
      WithoutMembers(db, stale);
      db := kept;
    }
  }

  lemma ForwardsIf(n: Node, p: Packet)
    ensures Forwards(n, p) ==
            if Store(n, p.lsu).newer && NextTtl(p.lsu.ttl) > 0
            then Broadcast(n.ifaces, p.lsu.(ttl := NextTtl(p.lsu.ttl)), Some(p.src)) else []
  {
  }
}
