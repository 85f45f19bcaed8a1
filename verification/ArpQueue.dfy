/**
 Packets waiting for ARP: send_ip, the per-hop queue, its retries, and the ICMP errors
 sent for packets whose next hop never answers. The errors go through send_ip again
 and may join the very list that is being drained.
 */
module ArpQueue {
  import opened Net
  import opened ArpCache

  const MAX_REQUESTS: nat := 5
  const PROTO_ICMP: nat := 1
  const ECHO_REPLY: nat := 0
  const ECHO_REQUEST: nat := 8
  const UNREACHABLE: nat := 3
  const DEFAULT_TTL: nat := 64

  /** An error quotes the packet it answers; the other packets carry data. */
  datatype Body = Data(id: nat) | Quote(original: Packet)

  datatype Packet = Packet(src: Ip, dst: Ip, proto: nat, icmpType: nat, ttl: nat, body: Body)

  /** What leaves the router. */
  datatype Frame = Sent(packet: Packet, hop: Ip, mac: Mac, iface: string) | Request(hop: Ip, iface: string)

  /** struct arp_queue_entry; `since` notes how much had been sent when the entry was opened. */
  datatype Waiting = Waiting(hop: Ip, iface: string, requests: nat, lastRequest: int, packets: seq<Packet>, since: nat)

  datatype Given = Given(packet: Packet, hop: Ip)

  datatype Via = Via(hop: Ip, iface: string)

  /** The routing table's answers and the interfaces: what bouncing a packet consults. */
  datatype Env = Env(route: Ip -> Option<Via>, ours: Ip -> bool, address: string -> Ip)

  /** `given` and `dropped` log the packets handed to send_ip and those freed without being sent. */
  datatype State = State(
    cache: seq<Entry>, queue: seq<Waiting>, wire: seq<Frame>, given: seq<Given>, dropped: seq<Packet>)

  // ---------------------------------------------------------------- operations

  function MacOf(cache: seq<Entry>, hop: Ip): Option<Mac> {
    var k := Find(cache, hop);
    if k < |cache| then Some(cache[k].mac) else None
  }

  /** Position of the entry for `hop`, or the length of the queue (get_from_arp_queue). */
  function Position(queue: seq<Waiting>, hop: Ip): (k: nat)
    ensures k <= |queue|
    ensures k < |queue| ==> queue[k].hop == hop
    ensures forall j :: 0 <= j < k ==> queue[j].hop != hop
  {
    if queue == [] || queue[0].hop == hop then 0 else 1 + Position(queue[1..], hop)
  }

  /** arp_queue_add. */
  function Enqueue(st: State, p: Packet, via: Via, now: int): State {
    var k := Position(st.queue, via.hop);
    if k < |st.queue| then
      st.(queue := st.queue[k := st.queue[k].(packets := st.queue[k].packets + [p])])
    else
      st.(queue := st.queue + [Waiting(via.hop, via.iface, 1, now, [p], |st.wire|)],
          wire := st.wire + [Request(via.hop, via.iface)])
  }

  /** send_ip: transmit when the hop is resolved, queue otherwise. */
  function Dispatch(st: State, p: Packet, via: Via, now: int): State {
    match MacOf(st.cache, via.hop)
    case Some(mac) => st.(wire := st.wire + [Sent(p, via.hop, mac, via.iface)])
    case None => Enqueue(st, p, via, now)
  }

  /** A packet enters through send_ip. */
  function SendIp(st: State, p: Packet, via: Via, now: int): State {
    Dispatch(st.(given := st.given + [Given(p, via.hop)]), p, via, now)
  }

  /** Which packets are answered by an error: no ICMP errors, and nothing of our own. */
  predicate Deserves(env: Env, p: Packet) {
    && (p.proto != PROTO_ICMP || p.icmpType == ECHO_REPLY || p.icmpType == ECHO_REQUEST)
    && !env.ours(p.src)
  }

  /** The TTL as it was before this router forwarded the packet. */
  function Raised(p: Packet): Packet {
    if p.ttl < 255 then p.(ttl := p.ttl + 1) else p
  }

  function ErrorFor(env: Env, p: Packet, via: Via): Packet {
    Packet(env.address(via.iface), p.src, PROTO_ICMP, UNREACHABLE, DEFAULT_TTL, Quote(Raised(p)))
  }

  /** The error sent for `p`, when there is one. */
  function Answer(env: Env, p: Packet): Option<Via> {
    if Deserves(env, p) then env.route(p.src) else None
  }

  /**
   Which packets are answered: not ICMP, or an echo, and not from one of our own addresses, and there
   is a route back. The answer goes to the sender along that route, from the address of the interface
   it leaves by, and quotes the packet as it came in.
   */
  lemma ErrorGoesBack(env: Env, p: Packet)
    ensures Answer(env, p).Some? <==>
            (p.proto != 1 || p.icmpType == 0 || p.icmpType == 8) && !env.ours(p.src) && env.route(p.src).Some?
    ensures Answer(env, p).Some? ==>
              var via := Answer(env, p).value;
              var e := ErrorFor(env, p, via);
              && env.route(p.src) == Some(via) && e.dst == p.src && e.src == env.address(via.iface)
              && e.proto == 1 && e.icmpType == 3 && e.ttl == 64 && Answer(env, e) == None
              && e.body.Quote? && e.body.original == p.(ttl := if p.ttl < 255 then p.ttl + 1 else p.ttl)
  {
  }

  function Bounce(st: State, env: Env, p: Packet, now: int): State {
    match Answer(env, p)
    case Some(via) => SendIp(st, ErrorFor(env, p, via), via, now)
    case None => st
  }

  function DropHead(st: State, i: nat): State
    requires i < |st.queue| && st.queue[i].packets != []
  {
    var e := st.queue[i];
    st.(queue := st.queue[i := e.(packets := e.packets[1..])], dropped := st.dropped + [e.packets[0]])
  }

  /** How many packets of the list would be answered by an error. */
  function Deserving(env: Env, ps: seq<Packet>): nat {
    if ps == [] then 0 else (if Deserves(env, ps[0]) then 1 else 0) + Deserving(env, ps[1..])
  }

  lemma {:induction false} DeservingAppend(env: Env, ps: seq<Packet>, qs: seq<Packet>)
    ensures Deserving(env, ps + qs) == Deserving(env, ps) + Deserving(env, qs)
  {
    if ps == [] {
      assert ps + qs == qs;
    } else {
      assert (ps + qs)[1..] == ps[1..] + qs;
      DeservingAppend(env, ps[1..], qs);
    }
  }

  /** Bouncing only appends to lists, at most one packet, and an error deserves no error. */
  lemma BounceAppends(st: State, env: Env, p: Packet, now: int, i: nat)
    requires i < |st.queue|
    ensures var q, q' := st.queue, Bounce(st, env, p, now).queue;
            && |q| <= |q'| && q'[i].hop == q[i].hop
            && (q'[i].packets == q[i].packets
                || exists e :: q'[i].packets == q[i].packets + [e] && Deserves(env, p) && !Deserves(env, e))
  {
    match Answer(env, p)
    case None =>
    case Some(via) =>
      var e := ErrorFor(env, p, via);
      var q' := Bounce(st, env, p, now).queue;
      if q'[i].packets != st.queue[i].packets {
        assert q'[i].packets == st.queue[i].packets + [e] && !Deserves(env, e);
      }
  }

  /** One turn of the give-up loop: bounce the head, then free it. */
  function BounceHead(st: State, env: Env, i: nat, now: int): (out: State)
    requires i < |st.queue| && st.queue[i].packets != []
    ensures i < |out.queue| && |st.queue| <= |out.queue|
    ensures var ps, ps' := st.queue[i].packets, out.queue[i].packets;
            Deserving(env, ps') + |ps'| < Deserving(env, ps) + |ps|
  {
    var ps := st.queue[i].packets;
    BounceAppends(st, env, ps[0], now, i);
    var mid := Bounce(st, env, ps[0], now);
    assert mid.queue[i].packets[0] == ps[0];
    var out := DropHead(mid, i);
    assert Deserving(env, out.queue[i].packets) + |out.queue[i].packets| < Deserving(env, ps) + |ps| by {
      if mid.queue[i].packets != ps {
        var e :| mid.queue[i].packets == ps + [e] && Deserves(env, ps[0]) && !Deserves(env, e);
        assert out.queue[i].packets == ps[1..] + [e];
        DeservingAppend(env, ps[1..], [e]);
      }
    }
    out
  }

  /** The give-up loop; errors that join the list are drained with it. */
  function Drain(st: State, env: Env, i: nat, now: int): (out: State)
    requires i < |st.queue|
    ensures i < |out.queue| && |st.queue| <= |out.queue| && out.queue[i].packets == []
    decreases Deserving(env, st.queue[i].packets) + |st.queue[i].packets|
  {
    if st.queue[i].packets == [] then st else Drain(BounceHead(st, env, i, now), env, i, now)
  }

  function Removed<T>(s: seq<T>, i: nat): seq<T>
    requires i < |s|
  {
    s[..i] + s[i + 1..]
  }

  function GiveUp(st: State, env: Env, i: nat, now: int): (out: State)
    requires i < |st.queue|
    ensures |st.queue| <= |out.queue| + 1
  {
    var drained := Drain(st, env, i, now);
    drained.(queue := Removed(drained.queue, i))
  }

  function Retry(st: State, i: nat, now: int): State
    requires i < |st.queue|
  {
    var e := st.queue[i];
    st.(queue := st.queue[i := e.(requests := e.requests + 1, lastRequest := now)],
        wire := st.wire + [Request(e.hop, e.iface)])
  }

  // ---------------------------------------------------------------- the sweep ends

  /** Entries still to visit, and the errors (each perhaps a new entry) they can still cause. */
  function Load(env: Env, queue: seq<Waiting>): nat {
    if queue == [] then 0 else 1 + Deserving(env, queue[0].packets) + Load(env, queue[1..])
  }

  lemma {:induction false} LoadAppend(env: Env, q: seq<Waiting>, r: seq<Waiting>)
    ensures Load(env, q + r) == Load(env, q) + Load(env, r)
  {
    if q == [] {
      assert q + r == r;
    } else {
      assert (q + r)[1..] == q[1..] + r;
      LoadAppend(env, q[1..], r);
    }
  }

  lemma LoadSplit(env: Env, q: seq<Waiting>, i: nat, k: nat)
    requires i <= k < |q|
    ensures Load(env, q[i..]) ==
            Load(env, q[i..k]) + 1 + Deserving(env, q[k].packets) + Load(env, q[k + 1..])
  {
    assert q[i..] == q[i..k] + ([q[k]] + q[k + 1..]);
    LoadAppend(env, q[i..k], [q[k]] + q[k + 1..]);
    LoadAppend(env, [q[k]], q[k + 1..]);
  }

  lemma LoadUpdate(env: Env, q: seq<Waiting>, i: nat, k: nat, e: Waiting)
    requires i <= |q| && k < |q|
    ensures k < i ==> Load(env, q[k := e][i..]) == Load(env, q[i..])
    ensures i <= k ==> Load(env, q[k := e][i..]) + Deserving(env, q[k].packets) ==
                       Load(env, q[i..]) + Deserving(env, e.packets)
  {
    var q' := q[k := e];
    if k < i {
      assert q'[i..] == q[i..];
    } else {
      LoadSplit(env, q, i, k);
      LoadSplit(env, q', i, k);
      assert q'[i..k] == q[i..k] && q'[k + 1..] == q[k + 1..];
    }
  }

  /** Handing an error to send_ip adds at most one entry to visit, and nothing to answer. */
  lemma ErrorLoad(st: State, env: Env, p: Packet, via: Via, now: int, i: nat)
    requires i <= |st.queue| && !Deserves(env, p)
    ensures var q' := SendIp(st, p, via, now).queue;
            |st.queue| <= |q'| && Load(env, q'[i..]) <= Load(env, st.queue[i..]) + 1
  {
    var q, k := st.queue, Position(st.queue, via.hop);
    if MacOf(st.cache, via.hop) == None {
      if k < |q| {
        LoadUpdate(env, q, i, k, q[k].(packets := q[k].packets + [p]));
        DeservingAppend(env, q[k].packets, [p]);
      } else {
        var e := Waiting(via.hop, via.iface, 1, now, [p], |st.wire|);
        assert (q + [e])[i..] == q[i..] + [e];
        LoadAppend(env, q[i..], [e]);
        assert Deserving(env, [p]) == 0 && Load(env, [e]) == 1;
      }
    }
  }

  lemma BounceHeadLoad(st: State, env: Env, i: nat, now: int)
    requires i < |st.queue| && st.queue[i].packets != []
    ensures Load(env, BounceHead(st, env, i, now).queue[i..]) <= Load(env, st.queue[i..])
  {
    hide SendIp, Load;
    var ps := st.queue[i].packets;
    var mid := Bounce(st, env, ps[0], now);
    BounceAppends(st, env, ps[0], now, i);
    var e := mid.queue[i];
    assert e.packets[0] == ps[0];
    LoadUpdate(env, mid.queue, i, i, e.(packets := e.packets[1..]));
    match Answer(env, ps[0])
    case None =>
    case Some(via) =>
      ErrorLoad(st, env, ErrorFor(env, ps[0], via), via, now, i);
  }

  lemma {:induction false} DrainLoad(st: State, env: Env, i: nat, now: int)
    requires i < |st.queue|
    ensures Load(env, Drain(st, env, i, now).queue[i..]) <= Load(env, st.queue[i..])
    decreases Deserving(env, st.queue[i].packets) + |st.queue[i].packets|
  {
    hide BounceHead, Load;
    if st.queue[i].packets != [] {
      BounceHeadLoad(st, env, i, now);
      DrainLoad(BounceHead(st, env, i, now), env, i, now);
    }
  }

  lemma GiveUpLoad(st: State, env: Env, i: nat, now: int)
    requires i < |st.queue|
    ensures i <= |GiveUp(st, env, i, now).queue|
    ensures Load(env, GiveUp(st, env, i, now).queue[i..]) < Load(env, st.queue[i..])
  {
    hide Drain;
    DrainLoad(st, env, i, now);
    var q := Drain(st, env, i, now).queue;
    assert Removed(q, i)[i..] == q[i + 1..] == q[i..][1..];
  }

  lemma LoadRest(env: Env, q: seq<Waiting>, i: nat)
    requires i < |q|
    ensures Load(env, q[i + 1..]) < Load(env, q[i..])
  {
    assert q[i..][1..] == q[i + 1..];
  }

  lemma RetryLoad(st: State, env: Env, i: nat, now: int)
    requires i < |st.queue|
    ensures |Retry(st, i, now).queue| == |st.queue|
    ensures Load(env, Retry(st, i, now).queue[i + 1..]) < Load(env, st.queue[i..])
  {
    LoadRest(env, st.queue, i);
    assert Retry(st, i, now).queue[i + 1..] == st.queue[i + 1..];
  }

  /**
   process_arp_queue from entry `i` on. The successor is read before the entry is handled, so
   entries that the last one adds are not visited.
   */
  function Sweep(st: State, env: Env, i: nat, now: int): State
    requires i <= |st.queue|
    decreases Load(env, st.queue[i..])
  {
    if i == |st.queue| then
      st
    else
      var e := st.queue[i];
      if now - e.lastRequest <= 1 then
        LoadRest(env, st.queue, i);
        Sweep(st, env, i + 1, now)
      else if e.requests < MAX_REQUESTS then
        RetryLoad(st, env, i, now);
        Sweep(Retry(st, i, now), env, i + 1, now)
      else
        GiveUpLoad(st, env, i, now);
        var out := GiveUp(st, env, i, now);
        if i + 1 == |st.queue| then out else Sweep(out, env, i, now)
  }

  // ---------------------------------------------------------------- what every run keeps

  predicate UniqueHops(queue: seq<Waiting>) {
    forall i, j :: 0 <= i < j < |queue| ==> queue[i].hop != queue[j].hop
  }

  /** One entry per hop, each asked for between one and five times. */
  predicate Tidy(queue: seq<Waiting>) {
    UniqueHops(queue) && forall i :: 0 <= i < |queue| ==> 1 <= queue[i].requests <= MAX_REQUESTS
  }

  /** No entry but `i` is without packets. */
  predicate BusyBut(queue: seq<Waiting>, i: nat) {
    forall k :: 0 <= k < |queue| && k != i ==> queue[k].packets != []
  }

  predicate Busy(queue: seq<Waiting>) {
    BusyBut(queue, |queue|)
  }

  function SentBag(wire: seq<Frame>): multiset<Packet> {
    if wire == [] then
      multiset{}
    else
      var f := wire[|wire| - 1];
      SentBag(wire[..|wire| - 1]) + if f.Sent? then multiset{f.packet} else multiset{}
  }

  function QueueBag(queue: seq<Waiting>): multiset<Packet> {
    if queue == [] then multiset{} else multiset(queue[0].packets) + QueueBag(queue[1..])
  }

  function GivenBag(given: seq<Given>): multiset<Packet> {
    if given == [] then multiset{} else GivenBag(given[..|given| - 1]) + multiset{given[|given| - 1].packet}
  }

  /** Every packet given to send_ip is exactly one of transmitted, queued or dropped. */
  predicate Conserved(st: State) {
    GivenBag(st.given) == SentBag(st.wire) + QueueBag(st.queue) + multiset(st.dropped)
  }

  /** The packets transmitted towards `hop`, in order. */
  function SentTo(wire: seq<Frame>, hop: Ip): seq<Packet> {
    if wire == [] then
      []
    else
      var f := wire[|wire| - 1];
      SentTo(wire[..|wire| - 1], hop) + if f.Sent? && f.hop == hop then [f.packet] else []
  }

  function QueuedFor(queue: seq<Waiting>, hop: Ip): seq<Packet> {
    var k := Position(queue, hop);
    if k < |queue| then queue[k].packets else []
  }

  function GivenFor(given: seq<Given>, hop: Ip): seq<Packet> {
    if given == [] then
      []
    else
      var g := given[|given| - 1];
      GivenFor(given[..|given| - 1], hop) + if g.hop == hop then [g.packet] else []
  }

  /** `a` is `b` with some elements left out. */
  predicate Subsequence<T(==)>(a: seq<T>, b: seq<T>)
    decreases |b|
  {
    || a == []
    || (b != [] && Subsequence(a, b[..|b| - 1]))
    || (b != [] && a[|a| - 1] == b[|b| - 1] && Subsequence(a[..|a| - 1], b[..|b| - 1]))
  }

  /** Towards `hop` packets are sent, and then queued, in the order they were given. */
  predicate InOrder(st: State, hop: Ip) {
    Subsequence(SentTo(st.wire, hop) + QueuedFor(st.queue, hop), GivenFor(st.given, hop))
  }

  /** No queued hop has a cache entry. */
  predicate Unresolved(st: State) {
    forall i :: 0 <= i < |st.queue| ==> MacOf(st.cache, st.queue[i].hop) == None
  }

  predicate Sound(st: State) {
    Tidy(st.queue) && Conserved(st)
  }

  ghost predicate AllInOrder(st: State) {
    forall hop :: InOrder(st, hop)
  }

  ghost predicate Orderly(st: State) {
    Unresolved(st) && AllInOrder(st)
  }

  // ---------------------------------------------------------------- lists and bags

  lemma SentAppend(wire: seq<Frame>, f: Frame, hop: Ip)
    ensures SentBag(wire + [f]) == SentBag(wire) + if f.Sent? then multiset{f.packet} else multiset{}
    ensures SentTo(wire + [f], hop) ==
            if f.Sent? && f.hop == hop then SentTo(wire, hop) + [f.packet] else SentTo(wire, hop)
  {
    assert (wire + [f])[..|wire|] == wire;
  }

  lemma GivenAppend(given: seq<Given>, g: Given, hop: Ip)
    ensures GivenBag(given + [g]) == GivenBag(given) + multiset{g.packet}
    ensures GivenFor(given + [g], hop) ==
            if g.hop == hop then GivenFor(given, hop) + [g.packet] else GivenFor(given, hop)
  {
    assert (given + [g])[..|given|] == given;
  }

  lemma {:induction false} QueueBagAppend(q: seq<Waiting>, r: seq<Waiting>)
    ensures QueueBag(q + r) == QueueBag(q) + QueueBag(r)
  {
    if q == [] {
      assert q + r == r;
    } else {
      assert (q + r)[1..] == q[1..] + r;
      QueueBagAppend(q[1..], r);
    }
  }

  lemma QueueBagAt(q: seq<Waiting>, k: nat)
    requires k < |q|
    ensures QueueBag(q) == QueueBag(Removed(q, k)) + multiset(q[k].packets)
  {
    hide QueueBag;
    assert q == q[..k] + ([q[k]] + q[k + 1..]);
    QueueBagAppend(q[..k], [q[k]] + q[k + 1..]);
    QueueBagAppend([q[k]], q[k + 1..]);
    QueueBagAppend(q[..k], q[k + 1..]);
    QueueBagOne(q[k]);
  }

  lemma QueueBagUpdate(q: seq<Waiting>, k: nat, e: Waiting)
    requires k < |q|
    ensures QueueBag(q[k := e]) + multiset(q[k].packets) == QueueBag(q) + multiset(e.packets)
  {
    QueueBagAt(q, k);
    QueueBagAt(q[k := e], k);
    assert Removed(q[k := e], k) == Removed(q, k);
  }

  lemma PositionIs(queue: seq<Waiting>, k: nat, hop: Ip)
    requires UniqueHops(queue) && k < |queue| && queue[k].hop == hop
    ensures Position(queue, hop) == k && QueuedFor(queue, hop) == queue[k].packets
  {
  }

  lemma NotQueued(queue: seq<Waiting>, hop: Ip)
    requires forall k :: 0 <= k < |queue| ==> queue[k].hop != hop
    ensures Position(queue, hop) == |queue| && QueuedFor(queue, hop) == []
  {
  }

  /** Replacing the packets of entry `k` changes what is queued for its hop and no other. */
  lemma QueuedAfterUpdate(queue: seq<Waiting>, k: nat, e: Waiting, hop: Ip)
    requires UniqueHops(queue) && k < |queue| && e.hop == queue[k].hop
    ensures UniqueHops(queue[k := e])
    ensures QueuedFor(queue[k := e], hop) == if hop == e.hop then e.packets else QueuedFor(queue, hop)
  {
    var q, j := queue[k := e], Position(queue, hop);
    if hop == e.hop {
      PositionIs(q, k, hop);
    } else if j < |queue| {
      PositionIs(q, j, hop);
    } else {
      NotQueued(q, hop);
    }
  }

  lemma QueuedAfterAppend(queue: seq<Waiting>, e: Waiting, hop: Ip)
    requires UniqueHops(queue) && Position(queue, e.hop) == |queue|
    ensures UniqueHops(queue + [e])
    ensures QueuedFor(queue + [e], hop) == if hop == e.hop then e.packets else QueuedFor(queue, hop)
  {
    hide Position;
    var q, j := queue + [e], Position(queue, hop);
    assert q[|queue|] == e;
    if hop == e.hop {
      PositionIs(q, |queue|, hop);
    } else if j < |queue| {
      PositionIs(q, j, hop);
    } else {
      NotQueued(q, hop);
    }
  }

  lemma QueuedAfterRemove(queue: seq<Waiting>, k: nat, hop: Ip)
    requires UniqueHops(queue) && k < |queue|
    ensures UniqueHops(Removed(queue, k))
    ensures QueuedFor(Removed(queue, k), hop) == if hop == queue[k].hop then [] else QueuedFor(queue, hop)
  {
    hide Position;
    var q, j := Removed(queue, k), Position(queue, hop);
    assert forall i :: 0 <= i < |q| ==> q[i] == queue[if i < k then i else i + 1];
    if hop == queue[k].hop {
      NotQueued(q, hop);
    } else if j < |queue| {
      PositionIs(q, if j < k then j else j - 1, hop);
    } else {
      NotQueued(q, hop);
    }
  }

  lemma {:induction false} SubsequenceWithout<T>(a: seq<T>, x: T, c: seq<T>, b: seq<T>)
    requires Subsequence(a + [x] + c, b)
    ensures Subsequence(a + c, b)
    decreases |b|
  {
    var s := a + [x] + c;
    var b' := b[..|b| - 1];
    if Subsequence(s, b') {
      SubsequenceWithout(a, x, c, b');
    } else if c == [] {
      assert s[..|s| - 1] == a == a + c;
    } else {
      var c' := c[..|c| - 1];
      assert s[..|s| - 1] == a + [x] + c' && (a + c)[..|a + c| - 1] == a + c';
      SubsequenceWithout(a, x, c', b');
      assert a + c != [] && (a + c)[|a + c| - 1] == s[|s| - 1];
    }
  }

  lemma SubsequenceGrows<T>(a: seq<T>, b: seq<T>, x: T)
    requires Subsequence(a, b)
    ensures Subsequence(a, b + [x]) && Subsequence(a + [x], b + [x])
  {
    assert (b + [x])[..|b|] == b && (a + [x])[..|a|] == a;
  }

  // ---------------------------------------------------------------- each change keeps it

  lemma EnqueueBags(st: State, p: Packet, via: Via, now: int)
    ensures var out := Enqueue(st, p, via, now);
            && QueueBag(out.queue) == QueueBag(st.queue) + multiset{p} && SentBag(out.wire) == SentBag(st.wire)
            && out.given == st.given && out.dropped == st.dropped
  {
    hide SentBag, QueueBag, Position;
    var k := Position(st.queue, via.hop);
    if k < |st.queue| {
      var e := st.queue[k].(packets := st.queue[k].packets + [p]);
      QueueBagUpdate(st.queue, k, e);
      BagCancel(QueueBag(st.queue[k := e]), QueueBag(st.queue), st.queue[k].packets, p);
    } else {
      var e := Waiting(via.hop, via.iface, 1, now, [p], |st.wire|);
      QueueBagAppend(st.queue, [e]);
      QueueBagOne(e);
      SentAppend(st.wire, Request(via.hop, via.iface), via.hop);
    }
  }

  lemma EnqueueTidy(st: State, p: Packet, via: Via, now: int)
    requires Tidy(st.queue)
    ensures Tidy(Enqueue(st, p, via, now).queue)
  {
    hide Position, QueuedFor;
    var k := Position(st.queue, via.hop);
    if k < |st.queue| {
      QueuedAfterUpdate(st.queue, k, st.queue[k].(packets := st.queue[k].packets + [p]), via.hop);
    } else {
      QueuedAfterAppend(st.queue, Waiting(via.hop, via.iface, 1, now, [p], |st.wire|), via.hop);
    }
  }

  lemma SendIpIsSound(st: State, p: Packet, via: Via, now: int)
    requires Sound(st)
    ensures Sound(SendIp(st, p, via, now))
  {
    hide SentBag, GivenBag, QueueBag, Enqueue, Tidy;
    var logged := st.(given := st.given + [Given(p, via.hop)]);
    GivenAppend(st.given, Given(p, via.hop), via.hop);
    match MacOf(st.cache, via.hop)
    case Some(mac) =>
      SentAppend(st.wire, Sent(p, via.hop, mac, via.iface), via.hop);
    case None =>
      EnqueueBags(logged, p, via, now);
      EnqueueTidy(logged, p, via, now);
  }

  lemma QueueBagOne(e: Waiting)
    ensures QueueBag([e]) == multiset(e.packets)
  {
  }

  lemma BagCancel(b: multiset<Packet>, b': multiset<Packet>, ps: seq<Packet>, p: Packet)
    requires b + multiset(ps) == b' + multiset(ps + [p])
    ensures b == b' + multiset{p}
  {
    assert multiset(ps + [p]) == multiset(ps) + multiset{p};
    assert b == b + multiset(ps) - multiset(ps);
  }

  lemma SendIpBusy(st: State, p: Packet, via: Via, now: int, i: nat)
    requires BusyBut(st.queue, i)
    ensures BusyBut(SendIp(st, p, via, now).queue, i)
  {
  }

  lemma SendIpIsOrderly(st: State, p: Packet, via: Via, now: int)
    requires Sound(st) && Orderly(st)
    ensures Orderly(SendIp(st, p, via, now))
  {
    hide SendIp, InOrder, Conserved, Unresolved;
    SendIpUnresolved(st, p, via, now);
    forall hop ensures InOrder(SendIp(st, p, via, now), hop) {
      SendIpInOrder(st, p, via, now, hop);
    }
  }

  lemma SendIpUnresolved(st: State, p: Packet, via: Via, now: int)
    requires Unresolved(st)
    ensures Unresolved(SendIp(st, p, via, now))
  {
    hide Position, Find;
  }

  /** What queueing changes, seen from one hop. */
  lemma EnqueueFor(st: State, p: Packet, via: Via, now: int, hop: Ip)
    requires UniqueHops(st.queue)
    ensures var out := Enqueue(st, p, via, now);
            && SentTo(out.wire, hop) == SentTo(st.wire, hop)
            && QueuedFor(out.queue, hop) ==
               if hop == via.hop then QueuedFor(st.queue, hop) + [p] else QueuedFor(st.queue, hop)
  {
    hide SentTo, QueuedFor, Position;
    var k := Position(st.queue, via.hop);
    if k < |st.queue| {
      PositionIs(st.queue, k, via.hop);
      QueuedAfterUpdate(st.queue, k, st.queue[k].(packets := st.queue[k].packets + [p]), hop);
    } else {
      NotQueued(st.queue, via.hop);
      QueuedAfterAppend(st.queue, Waiting(via.hop, via.iface, 1, now, [p], |st.wire|), hop);
      SentAppend(st.wire, Request(via.hop, via.iface), hop);
    }
  }

  lemma SendIpInOrder(st: State, p: Packet, via: Via, now: int, hop: Ip)
    requires UniqueHops(st.queue) && Unresolved(st) && InOrder(st, hop)
    ensures InOrder(SendIp(st, p, via, now), hop)
  {
    hide SentTo, GivenFor, QueuedFor, Subsequence, UniqueHops, SendIp, Position, MacOf;
    var out := SendIp(st, p, via, now);
    var sent, queued, given := SentTo(st.wire, hop), QueuedFor(st.queue, hop), GivenFor(st.given, hop);
    SendIpFor(st, p, via, now, hop);
    SubsequenceGrows(sent + queued, given, p);
    if hop == via.hop {
      if MacOf(st.cache, hop) != None {
        NotQueued(st.queue, hop);
        assert sent + [p] + queued == sent + queued + [p];
      } else {
        assert sent + (queued + [p]) == sent + queued + [p];
      }
    }
  }

  /** A packet for a resolved hop leaves at once, with its address; the first one for another hop sends a request. */
  lemma SendIpFrames(st: State, p: Packet, via: Via, now: int)
    ensures var out, mac := SendIp(st, p, via, now), MacOf(st.cache, via.hop);
            && (mac.Some? ==> out.wire == st.wire + [Sent(p, via.hop, mac.value, via.iface)] && out.queue == st.queue)
            && (mac.None? && Position(st.queue, via.hop) < |st.queue| ==> out.wire == st.wire)
            && (mac.None? && Position(st.queue, via.hop) == |st.queue| ==> out.wire == st.wire + [Request(via.hop, via.iface)])
  {
    hide Position, MacOf;
  }

  /** What handing over a packet changes, seen from one hop. */
  lemma SendIpFor(st: State, p: Packet, via: Via, now: int, hop: Ip)
    requires UniqueHops(st.queue)
    ensures var out := SendIp(st, p, via, now);
            var resolved := MacOf(st.cache, via.hop) != None;
            && SentTo(out.wire, hop) ==
               (if hop == via.hop && resolved then SentTo(st.wire, hop) + [p] else SentTo(st.wire, hop))
            && QueuedFor(out.queue, hop) ==
               (if hop == via.hop && !resolved then QueuedFor(st.queue, hop) + [p] else QueuedFor(st.queue, hop))
            && GivenFor(out.given, hop) ==
               (if hop == via.hop then GivenFor(st.given, hop) + [p] else GivenFor(st.given, hop))
  {
    hide SentTo, GivenFor, QueuedFor, Enqueue, UniqueHops;
    var logged := st.(given := st.given + [Given(p, via.hop)]);
    GivenAppend(st.given, Given(p, via.hop), hop);
    match MacOf(st.cache, via.hop)
    case Some(mac) =>
      SentAppend(st.wire, Sent(p, via.hop, mac, via.iface), hop);
    case None =>
      EnqueueFor(logged, p, via, now, hop);
      EnqueueGiven(logged, p, via, now);
  }

  lemma EnqueueGiven(st: State, p: Packet, via: Via, now: int)
    ensures Enqueue(st, p, via, now).given == st.given
  {
  }

  lemma DropHeadIsSound(st: State, i: nat)
    requires Sound(st) && i < |st.queue| && st.queue[i].packets != []
    ensures Sound(DropHead(st, i))
  {
    hide SentBag, GivenBag, QueueBag, Position;
    var ps := st.queue[i].packets;
    var e := st.queue[i].(packets := ps[1..]);
    QueueBagUpdate(st.queue, i, e);
    QueuedAfterUpdate(st.queue, i, e, e.hop);
    assert ps == [ps[0]] + ps[1..];
    assert multiset(ps) == multiset{ps[0]} + multiset(ps[1..]);
    BagsEqual(QueueBag(st.queue[i := e]) + multiset{ps[0]}, QueueBag(st.queue), multiset(ps[1..]));
  }

  lemma DropHeadInOrder(st: State, i: nat, hop: Ip)
    requires Tidy(st.queue) && i < |st.queue| && st.queue[i].packets != [] && InOrder(st, hop)
    ensures InOrder(DropHead(st, i), hop)
  {
    hide SentTo, GivenFor, QueuedFor, Subsequence, Position;
    var ps := st.queue[i].packets;
    QueuedAfterUpdate(st.queue, i, st.queue[i].(packets := ps[1..]), hop);
    if hop == st.queue[i].hop {
      PositionIs(st.queue, i, hop);
      var sent := SentTo(st.wire, hop);
      assert sent + ps == sent + [ps[0]] + ps[1..];
      SubsequenceWithout(sent, ps[0], ps[1..], GivenFor(st.given, hop));
    }
  }

  lemma RemoveKeeps(st: State, i: nat)
    requires Sound(st) && i < |st.queue| && st.queue[i].packets == [] && BusyBut(st.queue, i)
    ensures var out := st.(queue := Removed(st.queue, i));
            Sound(out) && Busy(out.queue) && (Orderly(st) ==> Orderly(out))
  {
    hide SentTo, GivenFor, QueuedFor, Subsequence, Position, SentBag, GivenBag, QueueBag;
    var q, out := st.queue, st.(queue := Removed(st.queue, i));
    assert forall k :: 0 <= k < |out.queue| ==> out.queue[k] == q[if k < i then k else k + 1];
    QueueBagAt(q, i);
    QueuedAfterRemove(q, i, q[i].hop);
    if Orderly(st) {
      forall hop ensures InOrder(out, hop) {
        assert InOrder(st, hop);
        PositionIs(q, i, q[i].hop);
        QueuedAfterRemove(q, i, hop);
      }
    }
  }

  lemma RetryKeeps(st: State, i: nat, now: int)
    requires Sound(st) && Busy(st.queue) && i < |st.queue| && st.queue[i].requests < MAX_REQUESTS
    ensures var out := Retry(st, i, now);
            Sound(out) && Busy(out.queue) && (Orderly(st) ==> Orderly(out))
  {
    hide SentTo, GivenFor, QueuedFor, Subsequence, Position, SentBag, GivenBag, QueueBag;
    var q, out := st.queue, Retry(st, i, now);
    QueueBagUpdate(q, i, out.queue[i]);
    BagsEqual(QueueBag(out.queue), QueueBag(q), multiset(q[i].packets));
    QueuedAfterUpdate(q, i, out.queue[i], q[i].hop);
    SentAppend(st.wire, Request(q[i].hop, q[i].iface), q[i].hop);
    if Orderly(st) {
      forall hop ensures InOrder(out, hop) {
        assert InOrder(st, hop);
        QueuedAfterUpdate(q, i, out.queue[i], hop);
        PositionIs(q, i, q[i].hop);
        SentAppend(st.wire, Request(q[i].hop, q[i].iface), hop);
      }
    }
  }

  lemma BagsEqual(a: multiset<Packet>, b: multiset<Packet>, c: multiset<Packet>)
    requires a + c == b + c
    ensures a == b
  {
    assert a == a + c - c;
  }

  lemma BounceHeadKeeps(st: State, env: Env, i: nat, now: int)
    requires Sound(st) && BusyBut(st.queue, i) && i < |st.queue| && st.queue[i].packets != []
    ensures var out := BounceHead(st, env, i, now);
            && Sound(out) && BusyBut(out.queue, i)
            && (Orderly(st) ==> Orderly(out)) && out.cache == st.cache
  {
    hide SendIp, InOrder, Conserved;
    var mid := Bounce(st, env, st.queue[i].packets[0], now);
    BounceAppends(st, env, st.queue[i].packets[0], now, i);
    BounceKeeps(st, env, st.queue[i].packets[0], now, i);
    DropHeadIsSound(mid, i);
    if Orderly(st) {
      var out := DropHead(mid, i);
      forall hop ensures InOrder(out, hop) {
        DropHeadInOrder(mid, i, hop);
      }
      assert Unresolved(out);
    }
  }

  lemma BounceKeeps(st: State, env: Env, p: Packet, now: int, i: nat)
    requires Sound(st) && BusyBut(st.queue, i)
    ensures var out := Bounce(st, env, p, now);
            && Sound(out) && BusyBut(out.queue, i)
            && (Orderly(st) ==> Orderly(out)) && out.cache == st.cache
  {
    hide Sound, Orderly, BusyBut;
    match Answer(env, p)
    case None =>
    case Some(via) =>
      var e := ErrorFor(env, p, via);
      SendIpIsSound(st, e, via, now);
      SendIpBusy(st, e, via, now, i);
      if Orderly(st) {
        SendIpIsOrderly(st, e, via, now);
      }
  }

  lemma {:induction false} DrainKeeps(st: State, env: Env, i: nat, now: int)
    requires Sound(st) && BusyBut(st.queue, i) && i < |st.queue|
    ensures var out := Drain(st, env, i, now);
            && Sound(out) && BusyBut(out.queue, i)
            && (Orderly(st) ==> Orderly(out)) && out.cache == st.cache
    decreases Deserving(env, st.queue[i].packets) + |st.queue[i].packets|
  {
    hide Sound, Orderly, BusyBut, BounceHead;
    if st.queue[i].packets != [] {
      BounceHeadKeeps(st, env, i, now);
      DrainKeeps(BounceHead(st, env, i, now), env, i, now);
    }
  }

  lemma GiveUpKeeps(st: State, env: Env, i: nat, now: int)
    requires Sound(st) && Busy(st.queue) && i < |st.queue|
    ensures var out := GiveUp(st, env, i, now);
            Sound(out) && Busy(out.queue) && (Orderly(st) ==> Orderly(out)) && out.cache == st.cache
  {
    hide Sound, Orderly, Drain;
    DrainKeeps(st, env, i, now);
    RemoveKeeps(Drain(st, env, i, now), i);
  }

  lemma {:induction false} SweepKeeps(st: State, env: Env, i: nat, now: int)
    requires Sound(st) && Busy(st.queue) && i <= |st.queue|
    ensures var out := Sweep(st, env, i, now);
            Sound(out) && Busy(out.queue) && (Orderly(st) ==> Orderly(out)) && out.cache == st.cache
    decreases Load(env, st.queue[i..])
  {
    hide Sound, Orderly, Busy, GiveUp, Load;
    if i < |st.queue| {
      if now - st.queue[i].lastRequest <= 1 {
        LoadRest(env, st.queue, i);
        SweepKeeps(st, env, i + 1, now);
      } else if st.queue[i].requests < MAX_REQUESTS {
        RetryLoad(st, env, i, now);
        RetryKeeps(st, i, now);
        SweepKeeps(Retry(st, i, now), env, i + 1, now);
      } else {
        GiveUpLoad(st, env, i, now);
        GiveUpKeeps(st, env, i, now);
        if i + 1 < |st.queue| {
          SweepKeeps(GiveUp(st, env, i, now), env, i, now);
        }
      }
    }
  }

  // ---------------------------------------------------------------- replies

  function Frames(ps: seq<Packet>, hop: Ip, mac: Mac, iface: string): (fs: seq<Frame>)
    ensures |fs| == |ps|
  {
    if ps == [] then
      []
    else
      Frames(ps[..|ps| - 1], hop, mac, iface) + [Sent(ps[|ps| - 1], hop, mac, iface)]
  }

  lemma {:induction false} FramesAt(ps: seq<Packet>, hop: Ip, mac: Mac, iface: string, i: nat)
    requires i < |ps|
    ensures Frames(ps, hop, mac, iface)[i] == Sent(ps[i], hop, mac, iface)
  {
    if i < |ps| - 1 {
      FramesAt(ps[..|ps| - 1], hop, mac, iface, i);
    }
  }

  /** What a reply does: the hop's packets leave in order with the new address, its entry goes. */
  function Reply(st: State, ip: Ip, mac: Mac, now: int): State {
    var k := Position(st.queue, ip);
    var learned := st.(cache := Updated(st.cache, ip, mac, false, now));
    if k < |st.queue| then
      learned.(queue := Removed(st.queue, k),
               wire := st.wire + Frames(st.queue[k].packets, ip, mac, st.queue[k].iface))
    else
      learned
  }

  lemma {:induction false} FramesSent(wire: seq<Frame>, ps: seq<Packet>, to: Ip, mac: Mac, iface: string, hop: Ip)
    ensures var out := wire + Frames(ps, to, mac, iface);
            && SentBag(out) == SentBag(wire) + multiset(ps)
            && SentTo(out, hop) == if hop == to then SentTo(wire, hop) + ps else SentTo(wire, hop)
  {
    hide SentBag, SentTo, Frames;
    FramesSnoc(wire, ps, to, mac, iface);
    if ps != [] {
      var init, p := ps[..|ps| - 1], ps[|ps| - 1];
      FramesSent(wire, init, to, mac, iface, hop);
      SentAppend(wire + Frames(init, to, mac, iface), Sent(p, to, mac, iface), hop);
      assert ps == init + [p];
      assert SentTo(wire, hop) + init + [p] == SentTo(wire, hop) + ps;
    }
  }

  lemma FramesSnoc(wire: seq<Frame>, ps: seq<Packet>, to: Ip, mac: Mac, iface: string)
    ensures ps == [] ==> wire + Frames(ps, to, mac, iface) == wire
    ensures ps != [] ==>
              wire + Frames(ps, to, mac, iface) ==
              wire + Frames(ps[..|ps| - 1], to, mac, iface) + [Sent(ps[|ps| - 1], to, mac, iface)]
  {
  }

  lemma ReplyKeeps(st: State, ip: Ip, mac: Mac, now: int)
    requires Sound(st) && Busy(st.queue)
    ensures var out := Reply(st, ip, mac, now);
            Sound(out) && Busy(out.queue) && (Orderly(st) ==> Orderly(out))
  {
    hide SentTo, GivenFor, QueuedFor, Subsequence, Position, SentBag, GivenBag, QueueBag, Updated, Frames, MacOf;
    var q, k, out := st.queue, Position(st.queue, ip), Reply(st, ip, mac, now);
    if k < |q| {
      assert forall j :: 0 <= j < |out.queue| ==> out.queue[j] == q[if j < k then j else j + 1];
      QueueBagAt(q, k);
      QueuedAfterRemove(q, k, ip);
      FramesSent(st.wire, q[k].packets, ip, mac, q[k].iface, ip);
    }
    if Orderly(st) {
      forall hop ensures InOrder(out, hop) {
        assert InOrder(st, hop);
        ReplyInOrder(st, ip, mac, now, hop);
      }
      forall j | 0 <= j < |out.queue| ensures MacOf(out.cache, out.queue[j].hop) == None {
        assert out.queue[j] in q && out.queue[j].hop != ip;
        LearnedMac(st.cache, ip, mac, now, out.queue[j].hop);
      }
    }
  }

  /** A reply sends exactly the packets of its hop, in order and with the new address; other hops keep theirs. */
  lemma ReplySends(st: State, ip: Ip, mac: Mac, now: int, hop: Ip)
    requires UniqueHops(st.queue)
    ensures var out, ps := Reply(st, ip, mac, now), QueuedFor(st.queue, ip);
            && |out.wire| == |st.wire| + |ps| && out.wire[..|st.wire|] == st.wire
            && (forall j :: |st.wire| <= j < |out.wire| ==>
                  && out.wire[j].Sent? && out.wire[j].packet == ps[j - |st.wire|]
                  && out.wire[j].hop == ip && out.wire[j].mac == mac
                  && exists k :: 0 <= k < |st.queue| && st.queue[k].hop == ip && out.wire[j].iface == st.queue[k].iface)
            && QueuedFor(out.queue, hop) == (if hop == ip then [] else QueuedFor(st.queue, hop))
            && MacOf(out.cache, ip) == Some(mac)
  {
    hide Position, Updated, Frames, MacOf;
    var k, out := Position(st.queue, ip), Reply(st, ip, mac, now);
    LearnedMac(st.cache, ip, mac, now, ip);
    if k < |st.queue| {
      var e := st.queue[k];
      QueuedAfterRemove(st.queue, k, hop);
      forall j | |st.wire| <= j < |out.wire|
        ensures out.wire[j] == Sent(e.packets[j - |st.wire|], ip, mac, e.iface)
      {
        FramesAt(e.packets, ip, mac, e.iface, j - |st.wire|);
      }
    }
  }

  lemma LearnedMac(cache: seq<Entry>, ip: Ip, mac: Mac, now: int, hop: Ip)
    ensures MacOf(Updated(cache, ip, mac, false, now), hop) == if hop == ip then Some(mac) else MacOf(cache, hop)
  {
    hide Updated, Find;
    UpdatedResolves(cache, ip, mac, false, now, hop);
  }

  lemma ReplyInOrder(st: State, ip: Ip, mac: Mac, now: int, hop: Ip)
    requires UniqueHops(st.queue) && InOrder(st, hop)
    ensures InOrder(Reply(st, ip, mac, now), hop)
  {
    hide SentTo, GivenFor, QueuedFor, Subsequence, Position, Updated, Frames;
    var q, k := st.queue, Position(st.queue, ip);
    if k < |q| {
      QueuedAfterRemove(q, k, hop);
      PositionIs(q, k, ip);
      FramesSent(st.wire, q[k].packets, ip, mac, q[k].iface, hop);
      var sent, ps := SentTo(st.wire, hop), q[k].packets;
      assert sent + ps + [] == sent + ps;
    }
  }

  // ---------------------------------------------------------------- giving up

  /** The errors owed for a list of packets, in its order. */
  function Answers(env: Env, ps: seq<Packet>): seq<Given> {
    if ps == [] then
      []
    else
      (match Answer(env, ps[0])
       case Some(via) => [Given(ErrorFor(env, ps[0], via), via.hop)]
       case None => []) + Answers(env, ps[1..])
  }

  /** Of those, the ones that have to wait for `hop`. */
  function Joining(gs: seq<Given>, hop: Ip): seq<Packet> {
    if gs == [] then [] else (if gs[0].hop == hop then [gs[0].packet] else []) + Joining(gs[1..], hop)
  }

  lemma {:induction false} AnswersIgnoreErrors(env: Env, ps: seq<Packet>, e: Packet)
    requires !Deserves(env, e)
    ensures Answers(env, ps + [e]) == Answers(env, ps)
  {
    if ps == [] {
      assert ps + [e] == [e];
    } else {
      assert (ps + [e])[1..] == ps[1..] + [e];
      AnswersIgnoreErrors(env, ps[1..], e);
    }
  }

  /** Bouncing one packet of an unresolved entry, seen from that entry. */
  lemma BounceAt(st: State, env: Env, p: Packet, now: int, i: nat)
    requires UniqueHops(st.queue) && i < |st.queue| && MacOf(st.cache, st.queue[i].hop) == None
    ensures var out, hop, owed := Bounce(st, env, p, now), st.queue[i].hop, Answers(env, [p]);
            && |st.queue| <= |out.queue| && UniqueHops(out.queue) && out.queue[i].hop == hop
            && out.cache == st.cache && out.given == st.given + owed && out.dropped == st.dropped
            && out.queue[i].packets == st.queue[i].packets + Joining(owed, hop)
  {
    hide Position, MacOf;
    var out, hop := Bounce(st, env, p, now), st.queue[i].hop;
    match Answer(env, p)
    case None =>
    case Some(via) =>
      var e := ErrorFor(env, p, via);
      assert Answers(env, [p]) == [Given(e, via.hop)];
      assert Joining([Given(e, via.hop)], hop) == if via.hop == hop then [e] else [];
  }

  lemma {:induction false} JoiningAppend(gs: seq<Given>, hs: seq<Given>, hop: Ip)
    ensures Joining(gs + hs, hop) == Joining(gs, hop) + Joining(hs, hop)
  {
    if gs == [] {
      assert gs + hs == hs;
    } else {
      assert (gs + hs)[1..] == gs[1..] + hs;
      JoiningAppend(gs[1..], hs, hop);
      var first := if gs[0].hop == hop then [gs[0].packet] else [];
      var mine, others := Joining(gs[1..], hop), Joining(hs, hop);
      assert first + (mine + others) == first + mine + others;
    }
  }

  /**
   The drain of an entry that never resolved: each packet that deserves an error and has a
   route back is answered once, in order; the list, then the errors that joined it, are freed.
   */
  lemma {:induction false} DrainReports(st: State, env: Env, i: nat, now: int)
    requires UniqueHops(st.queue) && i < |st.queue| && MacOf(st.cache, st.queue[i].hop) == None
    ensures var out, ps, hop := Drain(st, env, i, now), st.queue[i].packets, st.queue[i].hop;
            && out.given == st.given + Answers(env, ps)
            && out.dropped == st.dropped + ps + Joining(Answers(env, ps), hop)
            && out.queue[i].hop == hop && UniqueHops(out.queue)
    decreases Deserving(env, st.queue[i].packets) + |st.queue[i].packets|
  {
    hide BounceHead, UniqueHops, MacOf, Answers, Joining;
    var ps, hop := st.queue[i].packets, st.queue[i].hop;
    if ps == [] {
      NothingOwed(env, hop);
    } else {
      NextList(st, env, i, now);
      DrainReports(BounceHead(st, env, i, now), env, i, now);
      AnswersOfRest(env, ps, hop);
      var owed, rest := Answers(env, [ps[0]]), Answers(env, ps[1..]);
      JoiningAppend(owed, rest, hop);
      Regroup(st.given, owed, rest, st.dropped, ps, Joining(owed, hop), Joining(rest, hop));
    }
  }

  lemma NothingOwed(env: Env, hop: Ip)
    ensures Answers(env, []) == [] && Joining([], hop) == []
  {
  }

  lemma Regroup(g: seq<Given>, g1: seq<Given>, g2: seq<Given>, d: seq<Packet>, ps: seq<Packet>, j: seq<Packet>, k: seq<Packet>)
    requires ps != []
    ensures g + g1 + g2 == g + (g1 + g2)
    ensures d + [ps[0]] + (ps[1..] + j) + k == d + ps + (j + k)
  {
    assert ps == [ps[0]] + ps[1..];
  }

  lemma NextList(st: State, env: Env, i: nat, now: int)
    requires UniqueHops(st.queue) && i < |st.queue| && MacOf(st.cache, st.queue[i].hop) == None
    requires st.queue[i].packets != []
    ensures var out, hop, ps := BounceHead(st, env, i, now), st.queue[i].hop, st.queue[i].packets;
            && out.queue[i].packets == ps[1..] + Joining(Answers(env, [ps[0]]), hop)
            && out.queue[i].hop == hop && UniqueHops(out.queue) && out.cache == st.cache
            && out.given == st.given + Answers(env, [ps[0]]) && out.dropped == st.dropped + [ps[0]]
  {
    hide Bounce, MacOf, Answers, Joining;
    BounceAt(st, env, st.queue[i].packets[0], now, i);
  }

  lemma AnswersOfRest(env: Env, ps: seq<Packet>, hop: Ip)
    requires ps != []
    ensures Answers(env, ps) == Answers(env, [ps[0]]) + Answers(env, ps[1..])
    ensures Answers(env, ps[1..] + Joining(Answers(env, [ps[0]]), hop)) == Answers(env, ps[1..])
  {
    hide Answers, Joining;
    var joined := Joining(Answers(env, [ps[0]]), hop);
    AnswersOne(env, ps[0], hop);
    AnswersCons(env, ps);
    if joined == [] {
      assert ps[1..] + joined == ps[1..];
    } else {
      AnswersIgnoreErrors(env, ps[1..], joined[0]);
    }
  }

  lemma AnswersCons(env: Env, ps: seq<Packet>)
    requires ps != []
    ensures Answers(env, ps) == Answers(env, [ps[0]]) + Answers(env, ps[1..])
  {
    assert [ps[0]][1..] == [] && Answers(env, []) == [];
  }

  lemma AnswersOne(env: Env, p: Packet, hop: Ip)
    ensures Joining(Answers(env, [p]), hop) ==
            match Answer(env, p)
            case Some(via) => if via.hop == hop then [ErrorFor(env, p, via)] else []
            case None => []
  {
    assert [p][1..] == [] && Answers(env, []) == [];
    if Answer(env, p).Some? {
      var via := Answer(env, p).value;
      var g := Given(ErrorFor(env, p, via), via.hop);
      assert Answers(env, [p]) == [g];
      assert [g][1..] == [] && Joining([], hop) == [];
    } else {
      assert Answers(env, [p]) == [];
    }
  }

  // ---------------------------------------------------------------- runs

  datatype Event =
    | Hand(packet: Packet, via: Via, now: int)
    | Answered(ip: Ip, mac: Mac, now: int)
    | Tick(env: Env, now: int)
    | Expired(now: int, ttl: nat)
    | AddStatic(ip: Ip, mac: Mac, now: int)

  function Step(st: State, ev: Event): State {
    match ev
    case Hand(p, via, now) => SendIp(st, p, via, now)
    case Answered(ip, mac, now) => Reply(st, ip, mac, now)
    case Tick(env, now) => Sweep(st, env, 0, now)
    case Expired(now, ttl) => st.(cache := Kept(st.cache, now, ttl))
    case AddStatic(ip, mac, now) => st.(cache := Updated(st.cache, ip, mac, true, now))
  }

  function Run(st: State, evs: seq<Event>): State
    decreases |evs|
  {
    if evs == [] then st else Run(Step(st, evs[0]), evs[1..])
  }

  const INITIAL: State := State([], [], [], [], [])

  /** A static entry for a hop that still has packets waiting. */
  predicate Strands(st: State, ev: Event) {
    ev.AddStatic? && Position(st.queue, ev.ip) < |st.queue|
  }

  /**
   Every step keeps the queue sound and its packets in order; it leaves a waiting hop resolved
   exactly if it is a static entry for such a hop.
   */
  lemma StepKeeps(st: State, ev: Event)
    requires Sound(st) && Busy(st.queue)
    ensures var out := Step(st, ev);
            && Sound(out) && Busy(out.queue)
            && (Orderly(st) ==> AllInOrder(out))
            && (Orderly(st) ==> (Unresolved(out) <==> !Strands(st, ev)))
  {
    hide Sound, Busy, AllInOrder, Unresolved, SendIp, Reply, Sweep, Position, Kept, Updated;
    match ev
    case Hand(p, via, now) =>
      SendIpKeeps(st, p, via, now);
    case Answered(ip, mac, now) =>
      ReplyKeeps(st, ip, mac, now);
    case Tick(env, now) =>
      SweepKeeps(st, env, 0, now);
    case Expired(now, ttl) =>
      CacheOnly(st, Kept(st.cache, now, ttl));
      if Orderly(st) {
        ExpiryKeepsOrder(st, now, ttl);
      }
    case AddStatic(ip, mac, now) =>
      CacheOnly(st, Updated(st.cache, ip, mac, true, now));
      if Orderly(st) {
        StaticKeepsOrder(st, ip, mac, now);
      }
  }

  lemma SendIpKeeps(st: State, p: Packet, via: Via, now: int)
    requires Sound(st) && Busy(st.queue)
    ensures var out := SendIp(st, p, via, now);
            Sound(out) && Busy(out.queue) && (Orderly(st) ==> Orderly(out))
  {
    SendIpIsSound(st, p, via, now);
    SendIpBusy(st, p, via, now, |st.queue|);
    SendIpGrows(st, p, via, now);
    if Orderly(st) {
      SendIpIsOrderly(st, p, via, now);
    }
  }

  lemma SendIpGrows(st: State, p: Packet, via: Via, now: int)
    ensures var q' := SendIp(st, p, via, now).queue;
            |q'| == |st.queue| || (|q'| == |st.queue| + 1 && q'[|st.queue|].packets == [p])
  {
  }

  lemma CacheOnly(st: State, cache: seq<Entry>)
    requires Sound(st)
    ensures Sound(st.(cache := cache))
  {
  }

  lemma ExpiryKeepsOrder(st: State, now: int, ttl: nat)
    requires Orderly(st)
    ensures Orderly(st.(cache := Kept(st.cache, now, ttl)))
  {
    hide Subsequence, SentTo, QueuedFor, GivenFor, Kept, Find;
    var out := st.(cache := Kept(st.cache, now, ttl));
    KeptMembers(st.cache, now, ttl);
    forall hop ensures InOrder(out, hop) {
      assert InOrder(st, hop);
    }
    forall j | 0 <= j < |st.queue| ensures MacOf(out.cache, st.queue[j].hop) == None {
      assert MacOf(st.cache, st.queue[j].hop) == None;
      assert forall e :: e in out.cache ==> e in st.cache && e.ip != st.queue[j].hop;
    }
  }

  lemma StaticKeepsOrder(st: State, ip: Ip, mac: Mac, now: int)
    requires Orderly(st)
    ensures AllInOrder(st.(cache := Updated(st.cache, ip, mac, true, now)))
    ensures Unresolved(st.(cache := Updated(st.cache, ip, mac, true, now))) <==>
            Position(st.queue, ip) == |st.queue|
  {
    hide Subsequence, SentTo, QueuedFor, GivenFor, Find, Updated, Position;
    var out := st.(cache := Updated(st.cache, ip, mac, true, now));
    forall hop ensures InOrder(out, hop) {
      assert InOrder(st, hop);
    }
    forall j | 0 <= j < |st.queue|
      ensures MacOf(out.cache, st.queue[j].hop) == None <==> st.queue[j].hop != ip
    {
      assert MacOf(st.cache, st.queue[j].hop) == None;
      UpdatedResolves(st.cache, ip, mac, true, now, st.queue[j].hop);
    }
    assert Position(st.queue, ip) < |st.queue| ==> !Unresolved(out);
  }

  /** From the start, over every run: one entry per hop, 1 to 5 requests, no empty list, no packet lost track of. */
  lemma {:induction false} RunKeeps(st: State, evs: seq<Event>)
    requires Sound(st) && Busy(st.queue)
    ensures Sound(Run(st, evs)) && Busy(Run(st, evs).queue)
    decreases |evs|
  {
    hide Sound, Busy, Step;
    if evs != [] {
      StepKeeps(st, evs[0]);
      RunKeeps(Step(st, evs[0]), evs[1..]);
    }
  }

  predicate NeverStrands(st: State, evs: seq<Event>)
    decreases |evs|
  {
    evs == [] || (!Strands(st, evs[0]) && NeverStrands(Step(st, evs[0]), evs[1..]))
  }

  /** Unless a static entry is added over waiting packets, no run ever reorders or repeats a packet. */
  lemma {:induction false} RunInOrder(st: State, evs: seq<Event>, hop: Ip)
    requires Sound(st) && Busy(st.queue) && Orderly(st) && NeverStrands(st, evs)
    ensures InOrder(Run(st, evs), hop) && Unresolved(Run(st, evs))
    decreases |evs|
  {
    hide Sound, Busy, Step, Unresolved, Strands;
    if evs != [] {
      StepKeeps(st, evs[0]);
      RunInOrder(Step(st, evs[0]), evs[1..], hop);
    }
  }

  lemma InitialKeeps()
    ensures Sound(INITIAL) && Busy(INITIAL.queue) && Orderly(INITIAL)
  {
    assert forall hop :: SentTo([], hop) + QueuedFor([], hop) == [];
  }

  // ---------------------------------------------------------------- overtaking

  lemma {:induction false} SubsequenceMembers<T>(a: seq<T>, b: seq<T>)
    requires Subsequence(a, b)
    ensures forall x :: x in a ==> x in b
    decreases |b|
  {
    if a != [] {
      var b' := b[..|b| - 1];
      assert b == b' + [b[|b| - 1]];
      if Subsequence(a, b') {
        SubsequenceMembers(a, b');
      } else {
        SubsequenceMembers(a[..|a| - 1], b');
        assert a == a[..|a| - 1] + [a[|a| - 1]];
      }
    }
  }

  /** A new element in front of a waiting one is out of order. */
  lemma OutOfTurn<T>(sent: seq<T>, p: T, queued: seq<T>, given: seq<T>)
    requires Subsequence(sent + queued, given) && p !in given
    ensures Subsequence(sent + [p] + queued, given + [p]) <==> queued == []
  {
    var a, b := sent + [p] + queued, given + [p];
    assert b[..|given|] == given;
    SubsequenceMembers(sent + queued, given);
    if queued == [] {
      assert sent + queued == sent && a == sent + [p];
      SubsequenceGrows(sent, given, p);
    } else {
      var last := queued[|queued| - 1];
      assert last in sent + queued && a[|a| - 1] == last && a[|sent|] == p && p in a;
      if Subsequence(a, given) {
        SubsequenceMembers(a, given);
      }
    }
  }

  /**
   Exactly when a packet that was not given before goes out in turn: its hop has no cache entry, or
   nothing is waiting for it.
   */
  lemma OvertakesExactly(st: State, p: Packet, via: Via, now: int)
    requires UniqueHops(st.queue) && InOrder(st, via.hop) && p !in GivenFor(st.given, via.hop)
    ensures InOrder(SendIp(st, p, via, now), via.hop) <==>
            MacOf(st.cache, via.hop) == None || QueuedFor(st.queue, via.hop) == []
  {
    hide SentTo, GivenFor, QueuedFor, Subsequence, UniqueHops, SendIp, MacOf;
    var hop := via.hop;
    var sent, queued, given := SentTo(st.wire, hop), QueuedFor(st.queue, hop), GivenFor(st.given, hop);
    SendIpFor(st, p, via, now, hop);
    if MacOf(st.cache, hop) != None {
      OutOfTurn(sent, p, queued, given);
    } else {
      SubsequenceGrows(sent + queued, given, p);
      assert sent + (queued + [p]) == sent + queued + [p];
    }
  }

  /** So it happens: after a static entry for its hop the second packet overtakes the first. */
  lemma StaticEntryOvertakes(p: Packet, q: Packet, via: Via, mac: Mac, now: int)
    requires p != q
    ensures var s1 := Step(INITIAL, Hand(p, via, now));
            var s3 := Step(Step(s1, AddStatic(via.hop, mac, now)), Hand(q, via, now));
            SentTo(s3.wire, via.hop) == [q] && QueuedFor(s3.queue, via.hop) == [p] && !InOrder(s3, via.hop)
  {
    hide SentTo, GivenFor, Subsequence, QueuedFor, Step;
    var asked, sent := Request(via.hop, via.iface), Sent(q, via.hop, mac, via.iface);
    var s1 := Step(INITIAL, Hand(p, via, now));
    var s3 := Step(Step(s1, AddStatic(via.hop, mac, now)), Hand(q, via, now));
    FirstWaits(p, via, now);
    SecondGoes(s1, q, via, mac, now);
    Nothing(via.hop);
    SentAppend([], asked, via.hop);
    SentAppend(s1.wire, sent, via.hop);
    GivenAppend([], Given(p, via.hop), via.hop);
    GivenAppend(s1.given, Given(q, via.hop), via.hop);
    PositionIs(s3.queue, 0, via.hop);
    assert GivenFor(s3.given, via.hop) == [p, q];
    Swap(p, q);
  }

  lemma FirstWaits(p: Packet, via: Via, now: int)
    ensures var s1 := Step(INITIAL, Hand(p, via, now));
            && s1.cache == [] && s1.queue == [Waiting(via.hop, via.iface, 1, now, [p], 0)]
            && s1.wire == [] + [Request(via.hop, via.iface)] && s1.given == [] + [Given(p, via.hop)]
  {
  }

  lemma SecondGoes(s1: State, q: Packet, via: Via, mac: Mac, now: int)
    requires s1.cache == []
    ensures var s3 := Step(Step(s1, AddStatic(via.hop, mac, now)), Hand(q, via, now));
            && s3.queue == s1.queue && s3.wire == s1.wire + [Sent(q, via.hop, mac, via.iface)]
            && s3.given == s1.given + [Given(q, via.hop)]
  {
    hide Updated, Find, Enqueue;
    UpdatedResolves([], via.hop, mac, true, now, via.hop);
  }

  lemma Nothing(hop: Ip)
    ensures SentTo([], hop) == [] && GivenFor([], hop) == []
  {
  }

  lemma Swap<T>(p: T, q: T)
    requires p != q
    ensures !Subsequence([q] + [p], [p, q])
  {
    assert [p, q][..1] == [p] && [p][..0] == [] && ([q] + [p])[..1] == [q];
    assert !Subsequence([q] + [p], []) && !Subsequence([q] + [p], [p]);
  }

  // ---------------------------------------------------------------- the code

  class Sender {
    const cache: Cache
    var queue: seq<Waiting>
    var wire: seq<Frame>
    ghost var given: seq<Given>
    ghost var dropped: seq<Packet>

    constructor (cache: Cache)
      ensures this.cache == cache && View() == State(cache.entries, [], [], [], [])
    {
      this.cache := cache;
      queue, wire, given, dropped := [], [], [], [];
    }

    ghost function View(): State
      reads this, cache
    {
      State(cache.entries, queue, wire, given, dropped)
    }

    /** get_from_arp_queue. */
    method GetFromQueue(hop: Ip) returns (k: nat)
      ensures k == Position(queue, hop)
    {
      k := 0;
      while k < |queue| && queue[k].hop != hop
        invariant k <= |queue|
        invariant forall j :: 0 <= j < k ==> queue[j].hop != hop
      {
        k := k + 1;
      }
    }

    /** arp_queue_add. */
    method QueueAdd(p: Packet, via: Via, now: int)
      modifies `queue, `wire
      ensures View() == Enqueue(old(View()), p, via, now)
    {
      var k := GetFromQueue(via.hop);
      if k == |queue| {
        queue := queue + [Waiting(via.hop, via.iface, 1, now, [p], |wire|)];
        wire := wire + [Request(via.hop, via.iface)];
      } else {
        queue := queue[k := queue[k].(packets := queue[k].packets + [p])];
      }
    }

    /** send_ip. */
    method SendPacket(p: Packet, via: Via, now: int)
      modifies `queue, `wire
      ensures View() == Dispatch(old(View()), p, via, now)
    {
      var k := cache.FindEntry(via.hop);
      if k < |cache.entries| {
        wire := wire + [Sent(p, via.hop, cache.entries[k].mac, via.iface)];
      } else {
        QueueAdd(p, via, now);
      }
    }

    /** send_icmp_packet, called only for packets that deserve an error. */
    method SendError(env: Env, p: Packet, now: int)
      modifies `queue, `wire, `given
      ensures View() == if Deserves(env, p) then Bounce(old(View()), env, p, now) else old(View())
    {
      if Deserves(env, p) {
        var found := env.route(p.src);
        if found.Some? {
          var error := ErrorFor(env, p, found.value);
          given := given + [Given(error, found.value.hop)];
          SendPacket(error, found.value, now);
        }
      }
    }

    /** The inner loop of send_queued_packets: the entry's packets leave one by one, then it is removed. */
    method FlushEntry(n: nat, now: int)
      requires n < |queue| && MacOf(cache.entries, queue[n].hop).Some?
      modifies `queue, `wire
      ensures queue == Removed(old(queue), n)
      ensures var e := old(queue)[n];
              wire == old(wire) + Frames(e.packets, e.hop, MacOf(cache.entries, e.hop).value, e.iface)
    {
      hide Find, Position;
      ghost var all, mac := queue[n].packets, MacOf(cache.entries, queue[n].hop).value;
      ghost var m := 0;
      var via := Via(queue[n].hop, queue[n].iface);
      while queue[n].packets != []
        invariant m <= |all| && n < |queue|
        invariant queue == old(queue)[n := old(queue)[n].(packets := all[m..])]
        invariant wire == old(wire) + Frames(all[..m], via.hop, mac, via.iface)
        decreases |all| - m
      {
        SendPacket(queue[n].packets[0], via, now);
        queue := queue[n := queue[n].(packets := queue[n].packets[1..])];
        assert all[..m + 1][..m] == all[..m];
        m := m + 1;
      }
      assert all[..m] == all;
      queue := queue[..n] + queue[n + 1..];
    }

    /** process_arp_reply: learn the address, then walk the queue (send_queued_packets). */
    method ProcessReply(ip: Ip, mac: Mac, now: int)
      requires cache.Synced() && UniqueHops(queue)
      modifies `queue, `wire, cache`entries, cache.rows
      ensures cache.Synced() && View() == Reply(old(View()), ip, mac, now)
    {
      hide Updated, Position, MacOf, Frames, Image;
      cache.Update(ip, mac, false, now);
      LearnedMac(old(cache.entries), ip, mac, now, ip);
      var n := 0;
      ghost var flushed := false;
      while n < |queue|
        invariant n <= |queue| && cache.Synced()
        invariant cache.entries == Updated(old(cache.entries), ip, mac, false, now)
        invariant given == old(given) && dropped == old(dropped)
        invariant !flushed ==> queue == old(queue) && wire == old(wire)
        invariant forall j :: 0 <= j < (if flushed then |queue| else n) ==> queue[j].hop != ip
        invariant flushed ==>
                    var k := Position(old(queue), ip);
                    && k < |old(queue)| && queue == Removed(old(queue), k)
                    && wire == old(wire) + Frames(old(queue)[k].packets, ip, mac, old(queue)[k].iface)
        decreases |queue| - n
      {
        if queue[n].hop == ip {
          FlushEntry(n, now);
          flushed := true;
        } else {
          n := n + 1;
        }
      }
    }

    /** The give-up loop of process_arp_queue for entry `i`. */
    method GiveUpOn(env: Env, i: nat, now: int)
      requires i < |queue|
      modifies `queue, `wire, `given, `dropped
      ensures View() == GiveUp(old(View()), env, i, now)
    {
      hide Bounce, Deserving;
      while queue[i].packets != []
        invariant i < |queue| && cache.entries == old(cache.entries)
        invariant Drain(View(), env, i, now) == Drain(old(View()), env, i, now)
        decreases Deserving(env, queue[i].packets) + |queue[i].packets|
      {
        ghost var before := View();
        var p := queue[i].packets[0];
        BounceAppends(before, env, p, now, i);
        SendError(env, p, now);
        BounceUndeserved(before, env, p, now);
        assert queue[i].packets[0] == p;
        dropped := dropped + [p];
        queue := queue[i := queue[i].(packets := queue[i].packets[1..])];
        assert View() == BounceHead(before, env, i, now);
      }
      queue := queue[..i] + queue[i + 1..];
    }

    /** process_arp_queue. */
    method ProcessQueue(env: Env, now: int)
      modifies `queue, `wire, `given, `dropped
      ensures View() == Sweep(old(View()), env, 0, now)
    {
      hide GiveUp, Load;
      var i, more := 0, queue != [];
      while more
        invariant i <= |queue| && (more ==> i < |queue|) && cache.entries == old(cache.entries)
        invariant Sweep(old(View()), env, 0, now) == if more then Sweep(View(), env, i, now) else View()
        decreases if more then 1 + Load(env, queue[i..]) else 0
      {
        ghost var before := View();
        var e := queue[i];
        more := i + 1 < |queue|;
        LoadRest(env, queue, i);
        if now - e.lastRequest > 1 {
          if e.requests < MAX_REQUESTS {
            RetryLoad(before, env, i, now);
            queue := queue[i := e.(requests := e.requests + 1, lastRequest := now)];
            wire := wire + [Request(e.hop, e.iface)];
            assert View() == Retry(before, i, now);
            i := i + 1;
          } else {
            GiveUpLoad(before, env, i, now);
            GiveUpOn(env, i, now);
          }
        } else {
          i := i + 1;
        }
      }
    }
  }

  lemma BounceUndeserved(st: State, env: Env, p: Packet, now: int)
    ensures !Deserves(env, p) ==> Bounce(st, env, p, now) == st
  {
  }
}
