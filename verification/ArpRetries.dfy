/**
 When the ARP queue asks again and when it gives up: what a sweep does to each entry, and, over every
 run, that packets are only dropped after five requests for their hop.
 */
module ArpRetries {
  import opened Net
  import opened ArpCache
  import opened ArpQueue

  // ---------------------------------------------------------------- requests on the wire

  /** How many requests for this hop the frames contain. */
  function Asked(wire: seq<Frame>, hop: Ip, iface: string): nat {
    if wire == [] then
      0
    else
      Asked(wire[..|wire| - 1], hop, iface) + if wire[|wire| - 1] == Request(hop, iface) then 1 else 0
  }

  /** The entry's counter is the number of requests sent since it was opened. */
  predicate Counted(wire: seq<Frame>, e: Waiting) {
    e.since <= |wire| && Asked(wire[e.since..], e.hop, e.iface) == e.requests
  }

  predicate AllCounted(st: State) {
    forall k :: 0 <= k < |st.queue| ==> Counted(st.wire, st.queue[k])
  }

  lemma AskedSnoc(wire: seq<Frame>, f: Frame, e: Waiting)
    requires e.since <= |wire|
    ensures Asked((wire + [f])[e.since..], e.hop, e.iface) ==
            Asked(wire[e.since..], e.hop, e.iface) + if f == Request(e.hop, e.iface) then 1 else 0
  {
    var tail := (wire + [f])[e.since..];
    assert tail == wire[e.since..] + [f] && tail[..|tail| - 1] == wire[e.since..];
  }

  lemma {:induction false} AskedFrames(wire: seq<Frame>, ps: seq<Packet>, to: Ip, mac: Mac, iface: string, e: Waiting)
    requires Counted(wire, e)
    ensures Counted(wire + Frames(ps, to, mac, iface), e)
  {
    hide Asked, Frames;
    FramesSnoc(wire, ps, to, mac, iface);
    if ps != [] {
      var before := wire + Frames(ps[..|ps| - 1], to, mac, iface);
      AskedFrames(wire, ps[..|ps| - 1], to, mac, iface, e);
      AskedSnoc(before, Sent(ps[|ps| - 1], to, mac, iface), e);
    }
  }

  lemma OpenedIsCounted(wire: seq<Frame>, e: Waiting)
    requires e.since == |wire| && e.requests == 1
    ensures Counted(wire + [Request(e.hop, e.iface)], e)
  {
    assert wire[|wire|..] == [] && Asked([], e.hop, e.iface) == 0;
    AskedSnoc(wire, Request(e.hop, e.iface), e);
  }

  lemma SendIpCounts(st: State, p: Packet, via: Via, now: int)
    requires AllCounted(st) && UniqueHops(st.queue)
    ensures AllCounted(SendIp(st, p, via, now))
  {
    hide Asked, Position, MacOf;
    var out, q := SendIp(st, p, via, now), st.queue;
    var added := Waiting(via.hop, via.iface, 1, now, [p], |st.wire|);
    OpenedIsCounted(st.wire, added);
    forall k | 0 <= k < |out.queue| ensures Counted(out.wire, out.queue[k]) {
      if k < |q| {
        assert Counted(st.wire, q[k]);
        if out.wire != st.wire {
          AskedSnoc(st.wire, out.wire[|st.wire|], q[k]);
        }
      }
    }
  }

  lemma BounceCounts(st: State, env: Env, p: Packet, now: int)
    requires AllCounted(st) && UniqueHops(st.queue)
    ensures AllCounted(Bounce(st, env, p, now))
  {
    hide SendIp, AllCounted;
    match Answer(env, p)
    case None =>
    case Some(via) => SendIpCounts(st, ErrorFor(env, p, via), via, now);
  }

  lemma DropCounts(st: State, i: nat)
    requires AllCounted(st) && i < |st.queue| && st.queue[i].packets != []
    ensures AllCounted(DropHead(st, i))
  {
    hide Asked;
    forall k | 0 <= k < |st.queue| ensures Counted(st.wire, DropHead(st, i).queue[k]) {
      assert Counted(st.wire, st.queue[k]);
    }
  }

  lemma {:induction false} DrainCounts(st: State, env: Env, i: nat, now: int)
    requires AllCounted(st) && Sound(st) && BusyBut(st.queue, i) && i < |st.queue|
    ensures AllCounted(Drain(st, env, i, now))
    decreases Deserving(env, st.queue[i].packets) + |st.queue[i].packets|
  {
    hide AllCounted, Conserved, BusyBut, Bounce, DropHead;
    if st.queue[i].packets != [] {
      BounceHeadCounts(st, env, i, now);
      BounceHeadKeeps(st, env, i, now);
      DrainCounts(BounceHead(st, env, i, now), env, i, now);
    }
  }

  lemma BounceHeadCounts(st: State, env: Env, i: nat, now: int)
    requires AllCounted(st) && UniqueHops(st.queue) && i < |st.queue| && st.queue[i].packets != []
    ensures AllCounted(BounceHead(st, env, i, now))
  {
    hide AllCounted, Bounce, DropHead;
    BounceAppends(st, env, st.queue[i].packets[0], now, i);
    BounceCounts(st, env, st.queue[i].packets[0], now);
    DropCounts(Bounce(st, env, st.queue[i].packets[0], now), i);
  }

  lemma RemoveCounts(st: State, i: nat)
    requires AllCounted(st) && i < |st.queue|
    ensures AllCounted(st.(queue := Removed(st.queue, i)))
  {
    hide Counted;
  }

  lemma RetryCounts(st: State, i: nat, now: int)
    requires AllCounted(st) && UniqueHops(st.queue) && i < |st.queue|
    ensures AllCounted(Retry(st, i, now))
  {
    hide Asked;
    var out := Retry(st, i, now);
    forall k | 0 <= k < |out.queue| ensures Counted(out.wire, out.queue[k]) {
      assert Counted(st.wire, st.queue[k]);
      AskedSnoc(st.wire, Request(st.queue[i].hop, st.queue[i].iface), st.queue[k]);
    }
  }

  lemma {:induction false} SweepCounts(st: State, env: Env, i: nat, now: int)
    requires AllCounted(st) && Sound(st) && Busy(st.queue) && i <= |st.queue|
    ensures AllCounted(Sweep(st, env, i, now))
    decreases Load(env, st.queue[i..])
  {
    hide AllCounted, Conserved, GiveUp, Load, Retry, Busy;
    if i < |st.queue| {
      if now - st.queue[i].lastRequest <= 1 {
        LoadRest(env, st.queue, i);
        SweepCounts(st, env, i + 1, now);
      } else if st.queue[i].requests < MAX_REQUESTS {
        RetryLoad(st, env, i, now);
        RetryKeeps(st, i, now);
        RetryCounts(st, i, now);
        SweepCounts(Retry(st, i, now), env, i + 1, now);
      } else {
        GiveUpLoad(st, env, i, now);
        GiveUpKeeps(st, env, i, now);
        GiveUpCounts(st, env, i, now);
        if i + 1 < |st.queue| {
          SweepCounts(GiveUp(st, env, i, now), env, i, now);
        }
      }
    }
  }

  lemma GiveUpCounts(st: State, env: Env, i: nat, now: int)
    requires AllCounted(st) && Sound(st) && Busy(st.queue) && i < |st.queue|
    ensures AllCounted(GiveUp(st, env, i, now))
  {
    hide AllCounted, Sound, Drain, Removed;
    DrainCounts(st, env, i, now);
    RemoveCounts(Drain(st, env, i, now), i);
  }

  lemma ReplyCounts(st: State, ip: Ip, mac: Mac, now: int)
    requires AllCounted(st)
    ensures AllCounted(Reply(st, ip, mac, now))
  {
    hide Counted, Updated, Frames, Position;
    var out, k := Reply(st, ip, mac, now), Position(st.queue, ip);
    if k < |st.queue| {
      forall j | 0 <= j < |out.queue| ensures Counted(out.wire, out.queue[j]) {
        var e := st.queue[if j < k then j else j + 1];
        assert out.queue[j] == e && Counted(st.wire, e);
        AskedFrames(st.wire, st.queue[k].packets, ip, mac, st.queue[k].iface, e);
      }
    }
  }

  lemma StepCounts(st: State, ev: Event)
    requires AllCounted(st) && Sound(st) && Busy(st.queue)
    ensures AllCounted(Step(st, ev))
  {
    hide Conserved, Busy, SendIp, Reply, Sweep, Kept, Updated, Counted;
    match ev
    case Hand(p, via, now) => SendIpCounts(st, p, via, now);
    case Answered(ip, mac, now) => ReplyCounts(st, ip, mac, now);
    case Tick(env, now) => SweepCounts(st, env, 0, now);
    case Expired(now, ttl) =>
    case AddStatic(ip, mac, now) =>
  }

  /** Over every run the counter of each entry is the number of requests on the wire since it was opened. */
  lemma {:induction false} RunCounts(st: State, evs: seq<Event>)
    requires AllCounted(st) && Sound(st) && Busy(st.queue)
    ensures AllCounted(Run(st, evs)) && Sound(Run(st, evs)) && Busy(Run(st, evs).queue)
    decreases |evs|
  {
    hide AllCounted, Sound, Busy, Step;
    if evs != [] {
      StepKeeps(st, evs[0]);
      StepCounts(st, evs[0]);
      RunCounts(Step(st, evs[0]), evs[1..]);
    }
  }

  // ---------------------------------------------------------------- what a sweep does to an entry

  /** Entry `k` is `e`, perhaps with more packets behind those it had. */
  predicate At(queue: seq<Waiting>, k: int, e: Waiting) {
    && 0 <= k < |queue| && queue[k] == e.(packets := queue[k].packets)
    && |e.packets| <= |queue[k].packets| && queue[k].packets[..|e.packets|] == e.packets
  }

  ghost predicate Holds(queue: seq<Waiting>, e: Waiting) {
    exists k :: At(queue, k, e)
  }

  lemma HeldAt(queue: seq<Waiting>, k: int, e: Waiting)
    requires At(queue, k, e)
    ensures Holds(queue, e)
  {
    hide At;
  }

  lemma SendIpAt(st: State, p: Packet, via: Via, now: int, k: nat, e: Waiting)
    requires At(st.queue, k, e)
    ensures At(SendIp(st, p, via, now).queue, k, e)
  {
    hide Position, MacOf;
  }

  lemma BounceKeepsAt(st: State, env: Env, p: Packet, now: int, k: nat, e: Waiting)
    requires At(st.queue, k, e)
    ensures At(Bounce(st, env, p, now).queue, k, e)
  {
    hide SendIp, At;
    match Answer(env, p)
    case None =>
    case Some(via) => SendIpAt(st, ErrorFor(env, p, via), via, now, k, e);
  }

  lemma {:induction false} DrainAt(st: State, env: Env, i: nat, now: int, k: nat, e: Waiting)
    requires i < |st.queue| && k != i && At(st.queue, k, e)
    ensures At(Drain(st, env, i, now).queue, k, e)
    decreases Deserving(env, st.queue[i].packets) + |st.queue[i].packets|
  {
    hide Bounce;
    if st.queue[i].packets != [] {
      BounceAppends(st, env, st.queue[i].packets[0], now, i);
      BounceKeepsAt(st, env, st.queue[i].packets[0], now, k, e);
      DrainAt(BounceHead(st, env, i, now), env, i, now, k, e);
    }
  }

  lemma GiveUpAt(st: State, env: Env, i: nat, now: int, k: nat, e: Waiting)
    requires i < |st.queue| && k != i && At(st.queue, k, e)
    ensures At(GiveUp(st, env, i, now).queue, if k < i then k else k - 1, e)
  {
    hide Drain;
    DrainAt(st, env, i, now, k, e);
  }

  /** An entry the sweep has passed stays as it is, but for packets that join it. */
  lemma {:induction false} SweepPassed(st: State, env: Env, i: nat, now: int, k: nat, e: Waiting)
    requires k < i <= |st.queue| && At(st.queue, k, e)
    ensures Holds(Sweep(st, env, i, now).queue, e)
    decreases Load(env, st.queue[i..])
  {
    hide GiveUp, Load, At, Holds, Retry;
    HeldAt(st.queue, k, e);
    if i < |st.queue| {
      if now - st.queue[i].lastRequest <= 1 {
        LoadRest(env, st.queue, i);
        SweepPassed(st, env, i + 1, now, k, e);
      } else if st.queue[i].requests < MAX_REQUESTS {
        RetryLoad(st, env, i, now);
        RetryAt(st, i, now, k, e);
        SweepPassed(Retry(st, i, now), env, i + 1, now, k, e);
      } else {
        GiveUpLoad(st, env, i, now);
        GiveUpAt(st, env, i, now, k, e);
        if i + 1 < |st.queue| {
          SweepPassed(GiveUp(st, env, i, now), env, i, now, k, e);
        } else {
          HeldAt(GiveUp(st, env, i, now).queue, k, e);
        }
      }
    }
  }

  lemma RetryAt(st: State, i: nat, now: int, k: nat, e: Waiting)
    requires i < |st.queue| && At(st.queue, k, e)
    ensures k != i ==> At(Retry(st, i, now).queue, k, e)
    ensures k == i ==> At(Retry(st, i, now).queue, k, e.(requests := e.requests + 1, lastRequest := now))
  {
  }

  /** No entry for the hop, or one that was opened just now. */
  predicate Renewed(queue: seq<Waiting>, hop: Ip, now: int) {
    forall k :: 0 <= k < |queue| && queue[k].hop == hop ==> queue[k].requests == 1 && queue[k].lastRequest == now
  }

  /** What becomes of an entry that the sweep reaches. */
  ghost predicate Fate(out: State, e: Waiting, now: int, dropped: seq<Packet>) {
    if now - e.lastRequest <= 1 then
      Holds(out.queue, e)
    else if e.requests < 5 then
      Holds(out.queue, e.(requests := e.requests + 1, lastRequest := now))
    else
      Renewed(out.queue, e.hop, now) && exists j :: SliceOf(out.dropped, j, e.packets) && j >= |dropped|
  }

  /** `part` is in `all` from position `j` on. */
  predicate SliceOf<T(==)>(all: seq<T>, j: int, part: seq<T>) {
    0 <= j && j + |part| <= |all| && all[j..j + |part|] == part
  }

  lemma SendIpRenewed(st: State, p: Packet, via: Via, now: int, hop: Ip)
    requires Renewed(st.queue, hop, now)
    ensures Renewed(SendIp(st, p, via, now).queue, hop, now)
  {
    hide Position, MacOf;
    var q, q' := st.queue, SendIp(st, p, via, now).queue;
    forall k | 0 <= k < |q'| && q'[k].hop == hop ensures q'[k].requests == 1 && q'[k].lastRequest == now {
      if k < |q| {
        assert q'[k] == q[k].(packets := q'[k].packets);
      }
    }
  }

  lemma {:induction false} DrainRenewed(st: State, env: Env, i: nat, now: int, hop: Ip)
    requires i < |st.queue| && Renewed(st.queue, hop, now)
    ensures Renewed(Drain(st, env, i, now).queue, hop, now)
    decreases Deserving(env, st.queue[i].packets) + |st.queue[i].packets|
  {
    hide SendIp;
    if st.queue[i].packets != [] {
      var p := st.queue[i].packets[0];
      BounceAppends(st, env, p, now, i);
      if Answer(env, p).Some? {
        var via := Answer(env, p).value;
        SendIpRenewed(st, ErrorFor(env, p, via), via, now, hop);
      }
      DrainRenewed(BounceHead(st, env, i, now), env, i, now, hop);
    }
  }

  lemma {:induction false} SweepRenewed(st: State, env: Env, i: nat, now: int, hop: Ip)
    requires i <= |st.queue| && Renewed(st.queue, hop, now)
    ensures Renewed(Sweep(st, env, i, now).queue, hop, now)
    decreases Load(env, st.queue[i..])
  {
    hide Drain, Load;
    if i < |st.queue| {
      if now - st.queue[i].lastRequest <= 1 {
        LoadRest(env, st.queue, i);
        SweepRenewed(st, env, i + 1, now, hop);
      } else if st.queue[i].requests < MAX_REQUESTS {
        RetryLoad(st, env, i, now);
        SweepRenewed(Retry(st, i, now), env, i + 1, now, hop);
      } else {
        GiveUpLoad(st, env, i, now);
        DrainRenewed(st, env, i, now, hop);
        if i + 1 < |st.queue| {
          SweepRenewed(GiveUp(st, env, i, now), env, i, now, hop);
        }
      }
    }
  }

  /** The drain drops the entry's packets first, in order; what it drops besides are errors. */
  lemma {:induction false} DrainDrops(st: State, env: Env, i: nat, now: int)
    requires i < |st.queue|
    ensures var out, ps := Drain(st, env, i, now), st.queue[i].packets;
            && st.dropped + ps <= out.dropped
            && forall j :: |st.dropped + ps| <= j < |out.dropped| ==> out.dropped[j].body.Quote?
    decreases Deserving(env, st.queue[i].packets) + |st.queue[i].packets|
  {
    hide BounceHead;
    var ps := st.queue[i].packets;
    if ps != [] {
      var joined := HeadDrops(st, env, i, now);
      DrainDrops(BounceHead(st, env, i, now), env, i, now);
      DropsInOrder(st.dropped, ps, joined, Drain(st, env, i, now).dropped);
    }
  }

  lemma HeadDrops(st: State, env: Env, i: nat, now: int) returns (joined: seq<Packet>)
    requires i < |st.queue| && st.queue[i].packets != []
    ensures var next, ps := BounceHead(st, env, i, now), st.queue[i].packets;
            && next.dropped == st.dropped + [ps[0]] && next.queue[i].packets == ps[1..] + joined
            && forall x :: x in joined ==> x.body.Quote?
  {
    hide Bounce;
    var ps := st.queue[i].packets;
    BounceJoins(st, env, ps[0], now, i);
    var all := Bounce(st, env, ps[0], now).queue[i].packets;
    joined := all[|ps|..];
    assert all[1..] == ps[1..] + joined;
  }

  lemma DropsInOrder(before: seq<Packet>, ps: seq<Packet>, joined: seq<Packet>, all: seq<Packet>)
    requires ps != [] && before + [ps[0]] + (ps[1..] + joined) <= all && forall x :: x in joined ==> x.body.Quote?
    requires forall j :: |before + [ps[0]] + (ps[1..] + joined)| <= j < |all| ==> all[j].body.Quote?
    ensures before + ps <= all && forall j :: |before + ps| <= j < |all| ==> all[j].body.Quote?
  {
    var first := before + ps + joined;
    assert first == before + [ps[0]] + (ps[1..] + joined);
    forall j | |before + ps| <= j < |all| ensures all[j].body.Quote? {
      if j < |first| {
        assert all[j] == first[j] == joined[j - |before + ps|];
      }
    }
  }

  /** Bouncing a packet adds at most an error to a list, and drops nothing. */
  lemma BounceJoins(st: State, env: Env, p: Packet, now: int, i: nat)
    requires i < |st.queue|
    ensures var out := Bounce(st, env, p, now);
            && |st.queue| <= |out.queue| && out.dropped == st.dropped
            && (out.queue[i].packets == st.queue[i].packets
                || exists e: Packet :: e.body.Quote? && out.queue[i].packets == st.queue[i].packets + [e])
  {
    hide Position, MacOf;
    if Answer(env, p).Some? {
      var via := Answer(env, p).value;
      var e := ErrorFor(env, p, via);
      assert e.body.Quote?;
    }
  }

  lemma {:induction false} SweepDropsMore(st: State, env: Env, i: nat, now: int)
    requires i <= |st.queue|
    ensures st.dropped <= Sweep(st, env, i, now).dropped
    decreases Load(env, st.queue[i..])
  {
    hide Drain, Load;
    if i < |st.queue| {
      if now - st.queue[i].lastRequest <= 1 {
        LoadRest(env, st.queue, i);
        SweepDropsMore(st, env, i + 1, now);
      } else if st.queue[i].requests < MAX_REQUESTS {
        RetryLoad(st, env, i, now);
        SweepDropsMore(Retry(st, i, now), env, i + 1, now);
      } else {
        GiveUpLoad(st, env, i, now);
        DrainDrops(st, env, i, now);
        if i + 1 < |st.queue| {
          SweepDropsMore(GiveUp(st, env, i, now), env, i, now);
        }
      }
    }
  }

  /**
   A sweep leaves an entry alone for a second after its last request; then it asks again, up to five
   times; then it drops the entry with its packets.
   */
  lemma {:induction false} SweepDecides(st: State, env: Env, i: nat, now: int, k: nat, e: Waiting)
    requires Sound(st) && Busy(st.queue) && i <= k && At(st.queue, k, e)
    ensures Fate(Sweep(st, env, i, now), e, now, st.dropped)
    decreases Load(env, st.queue[i..])
  {
    hide GiveUp, Load, At, Holds, Sound, Busy, Fate, Retry;
    AtFields(st.queue, k, e);
    if now - st.queue[i].lastRequest <= 1 {
      LoadRest(env, st.queue, i);
      if i == k {
        SweepPassed(st, env, i + 1, now, k, e);
        Spared(Sweep(st, env, i, now), e, now, st.dropped);
      } else {
        SweepDecides(st, env, i + 1, now, k, e);
      }
    } else if st.queue[i].requests < MAX_REQUESTS {
      RetryLoad(st, env, i, now);
      RetryKeeps(st, i, now);
      RetryAt(st, i, now, k, e);
      if i == k {
        SweepPassed(Retry(st, i, now), env, i + 1, now, k, e.(requests := e.requests + 1, lastRequest := now));
        Retried(Sweep(st, env, i, now), e, now, st.dropped);
      } else {
        SweepDecides(Retry(st, i, now), env, i + 1, now, k, e);
        RetryDropsNothing(st, i, now);
      }
    } else {
      GiveUpLoad(st, env, i, now);
      GiveUpKeeps(st, env, i, now);
      if i == k {
        GivenUp(st, env, i, now, e);
      } else {
        GiveUpAt(st, env, i, now, k, e);
        SweepDecides(GiveUp(st, env, i, now), env, i, now, k - 1, e);
        GiveUpDrops(st, env, i, now);
        FateBefore(Sweep(st, env, i, now), e, now, st.dropped, GiveUp(st, env, i, now).dropped);
      }
    }
  }

  lemma AtFields(queue: seq<Waiting>, k: nat, e: Waiting)
    requires At(queue, k, e)
    ensures k < |queue| && queue[k].lastRequest == e.lastRequest && queue[k].requests == e.requests && queue[k].hop == e.hop
  {
  }

  lemma Spared(out: State, e: Waiting, now: int, dropped: seq<Packet>)
    requires now - e.lastRequest <= 1 && Holds(out.queue, e)
    ensures Fate(out, e, now, dropped)
  {
  }

  lemma Retried(out: State, e: Waiting, now: int, dropped: seq<Packet>)
    requires now - e.lastRequest > 1 && e.requests < 5
    requires Holds(out.queue, e.(requests := e.requests + 1, lastRequest := now))
    ensures Fate(out, e, now, dropped)
  {
  }

  lemma RetryDropsNothing(st: State, i: nat, now: int)
    requires i < |st.queue|
    ensures Retry(st, i, now).dropped == st.dropped
  {
  }

  lemma GiveUpDrops(st: State, env: Env, i: nat, now: int)
    requires i < |st.queue|
    ensures st.dropped + st.queue[i].packets <= GiveUp(st, env, i, now).dropped
  {
    hide Drain;
    DrainDrops(st, env, i, now);
  }

  lemma FateBefore(out: State, e: Waiting, now: int, dropped: seq<Packet>, later: seq<Packet>)
    requires Fate(out, e, now, later) && |dropped| <= |later|
    ensures Fate(out, e, now, dropped)
  {
    hide SliceOf, Holds, Renewed;
  }

  lemma GivenUp(st: State, env: Env, i: nat, now: int, e: Waiting)
    requires Sound(st) && Busy(st.queue) && At(st.queue, i, e)
    requires now - e.lastRequest > 1 && e.requests >= MAX_REQUESTS
    ensures Fate(Sweep(st, env, i, now), e, now, st.dropped)
  {
    hide GiveUp, Load, Sound, Busy, Renewed;
    var gone, out := GiveUp(st, env, i, now), Sweep(st, env, i, now);
    GiveUpLoad(st, env, i, now);
    GiveUpDrops(st, env, i, now);
    GiveUpRenews(st, env, i, now);
    if i + 1 < |st.queue| {
      SweepRenewed(gone, env, i, now, e.hop);
      SweepDropsMore(gone, env, i, now);
    }
    SliceStays(st.dropped, st.queue[i].packets, out.dropped, e.packets);
  }

  lemma SliceStays<T>(before: seq<T>, ps: seq<T>, all: seq<T>, part: seq<T>)
    requires before + ps <= all && |part| <= |ps| && ps[..|part|] == part
    ensures SliceOf(all, |before|, part)
  {
    forall x | 0 <= x < |part| ensures all[|before| + x] == part[x] {
      assert (before + ps)[|before| + x] == ps[x] && ps[..|part|][x] == ps[x];
    }
  }

  lemma GiveUpRenews(st: State, env: Env, i: nat, now: int)
    requires Sound(st) && Busy(st.queue) && i < |st.queue|
    ensures Renewed(GiveUp(st, env, i, now).queue, st.queue[i].hop, now)
  {
    hide Conserved, Drain;
    DrainKeeps(st, env, i, now);
    DrainHop(st, env, i, now);
    var q := Drain(st, env, i, now).queue;
    assert forall k :: 0 <= k < |Removed(q, i)| ==> Removed(q, i)[k] == q[if k < i then k else k + 1];
  }

  lemma {:induction false} DrainHop(st: State, env: Env, i: nat, now: int)
    requires i < |st.queue|
    ensures Drain(st, env, i, now).queue[i].hop == st.queue[i].hop
    decreases Deserving(env, st.queue[i].packets) + |st.queue[i].packets|
  {
    hide Bounce;
    if st.queue[i].packets != [] {
      BounceAppends(st, env, st.queue[i].packets[0], now, i);
      DrainHop(BounceHead(st, env, i, now), env, i, now);
    }
  }

  // ---------------------------------------------------------------- only after five requests

  /** An entry that the sweep would give up on, and that held the packet, unless the packet is an error of ours. */
  predicate Exhausted(e: Waiting, now: int, p: Packet) {
    e.requests >= 5 && now - e.lastRequest > 1 && (p in e.packets || p.body.Quote?)
  }

  ghost predicate Excused(queue: seq<Waiting>, now: int, p: Packet) {
    exists k :: 0 <= k < |queue| && Exhausted(queue[k], now, p)
  }

  /** During a sweep entries are asked for anew or opened just now, or are as they were, but for errors that join. */
  ghost predicate Derived(queue: seq<Waiting>, queue': seq<Waiting>, now: int) {
    forall k :: 0 <= k < |queue'| && now - queue'[k].lastRequest > 1 ==> exists j :: From(queue, j, queue'[k])
  }

  predicate From(queue: seq<Waiting>, j: int, e: Waiting) {
    && 0 <= j < |queue| && queue[j].requests == e.requests && queue[j].lastRequest == e.lastRequest
    && forall p :: p in e.packets ==> p in queue[j].packets || p.body.Quote?
  }

  lemma DerivedTrans(a: seq<Waiting>, b: seq<Waiting>, c: seq<Waiting>, now: int)
    requires Derived(a, b, now) && Derived(b, c, now)
    ensures Derived(a, c, now)
  {
    hide From;
    forall k | 0 <= k < |c| && now - c[k].lastRequest > 1 ensures exists j :: From(a, j, c[k]) {
      var j :| From(b, j, c[k]);
      SameTimes(b, j, c[k]);
      var i :| From(a, i, b[j]);
      FromTrans(a, i, b, j, c[k]);
    }
  }

  lemma SameTimes(queue: seq<Waiting>, j: int, e: Waiting)
    requires From(queue, j, e)
    ensures 0 <= j < |queue| && queue[j].lastRequest == e.lastRequest
  {
  }

  lemma FromTrans(a: seq<Waiting>, i: int, b: seq<Waiting>, j: int, e: Waiting)
    requires From(b, j, e) && From(a, i, b[j])
    ensures From(a, i, e)
  {
  }

  lemma DerivedSame(queue: seq<Waiting>, now: int)
    ensures Derived(queue, queue, now)
  {
    forall k | 0 <= k < |queue| ensures From(queue, k, queue[k]) { }
  }

  lemma ExcusedBefore(queue: seq<Waiting>, queue': seq<Waiting>, now: int, p: Packet)
    requires Derived(queue, queue', now) && Excused(queue', now, p)
    ensures Excused(queue, now, p)
  {
    var k :| 0 <= k < |queue'| && Exhausted(queue'[k], now, p);
    var j :| From(queue, j, queue'[k]);
    assert Exhausted(queue[j], now, p);
  }

  lemma SendErrorDerived(st: State, p: Packet, via: Via, now: int)
    requires p.body.Quote?
    ensures Derived(st.queue, SendIp(st, p, via, now).queue, now)
  {
    hide Position, MacOf;
    var q, q' := st.queue, SendIp(st, p, via, now).queue;
    forall k | 0 <= k < |q'| && now - q'[k].lastRequest > 1 ensures exists j :: From(q, j, q'[k]) {
      assert From(q, k, q'[k]);
    }
  }

  lemma DropDerived(st: State, i: nat, now: int)
    requires i < |st.queue| && st.queue[i].packets != []
    ensures Derived(st.queue, DropHead(st, i).queue, now)
  {
    var q, q' := st.queue, DropHead(st, i).queue;
    forall k | 0 <= k < |q'| ensures From(q, k, q'[k]) { }
  }

  lemma BounceHeadDerived(st: State, env: Env, i: nat, now: int)
    requires i < |st.queue| && st.queue[i].packets != []
    ensures Derived(st.queue, BounceHead(st, env, i, now).queue, now)
  {
    hide SendIp, Derived, DropHead;
    var p := st.queue[i].packets[0];
    var mid := Bounce(st, env, p, now);
    BounceAppends(st, env, p, now, i);
    if Answer(env, p).Some? {
      var via := Answer(env, p).value;
      SendErrorDerived(st, ErrorFor(env, p, via), via, now);
    } else {
      DerivedSame(st.queue, now);
    }
    DropDerived(mid, i, now);
    DerivedTrans(st.queue, mid.queue, DropHead(mid, i).queue, now);
  }

  lemma {:induction false} DrainDerived(st: State, env: Env, i: nat, now: int)
    requires i < |st.queue|
    ensures Derived(st.queue, Drain(st, env, i, now).queue, now)
    decreases Deserving(env, st.queue[i].packets) + |st.queue[i].packets|
  {
    hide Derived, BounceHead;
    if st.queue[i].packets != [] {
      var next := BounceHead(st, env, i, now);
      BounceHeadDerived(st, env, i, now);
      DrainDerived(next, env, i, now);
      DerivedTrans(st.queue, next.queue, Drain(next, env, i, now).queue, now);
    } else {
      DerivedSame(st.queue, now);
    }
  }

  lemma GiveUpDerived(st: State, env: Env, i: nat, now: int)
    requires i < |st.queue|
    ensures Derived(st.queue, GiveUp(st, env, i, now).queue, now)
  {
    hide Drain, From;
    DrainDerived(st, env, i, now);
  }

  lemma RetryDerived(st: State, i: nat, now: int)
    requires i < |st.queue|
    ensures Derived(st.queue, Retry(st, i, now).queue, now)
  {
    var q, q' := st.queue, Retry(st, i, now).queue;
    forall k | 0 <= k < |q'| && k != i ensures From(q, k, q'[k]) { }
  }

  /** All that is dropped beyond the first `n` packets is excused. */
  ghost predicate DropsExcused(queue: seq<Waiting>, now: int, n: nat, dropped: seq<Packet>) {
    forall j :: n <= j < |dropped| ==> Excused(queue, now, dropped[j])
  }

  lemma ExcusedAllBefore(queue: seq<Waiting>, queue': seq<Waiting>, now: int, n: nat, dropped: seq<Packet>)
    requires Derived(queue, queue', now) && DropsExcused(queue', now, n, dropped)
    ensures DropsExcused(queue, now, n, dropped)
  {
    hide Derived, Excused;
    forall j | n <= j < |dropped| ensures Excused(queue, now, dropped[j]) {
      ExcusedBefore(queue, queue', now, dropped[j]);
    }
  }

  lemma GiveUpExcused(st: State, env: Env, i: nat, now: int)
    requires i < |st.queue| && now - st.queue[i].lastRequest > 1 && st.queue[i].requests >= MAX_REQUESTS
    ensures DropsExcused(st.queue, now, |st.dropped|, GiveUp(st, env, i, now).dropped)
  {
    hide Drain;
    DrainDrops(st, env, i, now);
    var out, ps := GiveUp(st, env, i, now), st.queue[i].packets;
    forall j | |st.dropped| <= j < |out.dropped| ensures Excused(st.queue, now, out.dropped[j]) {
      if j < |st.dropped + ps| {
        assert out.dropped[j] == ps[j - |st.dropped|];
      }
      assert Exhausted(st.queue[i], now, out.dropped[j]);
    }
  }

  /** A sweep drops only packets of entries asked for five times, and errors that joined them. */
  lemma {:induction false} SweepExcused(st: State, env: Env, i: nat, now: int)
    requires i <= |st.queue|
    ensures DropsExcused(st.queue, now, |st.dropped|, Sweep(st, env, i, now).dropped)
    decreases Load(env, st.queue[i..])
  {
    hide GiveUp, Load, Derived, Excused, Retry;
    if i < |st.queue| {
      if now - st.queue[i].lastRequest <= 1 {
        LoadRest(env, st.queue, i);
        SweepExcused(st, env, i + 1, now);
      } else if st.queue[i].requests < MAX_REQUESTS {
        RetryLoad(st, env, i, now);
        RetryDerived(st, i, now);
        RetryDropsNothing(st, i, now);
        SweepExcused(Retry(st, i, now), env, i + 1, now);
        ExcusedAllBefore(st.queue, Retry(st, i, now).queue, now, |st.dropped|, Sweep(st, env, i, now).dropped);
      } else {
        GiveUpLoad(st, env, i, now);
        GiveUpExcused(st, env, i, now);
        var gone := GiveUp(st, env, i, now);
        GiveUpDerived(st, env, i, now);
        if i + 1 < |st.queue| {
          SweepExcused(gone, env, i, now);
          SweepDropsMore(gone, env, i, now);
          ExcusedAllBefore(st.queue, gone.queue, now, |gone.dropped|, Sweep(gone, env, i, now).dropped);
        }
      }
    }
  }

  lemma OnlySweepsDrop(st: State, ev: Event)
    requires !ev.Tick?
    ensures Step(st, ev).dropped == st.dropped
  {
    hide Position, MacOf, Kept, Updated, Frames;
  }

  /** An entry asked for five times on the wire since it was opened, which held the packet, or an error of ours. */
  ghost predicate FiveTimes(st: State, k: int, p: Packet) {
    && 0 <= k < |st.queue| && st.queue[k].since <= |st.wire|
    && Asked(st.wire[st.queue[k].since..], st.queue[k].hop, st.queue[k].iface) == 5
    && (p in st.queue[k].packets || p.body.Quote?)
  }

  /** Over every run: a packet is dropped only when its hop has been asked for five times since its entry was opened. */
  lemma DropsAfterFive(evs: seq<Event>, ev: Event, j: nat)
    requires |Run(INITIAL, evs).dropped| <= j < |Step(Run(INITIAL, evs), ev).dropped|
    ensures ev.Tick?
    ensures exists k :: FiveTimes(Run(INITIAL, evs), k, Step(Run(INITIAL, evs), ev).dropped[j])
  {
    hide Run, Sweep, Asked, Conserved, Busy, Excused, SendIp, Reply, Kept, Updated;
    var st := Run(INITIAL, evs);
    InitialKeeps();
    RunCounts(INITIAL, evs);
    if !ev.Tick? {
      OnlySweepsDrop(st, ev);
    } else {
      SweepExcused(st, ev.env, 0, ev.now);
      ExcusedFive(st, ev.now, Step(st, ev).dropped[j]);
    }
  }

  lemma ExcusedFive(st: State, now: int, p: Packet)
    requires Excused(st.queue, now, p) && AllCounted(st) && Tidy(st.queue)
    ensures exists k :: FiveTimes(st, k, p)
  {
    hide Asked, UniqueHops;
    var k :| 0 <= k < |st.queue| && Exhausted(st.queue[k], now, p);
    assert Counted(st.wire, st.queue[k]);
    assert FiveTimes(st, k, p);
  }
}
