/**
 Hello packets and neighbour time-outs. Our own interface list, which every LSU advertises,
 mirrors the neighbour tables: per interface subnet either one blank entry, or exactly one entry
 per neighbour.
 */
module Hello {
  import opened Net

  /** Our interfaces with their neighbours, and our own interface list. */
  datatype State = State(ifaces: seq<Iface>, links: seq<Link>, interval: nat)

  datatype Event =
    | Heard(k: nat, hint: nat, mask: Ip, src: Ip, rid: RouterId, now: int)
    | Tick(k: nat, now: int)

  predicate On(l: Link, i: Iface) {
    l.subnet == i.Subnet() && l.mask == i.mask
  }

  predicate SamePort(i: Iface, j: Iface) {
    i.Subnet() == j.Subnet() && i.mask == j.mask
  }

  predicate DistinctSubnets(ifaces: seq<Iface>) {
    forall j, k :: 0 <= j < k < |ifaces| ==> !SamePort(ifaces[j], ifaces[k])
  }

  /** The router ids our list gives for the subnet of `i`. */
  function LinkBag(links: seq<Link>, i: Iface): multiset<RouterId> {
    if links == [] then
      multiset{}
    else
      var last := links[|links| - 1];
      LinkBag(links[..|links| - 1], i) + if On(last, i) then multiset{last.rid} else multiset{}
  }

  function NbrBag(nbrs: seq<Nbr>): multiset<RouterId> {
    if nbrs == [] then multiset{} else NbrBag(nbrs[..|nbrs| - 1]) + multiset{nbrs[|nbrs| - 1].rid}
  }

  predicate MirrorsPort(links: seq<Link>, i: Iface) {
    LinkBag(links, i) == if i.nbrs == [] then multiset{0} else NbrBag(i.nbrs)
  }

  predicate NonzeroIds(nbrs: seq<Nbr>) {
    forall b :: b in nbrs ==> b.rid != 0
  }

  predicate OnSomePort(l: Link, ifaces: seq<Iface>) {
    exists k :: 0 <= k < |ifaces| && On(l, ifaces[k])
  }

  /** The list mirrors the neighbour tables, and has nothing else in it. */
  ghost predicate Mirror(s: State) {
    && DistinctSubnets(s.ifaces)
    && (forall k :: 0 <= k < |s.ifaces| ==> MirrorsPort(s.links, s.ifaces[k]))
    && (forall l :: l in s.links ==> OnSomePort(l, s.ifaces))
  }

  /** No neighbour in the tables has id 0. */
  predicate NonzeroTables(s: State) {
    forall k :: 0 <= k < |s.ifaces| ==> NonzeroIds(s.ifaces[k].nbrs)
  }

  /** Every interface subnet has an entry. */
  predicate Populated(s: State) {
    forall k :: 0 <= k < |s.ifaces| ==> |LinkBag(s.links, s.ifaces[k])| > 0
  }

  // ---------------------------------------------------------------- steps as values

  /** First entry on `i` for `rid`, or the length of the list. */
  function FirstOn(links: seq<Link>, i: Iface, rid: RouterId): (j: nat)
    ensures j <= |links|
    ensures j < |links| ==> On(links[j], i) && links[j].rid == rid
    ensures forall x :: 0 <= x < j ==> !(On(links[x], i) && links[x].rid == rid)
  {
    if links == [] || (On(links[0], i) && links[0].rid == rid) then 0 else 1 + FirstOn(links[1..], i, rid)
  }

  /** First entry on `i`, whatever it names. */
  function FirstAny(links: seq<Link>, i: Iface): (j: nat)
    ensures j <= |links|
    ensures j < |links| ==> On(links[j], i)
    ensures forall x :: 0 <= x < j ==> !On(links[x], i)
  {
    if links == [] || On(links[0], i) then 0 else 1 + FirstAny(links[1..], i)
  }

  /** A new neighbour takes the blank entry of its subnet, or gets one of its own. */
  function Learned(links: seq<Link>, i: Iface, rid: RouterId): seq<Link> {
    var j := FirstOn(links, i, 0);
    if j < |links| then links[j := links[j].(rid := rid)] else links + [Link(i.Subnet(), i.mask, rid, false)]
  }

  /** A lost neighbour blanks the last entry of its subnet, or loses its own. */
  function Forgotten(links: seq<Link>, i: Iface, rid: RouterId): seq<Link> {
    if |LinkBag(links, i)| == 1 then
      var j := FirstAny(links, i);
      if j < |links| then links[j := links[j].(rid := 0)] else links
    else
      var j := FirstOn(links, i, rid);
      if j < |links| then links[..j] + links[j + 1..] else links
  }

  /** Position of the last neighbour with this address and id, or the length of the list. */
  function LastMatch(nbrs: seq<Nbr>, src: Ip, rid: RouterId): (j: nat)
    ensures j <= |nbrs|
    ensures j < |nbrs| ==> nbrs[j].ip == src && nbrs[j].rid == rid
    ensures j == |nbrs| ==> forall b :: b in nbrs ==> !(b.ip == src && b.rid == rid)
  {
    if nbrs == [] then
      0
    else if nbrs[|nbrs| - 1].ip == src && nbrs[|nbrs| - 1].rid == rid then
      |nbrs| - 1
    else
      var init := nbrs[..|nbrs| - 1];
      var j := LastMatch(init, src, rid);
      assert nbrs == init + [nbrs[|nbrs| - 1]];
      if j == |init| then |nbrs| else j
  }

  function SetNbrs(s: State, k: nat, nbrs: seq<Nbr>): State
    requires k < |s.ifaces|
  {
    s.(ifaces := s.ifaces[k := s.ifaces[k].(nbrs := nbrs)])
  }

  function OnHello(s: State, e: Event): State
    requires e.Heard? && e.k < |s.ifaces|
  {
    var i := s.ifaces[e.k];
    if e.hint != s.interval || e.mask != i.mask then
      s
    else
      var j := LastMatch(i.nbrs, e.src, e.rid);
      if j < |i.nbrs| then
        SetNbrs(s, e.k, i.nbrs[j := i.nbrs[j].(lastHello := e.now)])
      else
        SetNbrs(s, e.k, i.nbrs + [Nbr(e.rid, e.src, e.now)]).(links := Learned(s.links, i, e.rid))
  }

  predicate TimedOut(b: Nbr, interval: nat, now: int) {
    now - b.lastHello > 3 * interval
  }

  predicate AnyTimedOut(nbrs: seq<Nbr>, interval: nat, now: int) {
    nbrs != [] && (TimedOut(nbrs[0], interval, now) || AnyTimedOut(nbrs[1..], interval, now))
  }

  /** The time-out pass over the neighbours of interface `k`, from position `j` on. */
  function ExpireFrom(s: State, k: nat, j: nat, now: int): State
    requires k < |s.ifaces| && j <= |s.ifaces[k].nbrs|
    decreases |s.ifaces[k].nbrs| - j
  {
    var i := s.ifaces[k];
    if j == |i.nbrs| then
      s
    else if TimedOut(i.nbrs[j], s.interval, now) then
      ExpireFrom(Dropped(s, k, j), k, j, now)
    else
      ExpireFrom(s, k, j + 1, now)
  }

  /** Neighbour `j` of interface `k` is gone, from both tables. */
  function Dropped(s: State, k: nat, j: nat): State
    requires k < |s.ifaces| && j < |s.ifaces[k].nbrs|
  {
    var i := s.ifaces[k];
    SetNbrs(s, k, i.nbrs[..j] + i.nbrs[j + 1..]).(links := Forgotten(s.links, i, i.nbrs[j].rid))
  }

  function Step(s: State, e: Event): State
    requires e.k < |s.ifaces|
  {
    match e
    case Heard(_, _, _, _, _, _) => OnHello(s, e)
    case Tick(k, now) => ExpireFrom(s, k, 0, now)
  }

  // ---------------------------------------------------------------- bags

  lemma {:induction false} LinkBagConcat(a: seq<Link>, b: seq<Link>, i: Iface)
    ensures LinkBag(a + b, i) == LinkBag(a, i) + LinkBag(b, i)
    decreases |b|
  {
    if b == [] {
      assert a + b == a;
    } else {
      assert (a + b)[..|a + b| - 1] == a + b[..|b| - 1];
      LinkBagConcat(a, b[..|b| - 1], i);
    }
  }

  lemma {:induction false} NbrBagConcat(a: seq<Nbr>, b: seq<Nbr>)
    ensures NbrBag(a + b) == NbrBag(a) + NbrBag(b)
    decreases |b|
  {
    if b == [] {
      assert a + b == a;
    } else {
      assert (a + b)[..|a + b| - 1] == a + b[..|b| - 1];
      NbrBagConcat(a, b[..|b| - 1]);
    }
  }

  /** What one entry contributes. */
  function Share(l: Link, i: Iface): multiset<RouterId> {
    if On(l, i) then multiset{l.rid} else multiset{}
  }

  lemma LinkBagSplit(links: seq<Link>, j: nat, i: Iface)
    requires j < |links|
    ensures LinkBag(links, i) == LinkBag(links[..j], i) + Share(links[j], i) + LinkBag(links[j + 1..], i)
  {
    assert links == links[..j] + ([links[j]] + links[j + 1..]);
    assert [links[j]][..0] == [];
    LinkBagConcat(links[..j], [links[j]] + links[j + 1..], i);
    LinkBagConcat([links[j]], links[j + 1..], i);
  }

  lemma LinkBagReplace(links: seq<Link>, j: nat, l: Link, i: Iface)
    requires j < |links|
    ensures LinkBag(links[j := l], i) + Share(links[j], i) == LinkBag(links, i) + Share(l, i)
  {
    LinkBagSplit(links, j, i);
    LinkBagSplit(links[j := l], j, i);
    assert links[j := l][..j] == links[..j] && links[j := l][j + 1..] == links[j + 1..];
  }

  lemma LinkBagRemove(links: seq<Link>, j: nat, i: Iface)
    requires j < |links|
    ensures LinkBag(links[..j] + links[j + 1..], i) + Share(links[j], i) == LinkBag(links, i)
  {
    LinkBagSplit(links, j, i);
    LinkBagConcat(links[..j], links[j + 1..], i);
  }

  lemma LinkBagAppend(links: seq<Link>, l: Link, i: Iface)
    ensures LinkBag(links + [l], i) == LinkBag(links, i) + Share(l, i)
  {
    assert (links + [l])[..|links|] == links;
  }

  lemma NbrBagRemove(nbrs: seq<Nbr>, j: nat)
    requires j < |nbrs|
    ensures NbrBag(nbrs[..j] + nbrs[j + 1..]) + multiset{nbrs[j].rid} == NbrBag(nbrs)
  {
    hide NbrBag;
    assert nbrs == nbrs[..j] + ([nbrs[j]] + nbrs[j + 1..]);
    NbrBagAppend([], nbrs[j]);
    assert [] + [nbrs[j]] == [nbrs[j]];
    NbrBagConcat(nbrs[..j], [nbrs[j]] + nbrs[j + 1..]);
    NbrBagConcat([nbrs[j]], nbrs[j + 1..]);
    NbrBagConcat(nbrs[..j], nbrs[j + 1..]);
  }

  lemma {:induction false} NbrBagSize(nbrs: seq<Nbr>)
    ensures |NbrBag(nbrs)| == |nbrs|
    ensures NonzeroIds(nbrs) ==> 0 !in NbrBag(nbrs)
  {
    if nbrs != [] {
      var init := nbrs[..|nbrs| - 1];
      NbrBagSize(init);
      if NonzeroIds(nbrs) {
        assert nbrs[|nbrs| - 1] in nbrs;
        assert forall b :: b in init ==> b in nbrs;
      }
    }
  }

  /** An id is in the bag exactly if an entry on the subnet has it. */
  lemma {:induction false} LinkBagMember(links: seq<Link>, i: Iface, rid: RouterId)
    ensures rid in LinkBag(links, i) <==> FirstOn(links, i, rid) < |links|
  {
    var j := FirstOn(links, i, rid);
    if j < |links| {
      LinkBagSplit(links, j, i);
    } else {
      NotInBag(links, i, rid);
    }
  }

  lemma {:induction false} NotInBag(links: seq<Link>, i: Iface, rid: RouterId)
    requires forall x :: 0 <= x < |links| ==> !(On(links[x], i) && links[x].rid == rid)
    ensures rid !in LinkBag(links, i)
  {
    if links != [] {
      NotInBag(links[..|links| - 1], i, rid);
    }
  }

  lemma {:induction false} EmptyBag(links: seq<Link>, i: Iface)
    requires forall x :: 0 <= x < |links| ==> !On(links[x], i)
    ensures LinkBag(links, i) == multiset{}
  {
    if links != [] {
      EmptyBag(links[..|links| - 1], i);
    }
  }

  lemma BagCancel(a: multiset<RouterId>, b: multiset<RouterId>, c: multiset<RouterId>)
    requires a + c == b + c
    ensures a == b
  {
    forall x: RouterId ensures a[x] == b[x] {
      assert (a + c)[x] == a[x] + c[x] && (b + c)[x] == b[x] + c[x];
    }
  }

  lemma SingletonBag(b: multiset<RouterId>, x: RouterId)
    requires x in b && |b| == 1
    ensures b == multiset{x}
  {
    assert |b - multiset{x}| == 0;
    assert b == (b - multiset{x}) + multiset{x};
  }

  // ---------------------------------------------------------------- one neighbour more, one less

  lemma LearnedElsewhere(links: seq<Link>, i: Iface, rid: RouterId, p: Iface)
    requires !SamePort(i, p)
    ensures LinkBag(Learned(links, i, rid), p) == LinkBag(links, p)
  {
    hide LinkBag;
    var j := FirstOn(links, i, 0);
    if j < |links| {
      LinkBagReplace(links, j, links[j].(rid := rid), p);
      BagCancel(LinkBag(Learned(links, i, rid), p), LinkBag(links, p), multiset{});
    } else {
      LinkBagAppend(links, Link(i.Subnet(), i.mask, rid, false), p);
    }
  }

  /** On its own subnet the new id replaces one blank, if there is any. */
  lemma LearnedHere(links: seq<Link>, i: Iface, rid: RouterId, p: Iface)
    requires SamePort(i, p)
    ensures LinkBag(Learned(links, i, rid), p) + (if 0 in LinkBag(links, p) then multiset{0} else multiset{}) ==
            LinkBag(links, p) + multiset{rid}
  {
    hide LinkBag;
    var j := FirstOn(links, i, 0);
    SamePortBag(links, i, p);
    LinkBagMember(links, i, 0);
    if j < |links| {
      LinkBagReplace(links, j, links[j].(rid := rid), p);
    } else {
      LinkBagAppend(links, Link(i.Subnet(), i.mask, rid, false), p);
    }
  }

  /** A subnet with one entry keeps it as a blank; otherwise at most one entry goes. */
  lemma ForgottenBag(links: seq<Link>, i: Iface, rid: RouterId, p: Iface)
    ensures !SamePort(i, p) ==> LinkBag(Forgotten(links, i, rid), p) == LinkBag(links, p)
    ensures SamePort(i, p) && |LinkBag(links, i)| == 1 ==> LinkBag(Forgotten(links, i, rid), p) == multiset{0}
    ensures SamePort(i, p) && |LinkBag(links, i)| != 1 ==>
              LinkBag(Forgotten(links, i, rid), p) == LinkBag(links, p) - multiset{rid}
  {
    hide LinkBag, Forgotten;
    SamePortBag(links, i, p);
    if |LinkBag(links, i)| == 1 {
      BlankedBag(links, i, rid, p);
    } else {
      RemovedBag(links, i, rid, p);
    }
  }

  lemma BlankedBag(links: seq<Link>, i: Iface, rid: RouterId, p: Iface)
    requires |LinkBag(links, i)| == 1
    ensures LinkBag(Forgotten(links, i, rid), p) == if SamePort(i, p) then multiset{0} else LinkBag(links, p)
  {
    hide LinkBag;
    var j := FirstAny(links, i);
    SamePortBag(links, i, p);
    if j < |links| {
      var blanked := Forgotten(links, i, rid);
      LinkBagReplace(links, j, links[j].(rid := 0), p);
      if SamePort(i, p) {
        LinkBagSplit(links, j, p);
        SingletonBag(LinkBag(links, p), links[j].rid);
        BagCancel(LinkBag(blanked, p), multiset{0}, multiset{links[j].rid});
      } else {
        BagCancel(LinkBag(blanked, p), LinkBag(links, p), multiset{});
      }
    } else {
      EmptyBag(links, i);
    }
  }

  lemma RemovedBag(links: seq<Link>, i: Iface, rid: RouterId, p: Iface)
    requires |LinkBag(links, i)| != 1
    ensures LinkBag(Forgotten(links, i, rid), p) ==
            if SamePort(i, p) then LinkBag(links, p) - multiset{rid} else LinkBag(links, p)
  {
    hide LinkBag;
    var j := FirstOn(links, i, rid);
    SamePortBag(links, i, p);
    LinkBagMember(links, i, rid);
    if j < |links| {
      LinkBagRemove(links, j, p);
    }
  }

  lemma {:induction false} SamePortBag(links: seq<Link>, i: Iface, p: Iface)
    ensures SamePort(i, p) ==> LinkBag(links, i) == LinkBag(links, p)
  {
    if links != [] {
      SamePortBag(links[..|links| - 1], i, p);
    }
  }

  lemma LearnedOnPorts(links: seq<Link>, ifaces: seq<Iface>, k: nat, rid: RouterId)
    requires k < |ifaces| && forall l :: l in links ==> OnSomePort(l, ifaces)
    ensures forall l :: l in Learned(links, ifaces[k], rid) ==> OnSomePort(l, ifaces)
  {
    var j := FirstOn(links, ifaces[k], 0);
    forall l | l in Learned(links, ifaces[k], rid)
      ensures OnSomePort(l, ifaces)
    {
      if l !in links {
        assert On(l, ifaces[k]);
      }
    }
  }

  lemma ForgottenOnPorts(links: seq<Link>, ifaces: seq<Iface>, i: Iface, rid: RouterId)
    requires forall l :: l in links ==> OnSomePort(l, ifaces)
    ensures forall l :: l in Forgotten(links, i, rid) ==> OnSomePort(l, ifaces)
  {
    hide LinkBag;
    var a := FirstAny(links, i);
    forall l | l in Forgotten(links, i, rid)
      ensures OnSomePort(l, ifaces)
    {
      if l !in links {
        assert l == links[a].(rid := 0) && OnSomePort(links[a], ifaces);
        var k :| 0 <= k < |ifaces| && On(links[a], ifaces[k]);
        assert On(l, ifaces[k]);
      }
    }
  }

  /** Only the neighbours of one interface and the list change; the subnets stay. */
  lemma SetNbrsPorts(s: State, k: nat, nbrs: seq<Nbr>)
    requires k < |s.ifaces|
    ensures forall l :: OnSomePort(l, SetNbrs(s, k, nbrs).ifaces) <==> OnSomePort(l, s.ifaces)
    ensures DistinctSubnets(s.ifaces) ==> DistinctSubnets(SetNbrs(s, k, nbrs).ifaces)
  {
    var ifaces' := SetNbrs(s, k, nbrs).ifaces;
    assert forall j :: 0 <= j < |s.ifaces| ==> SamePort(ifaces'[j], s.ifaces[j]);
    forall l: Link ensures OnSomePort(l, ifaces') <==> OnSomePort(l, s.ifaces)
    {
      if OnSomePort(l, ifaces') {
        var j :| 0 <= j < |ifaces'| && On(l, ifaces'[j]);
        assert On(l, s.ifaces[j]);
      }
      if OnSomePort(l, s.ifaces) {
        var j :| 0 <= j < |s.ifaces| && On(l, s.ifaces[j]);
        assert On(l, ifaces'[j]);
      }
    }
  }

  /** A new neighbour's entry joins the others, unless it takes the entry of a neighbour with id 0. */
  lemma LearnedMirrorsPort(links: seq<Link>, i: Iface, b: Nbr)
    requires MirrorsPort(links, i)
    ensures MirrorsPort(Learned(links, i, b.rid), i.(nbrs := i.nbrs + [b])) <==> NonzeroIds(i.nbrs)
  {
    hide LinkBag, NbrBag, Learned;
    var p := i.(nbrs := i.nbrs + [b]);
    var was, now := LinkBag(links, p), LinkBag(Learned(links, i, b.rid), p);
    SamePortItself(i, p);
    SamePortBag(links, i, p);
    LearnedHere(links, i, b.rid, p);
    NbrBagAppend(i.nbrs, b);
    NbrBagMember(i.nbrs, 0);
    if i.nbrs == [] {
      BagCancel(now, multiset{b.rid}, multiset{0});
    } else if 0 in was {
      assert |now + multiset{0}| == |now| + 1 && |was + multiset{b.rid}| == |was| + 1;
      assert |NbrBag(i.nbrs + [b])| == |was| + 1;
    } else {
      BagCancel(now, NbrBag(i.nbrs + [b]), multiset{});
    }
  }

  lemma {:induction false} NbrBagMember(nbrs: seq<Nbr>, rid: RouterId)
    ensures rid in NbrBag(nbrs) <==> exists b :: b in nbrs && b.rid == rid
  {
    if nbrs != [] {
      var init, last := nbrs[..|nbrs| - 1], nbrs[|nbrs| - 1];
      NbrBagMember(init, rid);
      assert nbrs == init + [last] && last in nbrs;
    }
  }

  lemma LearnMirrors(s: State, k: nat, b: Nbr)
    requires Mirror(s) && k < |s.ifaces|
    ensures Mirror(SetNbrs(s, k, s.ifaces[k].nbrs + [b]).(links := Learned(s.links, s.ifaces[k], b.rid))) <==>
            NonzeroIds(s.ifaces[k].nbrs)
  {
    hide MirrorsPort, Learned, OnSomePort, DistinctSubnets, NonzeroIds;
    var i, links := s.ifaces[k], Learned(s.links, s.ifaces[k], b.rid);
    var s' := SetNbrs(s, k, i.nbrs + [b]).(links := links);
    SetNbrsPorts(s, k, i.nbrs + [b]);
    LearnedOnPorts(s.links, s.ifaces, k, b.rid);
    LearnedMirrorsPort(s.links, i, b);
    assert s'.ifaces[k] == i.(nbrs := i.nbrs + [b]);
    forall p | 0 <= p < |s'.ifaces| && p != k
      ensures MirrorsPort(links, s'.ifaces[p])
    {
      PortsDiffer(s.ifaces, k, p);
      LearnedElsewherePort(s.links, i, b.rid, s.ifaces[p]);
    }
  }

  lemma LearnedElsewherePort(links: seq<Link>, i: Iface, rid: RouterId, p: Iface)
    requires MirrorsPort(links, p) && !SamePort(i, p)
    ensures MirrorsPort(Learned(links, i, rid), p)
  {
    hide LinkBag, NbrBag, Learned;
    LearnedElsewhere(links, i, rid, p);
  }

  lemma NbrBagAppend(nbrs: seq<Nbr>, b: Nbr)
    ensures NbrBag(nbrs + [b]) == NbrBag(nbrs) + multiset{b.rid}
    ensures nbrs == [] ==> NbrBag(nbrs) == multiset{}
  {
    assert (nbrs + [b])[..|nbrs|] == nbrs;
  }

  lemma PortsDiffer(ifaces: seq<Iface>, k: nat, p: nat)
    requires DistinctSubnets(ifaces) && k < |ifaces| && p < |ifaces| && k != p
    ensures !SamePort(ifaces[k], ifaces[p])
  {
  }

  lemma DropMirrorsPort(links: seq<Link>, i: Iface, j: nat)
    requires MirrorsPort(links, i) && j < |i.nbrs|
    ensures MirrorsPort(Forgotten(links, i, i.nbrs[j].rid), i.(nbrs := i.nbrs[..j] + i.nbrs[j + 1..]))
  {
    hide LinkBag, NbrBag, Forgotten;
    var nbrs := i.nbrs[..j] + i.nbrs[j + 1..];
    var p := i.(nbrs := nbrs);
    NbrBagRemove(i.nbrs, j);
    NbrBagSize(i.nbrs);
    ForgottenBag(links, i, i.nbrs[j].rid, p);
    SamePortBag(links, i, p);
    if |i.nbrs| != 1 {
      assert NbrBag(nbrs) == NbrBag(i.nbrs) - multiset{i.nbrs[j].rid};
    }
  }

  lemma DropMirrors(s: State, k: nat, j: nat)
    requires Mirror(s) && k < |s.ifaces| && j < |s.ifaces[k].nbrs|
    ensures Mirror(Dropped(s, k, j))
  {
    hide LinkBag, NbrBag, Forgotten, OnSomePort, DistinctSubnets;
    var i, s' := s.ifaces[k], Dropped(s, k, j);
    SetNbrsPorts(s, k, i.nbrs[..j] + i.nbrs[j + 1..]);
    ForgottenOnPorts(s.links, s.ifaces, i, i.nbrs[j].rid);
    DropMirrorsPort(s.links, i, j);
    forall p | 0 <= p < |s'.ifaces|
      ensures MirrorsPort(s'.links, s'.ifaces[p])
    {
      if p != k {
        PortsDiffer(s.ifaces, k, p);
        ForgottenBag(s.links, i, i.nbrs[j].rid, s'.ifaces[p]);
      }
    }
  }

  lemma RefreshMirrors(s: State, k: nat, j: nat, now: int)
    requires Mirror(s) && k < |s.ifaces| && j < |s.ifaces[k].nbrs|
    ensures Mirror(SetNbrs(s, k, s.ifaces[k].nbrs[j := s.ifaces[k].nbrs[j].(lastHello := now)]))
  {
    hide MirrorsPort, OnSomePort, DistinctSubnets;
    var nbrs := s.ifaces[k].nbrs[j := s.ifaces[k].nbrs[j].(lastHello := now)];
    SetNbrsPorts(s, k, nbrs);
    RefreshMirrorsPort(s.links, s.ifaces[k], j, now);
  }

  lemma RefreshMirrorsPort(links: seq<Link>, i: Iface, j: nat, now: int)
    requires MirrorsPort(links, i) && j < |i.nbrs|
    ensures MirrorsPort(links, i.(nbrs := i.nbrs[j := i.nbrs[j].(lastHello := now)]))
  {
    hide LinkBag, NbrBag;
    var nbrs := i.nbrs[j := i.nbrs[j].(lastHello := now)];
    NbrBagRemove(i.nbrs, j);
    NbrBagRemove(nbrs, j);
    assert nbrs[..j] == i.nbrs[..j] && nbrs[j + 1..] == i.nbrs[j + 1..];
    SamePortItself(i, i.(nbrs := nbrs));
    SamePortBag(links, i, i.(nbrs := nbrs));
  }

  lemma {:induction false} ExpireMirrors(s: State, k: nat, j: nat, now: int)
    requires Mirror(s) && k < |s.ifaces| && j <= |s.ifaces[k].nbrs|
    ensures Mirror(ExpireFrom(s, k, j, now))
    decreases |s.ifaces[k].nbrs| - j
  {
    hide Mirror, Forgotten;
    if j < |s.ifaces[k].nbrs| {
      if TimedOut(s.ifaces[k].nbrs[j], s.interval, now) {
        DropMirrors(s, k, j);
        ExpireMirrors(Dropped(s, k, j), k, j, now);
      } else {
        ExpireMirrors(s, k, j + 1, now);
      }
    }
  }

  /** An accepted hello from an unknown neighbour, on an interface that already hears router id 0. */
  predicate Overwrites(s: State, e: Event)
    requires e.k < |s.ifaces|
  {
    && e.Heard? && e.hint == s.interval && e.mask == s.ifaces[e.k].mask
    && !NonzeroIds(s.ifaces[e.k].nbrs)
    && forall b :: b in s.ifaces[e.k].nbrs ==> !(b.ip == e.src && b.rid == e.rid)
  }

  /** A step keeps the mirror exactly if it does not overwrite the entry of a neighbour with id 0. */
  lemma StepMirrors(s: State, e: Event)
    requires Mirror(s) && e.k < |s.ifaces|
    ensures |Step(s, e).ifaces| == |s.ifaces|
    ensures Mirror(Step(s, e)) <==> !Overwrites(s, e)
  {
    match e
    case Heard(k, hint, mask, src, rid, now) => HelloMirrors(s, e);
    case Tick(k, now) =>
      ExpireMirrors(s, k, 0, now);
      ExpireKeepsPorts(s, k, 0, now);
  }

  lemma HelloMirrors(s: State, e: Event)
    requires Mirror(s) && e.Heard? && e.k < |s.ifaces|
    ensures Mirror(OnHello(s, e)) <==> !Overwrites(s, e)
  {
    hide LinkBag, NbrBag, Learned, DistinctSubnets, OnSomePort, Mirror, LastMatch, NonzeroIds;
    var i := s.ifaces[e.k];
    var j := LastMatch(i.nbrs, e.src, e.rid);
    if j < |i.nbrs| {
      assert i.nbrs[j] in i.nbrs;
      RefreshMirrors(s, e.k, j, e.now);
    } else {
      LearnMirrors(s, e.k, Nbr(e.rid, e.src, e.now));
    }
  }

  lemma {:induction false} ExpireKeepsPorts(s: State, k: nat, j: nat, now: int)
    requires k < |s.ifaces| && j <= |s.ifaces[k].nbrs|
    ensures |ExpireFrom(s, k, j, now).ifaces| == |s.ifaces|
    decreases |s.ifaces[k].nbrs| - j
  {
    hide Forgotten;
    if j < |s.ifaces[k].nbrs| {
      if TimedOut(s.ifaces[k].nbrs[j], s.interval, now) {
        ExpireKeepsPorts(Dropped(s, k, j), k, j, now);
      } else {
        ExpireKeepsPorts(s, k, j + 1, now);
      }
    }
  }

  /** The neighbours a time-out pass leaves, in order. */
  function Alive(nbrs: seq<Nbr>, interval: nat, now: int): seq<Nbr> {
    if nbrs == [] then
      []
    else
      (if TimedOut(nbrs[0], interval, now) then [] else [nbrs[0]]) + Alive(nbrs[1..], interval, now)
  }

  /** A time-out pass removes exactly the neighbours that have timed out, on that interface only. */
  lemma {:induction false} ExpireDropsExactly(s: State, k: nat, j: nat, now: int)
    requires k < |s.ifaces| && j <= |s.ifaces[k].nbrs|
    ensures var i := s.ifaces[k];
            ExpireFrom(s, k, j, now).ifaces ==
            s.ifaces[k := i.(nbrs := i.nbrs[..j] + Alive(i.nbrs[j..], s.interval, now))]
    decreases |s.ifaces[k].nbrs| - j
  {
    hide Forgotten;
    var nbrs := s.ifaces[k].nbrs;
    if j < |nbrs| {
      assert nbrs[j..][1..] == nbrs[j + 1..];
      if TimedOut(nbrs[j], s.interval, now) {
        ExpireDropsExactly(Dropped(s, k, j), k, j, now);
        var left := nbrs[..j] + nbrs[j + 1..];
        assert left[..j] == nbrs[..j] && left[j..] == nbrs[j + 1..];
        assert Dropped(s, k, j).ifaces[k].nbrs == left;
        assert [] + Alive(nbrs[j + 1..], s.interval, now) == Alive(nbrs[j + 1..], s.interval, now);
      } else {
        ExpireDropsExactly(s, k, j + 1, now);
        assert nbrs[..j + 1] + Alive(nbrs[j + 1..], s.interval, now) ==
               nbrs[..j] + ([nbrs[j]] + Alive(nbrs[j + 1..], s.interval, now));
      }
    } else {
      assert nbrs[..j] + [] == nbrs;
    }
  }

  /** The state after a run of events, each on an existing interface. */
  function Run(s: State, events: seq<Event>): (s': State)
    requires forall e :: e in events ==> e.k < |s.ifaces|
    ensures |s'.ifaces| == |s.ifaces|
    decreases |events|
  {
    if events == [] then
      s
    else
      var init, last := events[..|events| - 1], events[|events| - 1];
      assert last in events && forall e :: e in init ==> e in events;
      StepKeepsPorts(Run(s, init), last);
      Step(Run(s, init), last)
  }

  lemma StepKeepsPorts(s: State, e: Event)
    requires e.k < |s.ifaces|
    ensures |Step(s, e).ifaces| == |s.ifaces|
  {
    if e.Tick? {
      ExpireKeepsPorts(s, e.k, 0, e.now);
    }
  }

  lemma StepNonzero(s: State, e: Event)
    requires e.k < |s.ifaces| && NonzeroTables(s) && (e.Heard? ==> e.rid != 0)
    ensures NonzeroTables(Step(s, e))
  {
    hide Learned, Forgotten, LastMatch;
    if e.Tick? {
      ExpireDropsExactly(s, e.k, 0, e.now);
      AliveMembers(s.ifaces[e.k].nbrs, s.interval, e.now);
      assert s.ifaces[e.k].nbrs[0..] == s.ifaces[e.k].nbrs;
    }
  }

  lemma {:induction false} AliveMembers(nbrs: seq<Nbr>, interval: nat, now: int)
    ensures forall b :: b in Alive(nbrs, interval, now) <==> b in nbrs && !TimedOut(b, interval, now)
  {
    if nbrs != [] {
      AliveMembers(nbrs[1..], interval, now);
      assert nbrs == [nbrs[0]] + nbrs[1..];
    }
  }

  /** The mirror over every run of hellos and time-outs from nonzero ids. */
  lemma {:induction false} RunMirrors(s: State, events: seq<Event>)
    requires Mirror(s) && NonzeroTables(s)
    requires forall e :: e in events ==> e.k < |s.ifaces| && (e.Heard? ==> e.rid != 0)
    ensures Mirror(Run(s, events)) && NonzeroTables(Run(s, events))
    decreases |events|
  {
    hide Mirror, Step, NonzeroIds;
    if events != [] {
      var init, last := events[..|events| - 1], events[|events| - 1];
      assert last in events && forall e :: e in init ==> e in events;
      RunMirrors(s, init);
      StepMirrors(Run(s, init), last);
      StepNonzero(Run(s, init), last);
    }
  }

  // ---------------------------------------------------------------- who is heard

  predicate From(b: Nbr, src: Ip, rid: RouterId) {
    b.ip == src && b.rid == rid
  }

  /** The neighbour is in the list exactly once, with this time; or not at all. */
  ghost predicate Listed(nbrs: seq<Nbr>, src: Ip, rid: RouterId, heard: Option<int>) {
    if heard.None? then
      forall b :: b in nbrs ==> !From(b, src, rid)
    else
      exists j :: ListedAt(nbrs, src, rid, heard.value, j)
  }

  predicate ListedAt(nbrs: seq<Nbr>, src: Ip, rid: RouterId, time: int, j: int) {
    && 0 <= j < |nbrs| && nbrs[j] == Nbr(rid, src, time)
    && forall x :: 0 <= x < |nbrs| && x != j ==> !From(nbrs[x], src, rid)
  }

  /** Whom an event concerns: it is a hello with the right interval and mask from this neighbour. */
  predicate Greets(e: Event, k: nat, interval: nat, mask: Ip, src: Ip, rid: RouterId) {
    e.Heard? && e.k == k && e.hint == interval && e.mask == mask && e.src == src && e.rid == rid
  }

  /** By the events alone: when the neighbour was last heard, unless a pass came more than three intervals later. */
  function LastHeard(events: seq<Event>, k: nat, interval: nat, mask: Ip, src: Ip, rid: RouterId): Option<int> {
    if events == [] then
      None
    else
      var before := LastHeard(events[..|events| - 1], k, interval, mask, src, rid);
      After(before, events[|events| - 1], k, interval, mask, src, rid)
  }

  function After(before: Option<int>, e: Event, k: nat, interval: nat, mask: Ip, src: Ip, rid: RouterId): Option<int> {
    if Greets(e, k, interval, mask, src, rid) then Some(e.now)
    else if e.Tick? && e.k == k && before.Some? && e.now - before.value > 3 * interval then None
    else before
  }

  /** An accepted hello is noted with its time; on that interface nothing else changes. */
  lemma HelloIsNoted(s: State, e: Event)
    requires e.Heard? && e.k < |s.ifaces| && e.hint == s.interval && e.mask == s.ifaces[e.k].mask
    ensures var nbrs, nbrs' := s.ifaces[e.k].nbrs, OnHello(s, e).ifaces[e.k].nbrs;
            && Nbr(e.rid, e.src, e.now) in nbrs'
            && (forall b :: !From(b, e.src, e.rid) ==> (b in nbrs' <==> b in nbrs))
            && forall p :: 0 <= p < |s.ifaces| && p != e.k ==> OnHello(s, e).ifaces[p] == s.ifaces[p]
  {
    hide LastMatch, Learned;
    var nbrs := s.ifaces[e.k].nbrs;
    var j, nbrs' := LastMatch(nbrs, e.src, e.rid), OnHello(s, e).ifaces[e.k].nbrs;
    if j < |nbrs| {
      Replaced(nbrs, j, Nbr(e.rid, e.src, e.now));
    } else {
      assert nbrs'[|nbrs|] == Nbr(e.rid, e.src, e.now);
    }
  }

  /** The only new link is for the neighbour, on that subnet; it is inactive unless it takes an entry that was not. */
  lemma LearnedIsNew(links: seq<Link>, i: Iface, rid: RouterId)
    ensures forall l :: l in Learned(links, i, rid) ==>
              || l in links
              || (l.rid == rid && l.subnet == i.Subnet() && l.mask == i.mask && (!l.active || l.(rid := 0) in links))
  {
    hide Iface.Subnet;
    var j := FirstOn(links, i, 0);
    if j < |links| {
      assert links[j].(rid := rid).(rid := 0) == links[j];
    }
  }

  lemma Replaced(nbrs: seq<Nbr>, j: nat, b: Nbr)
    requires j < |nbrs| && From(nbrs[j], b.ip, b.rid)
    ensures b in nbrs[j := b] && forall x :: !From(x, b.ip, b.rid) ==> (x in nbrs[j := b] <==> x in nbrs)
  {
    var nbrs' := nbrs[j := b];
    assert nbrs'[j] == b;
    forall x | !From(x, b.ip, b.rid) ensures x in nbrs' <==> x in nbrs {
      if x in nbrs {
        var i :| 0 <= i < |nbrs| && nbrs[i] == x;
        assert nbrs'[i] == x;
      }
    }
  }

  lemma HelloListed(nbrs: seq<Nbr>, e: Event, src: Ip, rid: RouterId, heard: Option<int>)
    requires e.Heard? && Listed(nbrs, src, rid, heard)
    ensures var j := LastMatch(nbrs, e.src, e.rid);
            var nbrs' := if j < |nbrs| then nbrs[j := nbrs[j].(lastHello := e.now)] else nbrs + [Nbr(e.rid, e.src, e.now)];
            Listed(nbrs', src, rid, if e.src == src && e.rid == rid then Some(e.now) else heard)
  {
    hide LastMatch, Listed;
    var j := LastMatch(nbrs, e.src, e.rid);
    var b := Nbr(e.rid, e.src, e.now);
    if j < |nbrs| {
      assert nbrs[j].(lastHello := e.now) == b;
      RefreshListed(nbrs, j, b, src, rid, heard);
    } else {
      AppendListed(nbrs, b, src, rid, heard);
    }
  }

  lemma RefreshListed(nbrs: seq<Nbr>, j: nat, b: Nbr, src: Ip, rid: RouterId, heard: Option<int>)
    requires Listed(nbrs, src, rid, heard) && j < |nbrs| && From(nbrs[j], b.ip, b.rid)
    ensures Listed(nbrs[j := b], src, rid, if From(b, src, rid) then Some(b.lastHello) else heard)
  {
    var nbrs' := nbrs[j := b];
    if heard.Some? {
      var x :| ListedAt(nbrs, src, rid, heard.value, x);
      assert ListedAt(nbrs', src, rid, if From(b, src, rid) then b.lastHello else heard.value, x);
    } else {
      assert nbrs[j] in nbrs;
    }
  }

  lemma AppendListed(nbrs: seq<Nbr>, b: Nbr, src: Ip, rid: RouterId, heard: Option<int>)
    requires Listed(nbrs, src, rid, heard) && forall x :: x in nbrs ==> !From(x, b.ip, b.rid)
    ensures Listed(nbrs + [b], src, rid, if From(b, src, rid) then Some(b.lastHello) else heard)
  {
    var nbrs' := nbrs + [b];
    if From(b, src, rid) {
      assert ListedAt(nbrs', src, rid, b.lastHello, |nbrs|);
    } else if heard.Some? {
      var x :| ListedAt(nbrs, src, rid, heard.value, x);
      assert ListedAt(nbrs', src, rid, heard.value, x);
    }
  }

  lemma {:induction false} AliveListed(nbrs: seq<Nbr>, interval: nat, now: int, src: Ip, rid: RouterId, heard: Option<int>)
    requires Listed(nbrs, src, rid, heard)
    ensures var gone := heard.Some? && now - heard.value > 3 * interval;
            Listed(Alive(nbrs, interval, now), src, rid, if gone then None else heard)
  {
    AliveMembers(nbrs, interval, now);
    if heard.Some? {
      var j :| ListedAt(nbrs, src, rid, heard.value, j);
      if now - heard.value > 3 * interval {
        forall b | b in nbrs && From(b, src, rid) ensures TimedOut(b, interval, now) { }
      } else {
        AliveAt(nbrs, interval, now, src, rid, heard.value, j);
      }
    }
  }

  lemma {:induction false} AliveAt(nbrs: seq<Nbr>, interval: nat, now: int, src: Ip, rid: RouterId, time: int, j: nat)
    requires ListedAt(nbrs, src, rid, time, j) && now - time <= 3 * interval
    ensures exists x :: ListedAt(Alive(nbrs, interval, now), src, rid, time, x)
  {
    var alive, rest := Alive(nbrs, interval, now), Alive(nbrs[1..], interval, now);
    AliveMembers(nbrs[1..], interval, now);
    if j == 0 {
      assert alive == [nbrs[0]] + rest;
      forall b | b in rest ensures !From(b, src, rid) { assert b in nbrs[1..]; }
      assert ListedAt(alive, src, rid, time, 0);
    } else {
      AliveAt(nbrs[1..], interval, now, src, rid, time, j - 1);
      var x :| ListedAt(rest, src, rid, time, x);
      if TimedOut(nbrs[0], interval, now) {
        assert alive == rest;
      } else {
        assert alive == [nbrs[0]] + rest && ListedAt(alive, src, rid, time, x + 1);
      }
    }
  }

  lemma StepListed(s: State, e: Event, k: nat, src: Ip, rid: RouterId, heard: Option<int>)
    requires e.k < |s.ifaces| && k < |s.ifaces| && Listed(s.ifaces[k].nbrs, src, rid, heard)
    ensures var s' := Step(s, e);
            && |s'.ifaces| == |s.ifaces| && s'.interval == s.interval && s'.ifaces[k].mask == s.ifaces[k].mask
            && Listed(s'.ifaces[k].nbrs, src, rid, After(heard, e, k, s.interval, s.ifaces[k].mask, src, rid))
  {
    hide Listed, LastMatch, Learned, Forgotten, Alive;
    if e.Tick? {
      ExpireDropsExactly(s, e.k, 0, e.now);
      ExpireInterval(s, e.k, 0, e.now);
      assert s.ifaces[e.k].nbrs[0..] == s.ifaces[e.k].nbrs;
      assert [] + Alive(s.ifaces[e.k].nbrs, s.interval, e.now) == Alive(s.ifaces[e.k].nbrs, s.interval, e.now);
      AliveListed(s.ifaces[k].nbrs, s.interval, e.now, src, rid, heard);
    } else {
      HelloListed(s.ifaces[k].nbrs, e, src, rid, heard);
    }
  }

  lemma {:induction false} ExpireInterval(s: State, k: nat, j: nat, now: int)
    requires k < |s.ifaces| && j <= |s.ifaces[k].nbrs|
    ensures ExpireFrom(s, k, j, now).interval == s.interval
    decreases |s.ifaces[k].nbrs| - j
  {
    hide Forgotten;
    if j < |s.ifaces[k].nbrs| {
      if TimedOut(s.ifaces[k].nbrs[j], s.interval, now) {
        ExpireInterval(Dropped(s, k, j), k, j, now);
      } else {
        ExpireInterval(s, k, j + 1, now);
      }
    }
  }

  /** Over every run from empty tables: a neighbour is listed, with its last time, exactly as the events say. */
  lemma {:induction false} HeardExactly(s: State, events: seq<Event>, k: nat, src: Ip, rid: RouterId)
    requires k < |s.ifaces| && s.ifaces[k].nbrs == [] && forall e :: e in events ==> e.k < |s.ifaces|
    ensures var s' := Run(s, events);
            && s'.interval == s.interval && s'.ifaces[k].mask == s.ifaces[k].mask
            && Listed(s'.ifaces[k].nbrs, src, rid, LastHeard(events, k, s.interval, s.ifaces[k].mask, src, rid))
    decreases |events|
  {
    hide Listed, Step;
    if events == [] {
      NobodyListed(src, rid);
    } else {
      var init, last := events[..|events| - 1], events[|events| - 1];
      assert last in events && forall e :: e in init ==> e in events;
      HeardExactly(s, init, k, src, rid);
      var heard := LastHeard(init, k, s.interval, s.ifaces[k].mask, src, rid);
      StepListed(Run(s, init), last, k, src, rid, heard);
    }
  }

  lemma NobodyListed(src: Ip, rid: RouterId)
    ensures Listed([], src, rid, None)
  {
  }

  /** Nothing after a hello at `time` says that the neighbour was silent for more than three intervals. */
  predicate NeverLate(events: seq<Event>, k: nat, interval: nat, mask: Ip, src: Ip, rid: RouterId, time: int) {
    forall e :: e in events ==>
      && (e.Tick? && e.k == k ==> e.now - time <= 3 * interval)
      && (Greets(e, k, interval, mask, src, rid) ==> e.now >= time)
  }

  lemma {:induction false} StillHeard(before: seq<Event>, e: Event, later: seq<Event>, k: nat, interval: nat, mask: Ip,
                                      src: Ip, rid: RouterId)
    requires Greets(e, k, interval, mask, src, rid) && NeverLate(later, k, interval, mask, src, rid, e.now)
    ensures var heard := LastHeard(before + [e] + later, k, interval, mask, src, rid);
            heard.Some? && heard.value >= e.now
    decreases |later|
  {
    hide Greets;
    var events := before + [e] + later;
    if later == [] {
      assert events == before + [e];
    } else {
      var init, last := later[..|later| - 1], later[|later| - 1];
      assert last in later && forall x :: x in init ==> x in later;
      assert events[..|events| - 1] == before + [e] + init && events[|events| - 1] == last;
      StillHeard(before, e, init, k, interval, mask, src, rid);
    }
  }

  /** A neighbour heard within the last three intervals survives every time-out pass. */
  lemma HeardSurvives(s: State, before: seq<Event>, e: Event, later: seq<Event>, k: nat)
    requires k < |s.ifaces| && s.ifaces[k].nbrs == [] && forall x :: x in before + [e] + later ==> x.k < |s.ifaces|
    requires e.Heard? && Greets(e, k, s.interval, s.ifaces[k].mask, e.src, e.rid)
    requires NeverLate(later, k, s.interval, s.ifaces[k].mask, e.src, e.rid, e.now)
    ensures exists b :: b in Run(s, before + [e] + later).ifaces[k].nbrs && b.ip == e.src && b.rid == e.rid && b.lastHello >= e.now
  {
    hide LastHeard, Run, NeverLate, Greets;
    HeardExactly(s, before + [e] + later, k, e.src, e.rid);
    StillHeard(before, e, later, k, s.interval, s.ifaces[k].mask, e.src, e.rid);
    var nbrs := Run(s, before + [e] + later).ifaces[k].nbrs;
    var heard := LastHeard(before + [e] + later, k, s.interval, s.ifaces[k].mask, e.src, e.rid);
    var j :| ListedAt(nbrs, e.src, e.rid, heard.value, j);
    assert nbrs[j] in nbrs;
  }

  lemma {:induction false} HeardBefore(events: seq<Event>, k: nat, interval: nat, mask: Ip, src: Ip, rid: RouterId, limit: int)
    requires forall e :: e in events && Greets(e, k, interval, mask, src, rid) ==> e.now < limit
    ensures var heard := LastHeard(events, k, interval, mask, src, rid); heard.Some? ==> heard.value < limit
  {
    hide Greets;
    if events != [] {
      var init, last := events[..|events| - 1], events[|events| - 1];
      assert last in events && forall e :: e in init ==> e in events;
      HeardBefore(init, k, interval, mask, src, rid, limit);
    }
  }

  /** A neighbour silent for more than three intervals is gone after the next pass. */
  lemma SilentIsForgotten(s: State, events: seq<Event>, k: nat, now: int, src: Ip, rid: RouterId)
    requires k < |s.ifaces| && s.ifaces[k].nbrs == [] && forall e :: e in events + [Tick(k, now)] ==> e.k < |s.ifaces|
    requires forall e :: e in events && Greets(e, k, s.interval, s.ifaces[k].mask, src, rid) ==> now - e.now > 3 * s.interval
    ensures forall b :: b in Run(s, events + [Tick(k, now)]).ifaces[k].nbrs ==> !(b.ip == src && b.rid == rid)
  {
    hide Run, Greets;
    var all := events + [Tick(k, now)];
    HeardExactly(s, all, k, src, rid);
    HeardBefore(events, k, s.interval, s.ifaces[k].mask, src, rid, now - 3 * s.interval);
    assert all[..|all| - 1] == events && all[|all| - 1] == Tick(k, now);
    NoGreeting(k, now, s.interval, s.ifaces[k].mask, src, rid);
  }

  lemma NoGreeting(k: nat, now: int, interval: nat, mask: Ip, src: Ip, rid: RouterId)
    ensures !Greets(Tick(k, now), k, interval, mask, src, rid)
  {
  }

  // ---------------------------------------------------------------- the assertion in the time-out pass

  lemma DropPopulated(s: State, k: nat, j: nat)
    requires Populated(s) && k < |s.ifaces| && j < |s.ifaces[k].nbrs|
    ensures Populated(Dropped(s, k, j))
  {
    hide LinkBag, Forgotten;
    var i, s' := s.ifaces[k], Dropped(s, k, j);
    forall p | 0 <= p < |s'.ifaces|
      ensures |LinkBag(s'.links, s'.ifaces[p])| > 0
    {
      SamePortBag(s.links, s.ifaces[p], s'.ifaces[p]);
      SamePortBag(s.links, i, s'.ifaces[p]);
      ForgottenBag(s.links, i, i.nbrs[j].rid, s'.ifaces[p]);
    }
  }

  lemma {:induction false} ExpirePopulated(s: State, k: nat, j: nat, now: int)
    requires Populated(s) && k < |s.ifaces| && j <= |s.ifaces[k].nbrs|
    ensures Populated(ExpireFrom(s, k, j, now))
    decreases |s.ifaces[k].nbrs| - j
  {
    hide Populated, Forgotten;
    if j < |s.ifaces[k].nbrs| {
      if TimedOut(s.ifaces[k].nbrs[j], s.interval, now) {
        DropPopulated(s, k, j);
        ExpirePopulated(Dropped(s, k, j), k, j, now);
      } else {
        ExpirePopulated(s, k, j + 1, now);
      }
    }
  }

  lemma HelloPopulated(s: State, e: Event)
    requires Populated(s) && e.Heard? && e.k < |s.ifaces|
    ensures Populated(OnHello(s, e))
  {
    hide LinkBag, Learned, LastMatch, SamePort;
    var s', i := OnHello(s, e), s.ifaces[e.k];
    forall p | 0 <= p < |s'.ifaces|
      ensures |LinkBag(s'.links, s'.ifaces[p])| > 0
    {
      SamePortItself(s.ifaces[p], s'.ifaces[p]);
      SamePortBag(s.links, s.ifaces[p], s'.ifaces[p]);
      LearnedGrows(s.links, i, e.rid, s'.ifaces[p]);
    }
  }

  lemma SamePortItself(i: Iface, p: Iface)
    requires i.ip == p.ip && i.mask == p.mask
    ensures SamePort(i, p)
  {
  }

  lemma LearnedGrows(links: seq<Link>, i: Iface, rid: RouterId, p: Iface)
    ensures |LinkBag(Learned(links, i, rid), p)| >= |LinkBag(links, p)|
  {
    hide LinkBag, Learned;
    if SamePort(i, p) {
      LearnedHere(links, i, rid, p);
      GrownBag(LinkBag(Learned(links, i, rid), p), LinkBag(links, p), rid);
    } else {
      LearnedElsewhere(links, i, rid, p);
    }
  }

  lemma GrownBag(a: multiset<RouterId>, b: multiset<RouterId>, x: RouterId)
    requires a + (if 0 in b then multiset{0} else multiset{}) == b + multiset{x}
    ensures |a| >= |b|
  {
    assert |a + (if 0 in b then multiset{0} else multiset{})| <= |a| + 1;
  }

  /** Whatever ids are heard, no interface subnet ever loses its last entry. */
  lemma StepPopulated(s: State, e: Event)
    requires Populated(s) && e.k < |s.ifaces|
    ensures Populated(Step(s, e))
  {
    match e
    case Heard(_, _, _, _, _, _) => HelloPopulated(s, e);
    case Tick(k, now) => ExpirePopulated(s, k, 0, now);
  }

  /** The list init_router_list builds: one blank entry per interface. */
  function Blank(ifaces: seq<Iface>): seq<Link> {
    if ifaces == [] then
      []
    else
      var last := ifaces[|ifaces| - 1];
      Blank(ifaces[..|ifaces| - 1]) + [Link(last.Subnet(), last.mask, 0, false)]
  }

  predicate HasPort(ifaces: seq<Iface>, p: Iface) {
    exists k :: 0 <= k < |ifaces| && SamePort(ifaces[k], p)
  }

  lemma {:induction false} BlankBag(ifaces: seq<Iface>, p: Iface)
    requires DistinctSubnets(ifaces)
    ensures LinkBag(Blank(ifaces), p) == if HasPort(ifaces, p) then multiset{0} else multiset{}
  {
    hide LinkBag;
    EmptyBag([], p);
    if ifaces != [] {
      var init, last := ifaces[..|ifaces| - 1], ifaces[|ifaces| - 1];
      BlankBag(init, p);
      LinkBagAppend(Blank(init), Link(last.Subnet(), last.mask, 0, false), p);
      HasPortAppend(init, last, p);
      assert ifaces == init + [last];
      if HasPort(init, p) {
        var k :| 0 <= k < |init| && SamePort(init[k], p);
        PortsDiffer(ifaces, k, |init|);
        assert !SamePort(last, p);
      }
    } else {
      assert !HasPort(ifaces, p);
    }
  }

  lemma HasPortAppend(ifaces: seq<Iface>, last: Iface, p: Iface)
    ensures HasPort(ifaces + [last], p) <==> HasPort(ifaces, p) || SamePort(last, p)
  {
    var all := ifaces + [last];
    if HasPort(ifaces, p) {
      var k :| 0 <= k < |ifaces| && SamePort(ifaces[k], p);
      assert SamePort(all[k], p);
    }
    if SamePort(last, p) {
      assert SamePort(all[|ifaces|], p);
    }
  }

  lemma {:induction false} BlankOnPorts(ifaces: seq<Iface>)
    ensures forall l :: l in Blank(ifaces) ==> OnSomePort(l, ifaces) && l.rid == 0 && !l.active
  {
    if ifaces != [] {
      var init, last := ifaces[..|ifaces| - 1], ifaces[|ifaces| - 1];
      BlankOnPorts(init);
      forall l | l in Blank(ifaces) ensures OnSomePort(l, ifaces) && l.rid == 0 && !l.active {
        if l in Blank(init) {
          var k :| 0 <= k < |init| && On(l, init[k]);
          assert On(l, ifaces[k]);
        } else {
          assert On(l, ifaces[|init|]);
        }
      }
    }
  }

  /** The state init_router_list starts from. */
  lemma InitialMirrors(ifaces: seq<Iface>, interval: nat)
    requires DistinctSubnets(ifaces) && forall i :: i in ifaces ==> i.nbrs == []
    ensures Mirror(State(ifaces, Blank(ifaces), interval)) && NonzeroTables(State(ifaces, Blank(ifaces), interval))
  {
    hide LinkBag, Blank, DistinctSubnets, OnSomePort;
    forall k | 0 <= k < |ifaces|
      ensures MirrorsPort(Blank(ifaces), ifaces[k])
    {
      BlankBag(ifaces, ifaces[k]);
      assert SamePort(ifaces[k], ifaces[k]);
    }
    BlankOnPorts(ifaces);
  }

  lemma MirrorPopulates(s: State)
    requires Mirror(s)
    ensures Populated(s)
  {
    hide LinkBag, NbrBag, DistinctSubnets, OnSomePort;
    forall k | 0 <= k < |s.ifaces|
      ensures |LinkBag(s.links, s.ifaces[k])| > 0
    {
      NbrBagSize(s.ifaces[k].nbrs);
    }
  }

  /** Router id 0 is taken for a blank entry: a second neighbour then overwrites the first. */
  lemma ZeroIdIsOverwritten()
    ensures var i := Iface("eth0", 0x0A000001, 0xFFFFFF00, true, []);
            var s := State([i], Blank([i]), 5);
            var s1 := Step(s, Heard(0, 5, i.mask, 0x0A000002, 0, 1));
            var s2 := Step(s1, Heard(0, 5, i.mask, 0x0A000003, 7, 2));
            && Mirror(s) && Mirror(s1) && !Mirror(s2)
            && |s2.ifaces[0].nbrs| == 2 && s2.links == [Link(0x0A000000, 0xFFFFFF00, 7, false)]
  {
    var i := Iface("eth0", 0x0A000001, 0xFFFFFF00, true, []);
    var s := State([i], Blank([i]), 5);
    ZeroIdRun();
    InitialMirrors([i], 5);
    StepMirrors(s, Heard(0, 5, i.mask, 0x0A000002, 0, 1));
    var s1 := Step(s, Heard(0, 5, i.mask, 0x0A000002, 0, 1));
    assert s1.ifaces[0].nbrs[0] in s1.ifaces[0].nbrs;
    StepMirrors(s1, Heard(0, 5, i.mask, 0x0A000003, 7, 2));
  }

  lemma ZeroIdRun()
    ensures var i := Iface("eth0", 0x0A000001, 0xFFFFFF00, true, []);
            var s := State([i], Blank([i]), 5);
            var s1 := Step(s, Heard(0, 5, i.mask, 0x0A000002, 0, 1));
            var s2 := Step(s1, Heard(0, 5, i.mask, 0x0A000003, 7, 2));
            && s1.ifaces[0].nbrs == [Nbr(0, 0x0A000002, 1)] && s1.ifaces[0].mask == i.mask && s1.interval == 5
            && |s2.ifaces[0].nbrs| == 2 && s2.links == [Link(0x0A000000, 0xFFFFFF00, 7, false)]
  {
    var i := Iface("eth0", 0x0A000001, 0xFFFFFF00, true, []);
    assert i.Subnet() == 0x0A000000;
    assert [i][..0] == [];
    var s := State([i], Blank([i]), 5);
    assert Blank([]) == [];
    assert s.links == [Link(0x0A000000, 0xFFFFFF00, 0, false)];
    var s1 := Step(s, Heard(0, 5, i.mask, 0x0A000002, 0, 1));
    assert s1.links == [Link(0x0A000000, 0xFFFFFF00, 0, false)];
    assert s1.ifaces[0].nbrs == [Nbr(0, 0x0A000002, 1)];
    assert [Nbr(0, 0x0A000002, 1)][..0] == [];
    assert LastMatch(s1.ifaces[0].nbrs, 0x0A000003, 7) == 1;
    assert s1.ifaces[0].Subnet() == 0x0A000000;
  }

  // ---------------------------------------------------------------- the code

  /** The interface list and our own router entry, updated in place. */
  class NeighbourTable {
    var ifaces: seq<Iface>
    var links: seq<Link>
    var interval: nat

    ghost function View(): State
      reads this
    {
      State(ifaces, links, interval)
    }

    /** init_router_list: advertise what is directly connected. */
    constructor (ifaces: seq<Iface>, interval: nat)
      ensures View() == State(ifaces, Blank(ifaces), interval)
    {
      this.ifaces, this.interval := ifaces, interval;
      var links: seq<Link> := [];
      for k := 0 to |ifaces|
        invariant links == Blank(ifaces[..k])
      {
        assert ifaces[..k + 1][..k] == ifaces[..k];
        links := links + [Link(ifaces[k].ip & ifaces[k].mask, ifaces[k].mask, 0, false)];
      }
      assert ifaces[..|ifaces|] == ifaces;
      this.links := links;
    }

    /** The search for a known neighbour, which goes on to the end of the list. */
    method FindNeighbour(nbrs: seq<Nbr>, src: Ip, rid: RouterId) returns (match_: nat)
      ensures match_ == LastMatch(nbrs, src, rid)
    {
      match_ := |nbrs|;
      for j := 0 to |nbrs|
        invariant match_ < |nbrs| ==> match_ == LastMatch(nbrs[..j], src, rid) < j
        invariant match_ == |nbrs| || match_ < j
        invariant match_ == |nbrs| ==> LastMatch(nbrs[..j], src, rid) == j
      {
        assert nbrs[..j + 1][..j] == nbrs[..j];
        if nbrs[j].ip == src && nbrs[j].rid == rid {
          match_ := j;
        }
      }
      assert nbrs[..|nbrs|] == nbrs;
    }

    /** process_pwospf_hello_packet, after the packet is known to be valid. */
    method ProcessHello(k: nat, hint: nat, mask: Ip, src: Ip, rid: RouterId, now: int) returns (update: bool)
      requires k < |ifaces|
      modifies `ifaces, `links
      ensures View() == Step(old(View()), Heard(k, hint, mask, src, rid, now))
      ensures update <==> hint == interval && mask == old(ifaces)[k].mask &&
                          forall b :: b in old(ifaces)[k].nbrs ==> !(b.ip == src && b.rid == rid)
    {
      hide LastMatch, FirstOn;
      update := false;
      var i := ifaces[k];
      if interval != hint || i.mask != mask {
        return;
      }
      var match_ := FindNeighbour(i.nbrs, src, rid);
      if match_ < |i.nbrs| {
        assert i.nbrs[match_] in i.nbrs;
        ifaces := ifaces[k := i.(nbrs := i.nbrs[match_ := i.nbrs[match_].(lastHello := now)])];
        return;
      }
      ifaces := ifaces[k := i.(nbrs := i.nbrs + [Nbr(rid, src, now)])];
      var j := FindOn(i, 0);
      if j < |links| {
        links := links[j := links[j].(rid := rid)];
      } else {
        links := links + [Link(i.ip & i.mask, i.mask, rid, false)];
      }
      update := true;
    }

    method FindOn(i: Iface, rid: RouterId) returns (j: nat)
      ensures j == FirstOn(links, i, rid)
    {
      hide On;
      j := 0;
      while j < |links| && !(On(links[j], i) && links[j].rid == rid)
        invariant j <= |links|
        invariant forall x :: 0 <= x < j ==> !(On(links[x], i) && links[x].rid == rid)
      {
        j := j + 1;
      }
    }

    /** Count the entries on the subnet of `i`, as the time-out pass does before it removes one. */
    method CountOn(i: Iface) returns (count: nat)
      ensures count == |LinkBag(links, i)|
    {
      hide On;
      count := 0;
      for j := 0 to |links|
        invariant count == |LinkBag(links[..j], i)|
      {
        assert links[..j + 1][..j] == links[..j];
        if On(links[j], i) {
          count := count + 1;
        }
      }
      assert links[..|links|] == links;
    }

    /** Forget a lost neighbour's entry; `assert count > 0` is the source's own assertion. */
    method ForgetLink(i: Iface, rid: RouterId)
      requires |LinkBag(links, i)| > 0
      modifies `links
      ensures links == Forgotten(old(links), i, rid)
    {
      hide On, LinkBag;
      var count := CountOn(i);
      assert count > 0;
      if count == 1 {
        var j := 0;
        while j < |links| && !On(links[j], i)
          invariant j <= |links|
          invariant forall x :: 0 <= x < j ==> !On(links[x], i)
        {
          j := j + 1;
        }
        if j < |links| {
          links := links[j := links[j].(rid := 0)];
        }
      } else {
        var j := FindOn(i, rid);
        if j < |links| {
          links := links[..j] + links[j + 1..];
        }
      }
    }

    /** determine_timedout_interface: the pass over one interface's neighbours. */
    method DetermineTimedOut(k: nat, now: int) returns (timedOut: bool)
      requires k < |ifaces| && Populated(View())
      modifies `ifaces, `links
      ensures View() == Step(old(View()), Tick(k, now))
      ensures Populated(View())
      ensures timedOut <==> AnyTimedOut(old(ifaces)[k].nbrs, interval, now)
    {
      hide Populated, Forgotten, LinkBag, On;
      timedOut := false;
      ghost var start := View();
      var j := 0;
      while j < |ifaces[k].nbrs|
        invariant k < |ifaces| == |start.ifaces| && j <= |ifaces[k].nbrs|
        invariant interval == start.interval && Populated(View())
        invariant ExpireFrom(View(), k, j, now) == ExpireFrom(start, k, 0, now)
        invariant timedOut || AnyTimedOut(ifaces[k].nbrs[j..], interval, now) <==>
                  AnyTimedOut(start.ifaces[k].nbrs, interval, now)
        decreases |ifaces[k].nbrs| - j
      {
        var i := ifaces[k];
        assert i.nbrs[j..][1..] == i.nbrs[j + 1..];
        if now - i.nbrs[j].lastHello > 3 * interval {
          timedOut := true;
          PortPopulated(View(), k);
          DropPopulated(View(), k, j);
          ForgetLink(i, i.nbrs[j].rid);
          ifaces := ifaces[k := i.(nbrs := i.nbrs[..j] + i.nbrs[j + 1..])];
          assert ifaces[k].nbrs[j..] == i.nbrs[j + 1..];
        } else {
          j := j + 1;
        }
      }
    }
  }

  lemma PortPopulated(s: State, k: nat)
    requires Populated(s) && k < |s.ifaces|
    ensures |LinkBag(s.links, s.ifaces[k])| > 0
  {
  }
}
