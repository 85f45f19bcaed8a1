/**
 The forwarding table: longest-prefix lookup in software, the bubble sort after every change, and
 the 32 TCAM rows the sorted table is copied to. The rows must answer as the software does.
 */
module RouteTable {
  import opened Net

  const ROWS: nat := 32

  // ---------------------------------------------------------------- order

  /** The number an address stands for in host order. */
  function Num(m: Ip): nat {
    m as nat
  }

  /** The swap condition of the bubble sort: `b` belongs before `a`. */
  predicate OutOfOrder(a: Route, b: Route) {
    || Num(a.mask) < Num(b.mask)
    || (Num(a.mask) == Num(b.mask) && Num(a.ip) < Num(b.ip))
    || (Num(a.mask) == Num(b.mask) && Num(a.ip) == Num(b.ip) && !a.isStatic && b.isStatic)
  }

  predicate Sorted(rs: seq<Route>) {
    forall i, j :: 0 <= i < j < |rs| ==> !OutOfOrder(rs[i], rs[j])
  }

  lemma OrderAsymmetric(a: Route, b: Route)
    requires OutOfOrder(a, b)
    ensures !OutOfOrder(b, a)
  {
    hide Num;
  }

  lemma OrderTransitive(a: Route, b: Route, c: Route)
    requires !OutOfOrder(a, b) && !OutOfOrder(b, c)
    ensures !OutOfOrder(a, c)
  {
    hide Num;
  }

  /** What sorted means: masks descend; of one mask, addresses descend; of one subnet, static entries come first. */
  lemma SortedKeys(rs: seq<Route>, i: nat, j: nat)
    requires Sorted(rs) && i < j < |rs|
    ensures rs[i].mask as nat >= rs[j].mask as nat
    ensures rs[i].mask == rs[j].mask ==> rs[i].ip as nat >= rs[j].ip as nat
    ensures rs[i].mask == rs[j].mask && rs[i].ip == rs[j].ip && rs[j].isStatic ==> rs[i].isStatic
  {
    assert !OutOfOrder(rs[i], rs[j]);
  }

  /** How many of `rs` belong before `x`. */
  function Overtakers(x: Route, rs: seq<Route>): nat {
    if rs == [] then 0 else (if OutOfOrder(x, rs[0]) then 1 else 0) + Overtakers(x, rs[1..])
  }

  function Inversions(rs: seq<Route>): nat {
    if rs == [] then 0 else Overtakers(rs[0], rs[1..]) + Inversions(rs[1..])
  }

  function Swapped(rs: seq<Route>, i: nat): seq<Route>
    requires i + 1 < |rs|
  {
    rs[i := rs[i + 1]][i + 1 := rs[i]]
  }

  lemma SwappedTail(rs: seq<Route>, i: nat)
    requires 0 < i && i + 1 < |rs|
    ensures Swapped(rs, i)[0] == rs[0] && Swapped(rs, i)[1..] == Swapped(rs[1..], i - 1)
  {
  }

  lemma {:induction false} OvertakersOfSwap(x: Route, rs: seq<Route>, i: nat)
    requires i + 1 < |rs|
    ensures Overtakers(x, Swapped(rs, i)) == Overtakers(x, rs)
  {
    hide OutOfOrder;
    if i == 0 {
      var rs' := Swapped(rs, 0);
      assert rs[1..][1..] == rs'[1..][1..];
    } else {
      SwappedTail(rs, i);
      OvertakersOfSwap(x, rs[1..], i - 1);
    }
  }

  /** Every swap of the pass removes an inversion, so the passes end. */
  lemma {:induction false} SwapLowers(rs: seq<Route>, i: nat)
    requires i + 1 < |rs| && OutOfOrder(rs[i], rs[i + 1])
    ensures Inversions(Swapped(rs, i)) < Inversions(rs)
  {
    hide OutOfOrder;
    if i == 0 {
      var rs' := Swapped(rs, 0);
      OrderAsymmetric(rs[0], rs[1]);
      assert rs[1..][1..] == rs'[1..][1..];
    } else {
      SwappedTail(rs, i);
      SwapLowers(rs[1..], i - 1);
      OvertakersOfSwap(rs[0], rs[1..], i - 1);
    }
  }

  lemma {:induction false} NeighboursSorted(rs: seq<Route>, i: nat, j: nat)
    requires i < j < |rs|
    requires forall k :: 0 <= k && k + 1 < |rs| ==> !OutOfOrder(rs[k], rs[k + 1])
    ensures !OutOfOrder(rs[i], rs[j])
    decreases j
  {
    hide OutOfOrder;
    assert !OutOfOrder(rs[j - 1], rs[j - 1 + 1]);
    if i < j - 1 {
      NeighboursSorted(rs, i, j - 1);
      OrderTransitive(rs[i], rs[j - 1], rs[j]);
    }
  }

  lemma SwapKeepsBag(rs: seq<Route>, i: nat)
    requires i + 1 < |rs|
    ensures multiset(Swapped(rs, i)) == multiset(rs) && |Swapped(rs, i)| == |rs|
  {
    assert rs == rs[..i] + [rs[i], rs[i + 1]] + rs[i + 2..];
    SwappedParts(rs, i);
    SameBag(rs[..i], rs[i], rs[i + 1], rs[i + 2..]);
  }

  lemma SwappedParts(rs: seq<Route>, i: nat)
    requires i + 1 < |rs|
    ensures Swapped(rs, i) == rs[..i] + [rs[i + 1], rs[i]] + rs[i + 2..]
  {
  }

  lemma SameBag<T>(x: seq<T>, a: T, b: T, z: seq<T>)
    ensures multiset(x + [a, b] + z) == multiset(x + [b, a] + z)
  {
    assert multiset([a, b]) == multiset([b, a]);
    assert multiset(x + [a, b] + z) == multiset(x) + multiset([a, b]) + multiset(z);
    assert multiset(x + [b, a] + z) == multiset(x) + multiset([b, a]) + multiset(z);
  }

  /** One pass of the bubble sort. */
  method Pass(rs: seq<Route>) returns (out: seq<Route>, swapped: bool)
    ensures multiset(out) == multiset(rs)
    ensures swapped ==> Inversions(out) < Inversions(rs)
    ensures !swapped ==> out == rs && Sorted(rs)
  {
    hide OutOfOrder, Inversions, Swapped, Sorted;
    out, swapped := rs, false;
    var last := if rs == [] then 0 else |rs| - 1;
    for i := 0 to last
      invariant |out| == |rs| && multiset(out) == multiset(rs)
      invariant swapped ==> Inversions(out) < Inversions(rs)
      invariant !swapped ==> out == rs && forall k :: 0 <= k < i ==> !OutOfOrder(rs[k], rs[k + 1])
    {
      if OutOfOrder(out[i], out[i + 1]) {
        SwapLowers(out, i);
        SwapKeepsBag(out, i);
        out, swapped := Swapped(out, i), true;
      }
    }
    if !swapped {
      AdjacentSorted(rs);
    }
  }

  lemma AdjacentSorted(rs: seq<Route>)
    requires forall k :: 0 <= k && k + 1 < |rs| ==> !OutOfOrder(rs[k], rs[k + 1])
    ensures Sorted(rs)
  {
    hide OutOfOrder;
    forall i, j | 0 <= i < j < |rs| ensures !OutOfOrder(rs[i], rs[j]) { NeighboursSorted(rs, i, j); }
  }

  /** The do-while loop of trigger_rtable_modified: passes until one swaps nothing. */
  method BubbleSort(rs: seq<Route>) returns (out: seq<Route>)
    ensures multiset(out) == multiset(rs) && Sorted(out)
  {
    hide Inversions, Sorted;
    out := rs;
    var swapped := true;
    while swapped
      invariant multiset(out) == multiset(rs)
      invariant !swapped ==> Sorted(out)
      decreases Inversions(out), swapped
    {
      out, swapped := Pass(out);
    }
  }

  // ---------------------------------------------------------------- software lookup

  predicate Bit(m: Ip, i: bv6)
    requires i < 32
  {
    (m >> i) & 1 == 1
  }

  /** The number of set bits among the lowest `n`. */
  function Bits(m: Ip, n: bv6): nat
    requires n <= 32
  {
    if n == 0 then 0 else Bits(m, n - 1) + if Bit(m, n - 1) then 1 else 0
  }

  /** The length of the prefix a mask selects. */
  function PrefixLength(m: Ip): nat {
    Bits(m, 32)
  }

  /** The two addresses agree wherever the mask has a one. */
  predicate Agree(ip: Ip, mask: Ip, dest: Ip) {
    ip & mask == dest & mask
  }

  predicate SameAt(a: Ip, b: Ip, i: bv6)
    requires i < 32
  {
    Bit(a, i) == Bit(b, i)
  }

  function Half(m: Ip): Ip {
    m >> 1
  }

  /** The word without its lowest `n` bits. */
  function Top(m: Ip, n: bv6): Ip
    requires n <= 32
  {
    m >> n
  }

  lemma TopStep(m: Ip, n: bv6)
    requires n < 32
    ensures Half(Top(m, n)) == Top(m, n + 1) && Bit(Top(m, n), 0) == Bit(m, n)
  {
  }

  lemma TopEnds(m: Ip)
    ensures Top(m, 32) == 0 && Top(m, 0) == m
  {
  }

  lemma SameHalves(a: Ip, b: Ip)
    requires Half(a) == Half(b) && Bit(a, 0) == Bit(b, 0)
    ensures a == b
  {
  }

  lemma SameTop(a: Ip, b: Ip, n: bv6)
    requires n < 32 && SameAt(a, b, n) && Top(a, n + 1) == Top(b, n + 1)
    ensures Top(a, n) == Top(b, n)
  {
    hide Bit, Top, Half;
    TopStep(a, n);
    TopStep(b, n);
    SameHalves(Top(a, n), Top(b, n));
  }

  lemma {:induction false} SameBits(a: Ip, b: Ip, n: bv6)
    requires n <= 32 && forall i: bv6 :: i < 32 ==> SameAt(a, b, i)
    ensures Top(a, n) == Top(b, n)
    decreases 32 - n
  {
    hide SameAt, Top;
    if n < 32 {
      SameBits(a, b, n + 1);
      SameTop(a, b, n);
    } else {
      TopEnds(a);
      TopEnds(b);
    }
  }

  /** Bit `i` of the two addresses is the same, or the mask leaves it out. */
  predicate AgreeAt(ip: Ip, mask: Ip, dest: Ip, i: bv6)
    requires i < 32
  {
    Bit(mask, i) ==> (Bit(ip, i) <==> Bit(dest, i))
  }

  lemma MaskedBit(ip: Ip, mask: Ip, dest: Ip, i: bv6)
    requires i < 32
    ensures SameAt(ip & mask, dest & mask, i) <==> AgreeAt(ip, mask, dest, i)
  {
  }

  lemma AgreeIsSame(ip: Ip, mask: Ip, dest: Ip)
    ensures Agree(ip, mask, dest) <==> Top(ip & mask, 0) == Top(dest & mask, 0)
  {
  }

  lemma SameEverywhere(a: Ip, b: Ip, i: bv6)
    requires i < 32 && Top(a, 0) == Top(b, 0)
    ensures SameAt(a, b, i)
  {
  }

  /** Bit by bit: an address is in a subnet exactly if it agrees with it wherever the mask has a one. */
  lemma AgreeIsBitwise(ip: Ip, mask: Ip, dest: Ip)
    ensures Agree(ip, mask, dest) <==> forall i: bv6 :: i < 32 ==> AgreeAt(ip, mask, dest, i)
  {
    hide SameAt, AgreeAt, Top, Agree;
    AgreeIsSame(ip, mask, dest);
    MaskedBits(ip & mask, dest & mask, ip, mask, dest);
  }

  lemma MaskedBits(a: Ip, b: Ip, ip: Ip, mask: Ip, dest: Ip)
    requires a == ip & mask && b == dest & mask
    ensures Top(a, 0) == Top(b, 0) <==> forall i: bv6 :: i < 32 ==> AgreeAt(ip, mask, dest, i)
  {
    hide SameAt, AgreeAt, Top;
    forall i: bv6 | i < 32 ensures AgreeAt(ip, mask, dest, i) <==> SameAt(a, b, i) {
      MaskedBit(ip, mask, dest, i);
    }
    if Top(a, 0) == Top(b, 0) {
      forall i: bv6 | i < 32 ensures SameAt(a, b, i) { SameEverywhere(a, b, i); }
    } else if forall i: bv6 :: i < 32 ==> AgreeAt(ip, mask, dest, i) {
      SameBits(a, b, 0);
    }
  }

  predicate Covers(r: Route, dest: Ip) {
    Agree(r.ip, r.mask, dest)
  }

  predicate Matches(r: Route, dest: Ip) {
    r.isActive && Covers(r, dest)
  }

  /** Entry `k` is the longest match, and the first of its length. */
  ghost predicate Longest(rs: seq<Route>, dest: Ip, k: nat) {
    && k < |rs| && Matches(rs[k], dest)
    && (forall j :: 0 <= j < |rs| && Matches(rs[j], dest) ==> PrefixLength(rs[j].mask) <= PrefixLength(rs[k].mask))
    && (forall j :: 0 <= j < k && Matches(rs[j], dest) ==> PrefixLength(rs[j].mask) < PrefixLength(rs[k].mask))
  }

  method CountBits(m: Ip) returns (bits: nat)
    ensures bits == PrefixLength(m)
  {
    hide Bit;
    bits := 0;
    var i: bv6 := 0;
    while i < 32
      invariant i <= 32 && bits == Bits(m, i)
    {
      if Bit(m, i) {
        bits := bits + 1;
      }
      i := i + 1;
    }
  }

  /** The scan of get_next_hop; the result is a position, or the length of the table. */
  method LongestMatch(rs: seq<Route>, dest: Ip) returns (k: nat)
    ensures k <= |rs|
    ensures k < |rs| ==> Longest(rs, dest, k)
    ensures k == |rs| ==> forall j :: 0 <= j < |rs| ==> !Matches(rs[j], dest)
  {
    hide Covers, PrefixLength;
    k := |rs|;
    var most: int := -1;
    for i := 0 to |rs|
      invariant k == |rs| || k < i
      invariant k == |rs| ==> most == -1 && forall j :: 0 <= j < i ==> !Matches(rs[j], dest)
      invariant k < |rs| ==> most == PrefixLength(rs[k].mask) && Matches(rs[k], dest)
      invariant k < |rs| ==> forall j :: 0 <= j < i && Matches(rs[j], dest) ==> PrefixLength(rs[j].mask) <= most
      invariant k < |rs| ==> forall j :: 0 <= j < k && Matches(rs[j], dest) ==> PrefixLength(rs[j].mask) < most
    {
      if rs[i].isActive && Covers(rs[i], dest) {
        var bits := CountBits(rs[i].mask);
        if bits > most {
          k, most := i, bits;
        }
      }
    }
  }

  /** get_next_hop: the next hop's address and interface. */
  method GetNextHop(rs: seq<Route>, dest: Ip) returns (hop: Option<(Ip, string)>)
    ensures hop.None? <==> forall j :: 0 <= j < |rs| ==> !Matches(rs[j], dest)
    ensures hop.Some? ==>
              exists k: nat :: Longest(rs, dest, k) && hop.value == (if rs[k].gw == 0 then dest else rs[k].gw, rs[k].iface)
  {
    hide Longest, Covers;
    var k := LongestMatch(rs, dest);
    if k == |rs| {
      return None;
    }
    LongestMatches(rs, dest, k);
    return Some((if rs[k].gw == 0 then dest else rs[k].gw, rs[k].iface));
  }

  lemma LongestMatches(rs: seq<Route>, dest: Ip, k: nat)
    requires Longest(rs, dest, k)
    ensures k < |rs| && Matches(rs[k], dest)
  {
  }

  /** Some match is the longest one, and the first of its length. */
  lemma {:induction false} LongestExists(rs: seq<Route>, dest: Ip, j: nat) returns (k: nat)
    requires j < |rs| && Matches(rs[j], dest)
    ensures Longest(rs, dest, k)
  {
    hide Covers, PrefixLength;
    k := j;
    for i := 0 to |rs|
      invariant k < |rs| && Matches(rs[k], dest)
      invariant forall x :: 0 <= x < i && Matches(rs[x], dest) ==> PrefixLength(rs[x].mask) <= PrefixLength(rs[k].mask)
      invariant forall x :: 0 <= x < i && x < k && Matches(rs[x], dest) ==> PrefixLength(rs[x].mask) < PrefixLength(rs[k].mask)
    {
      if Matches(rs[i], dest) {
        var more := PrefixLength(rs[i].mask) > PrefixLength(rs[k].mask);
        if more || (PrefixLength(rs[i].mask) == PrefixLength(rs[k].mask) && i < k) {
          k := i;
        }
      }
    }
  }

  /** Of two matching routes for the same subnet the static one is picked. */
  lemma StaticWins(rs: seq<Route>, dest: Ip, k: nat, j: nat)
    requires Sorted(rs) && Longest(rs, dest, k) && j < |rs| && Matches(rs[j], dest)
    requires rs[j].ip == rs[k].ip && rs[j].mask == rs[k].mask && rs[j].isStatic
    ensures rs[k].isStatic
  {
    hide Covers, PrefixLength, Sorted;
    if k < j {
      SortedKeys(rs, k, j);
    }
  }

  // ---------------------------------------------------------------- contiguous masks

  /** The mask of prefix length `k`. */
  function Prefix(k: bv6): Ip
    requires k <= 32
  {
    !((0xFFFFFFFF as bv32) >> k)
  }

  /** Ones followed by zeros. */
  ghost predicate Contiguous(m: Ip) {
    exists k: bv6 :: k <= 32 && m == Prefix(k)
  }

  lemma PrefixBit(k: bv6, i: bv6)
    requires k <= 32 && i < 32
    ensures Bit(Prefix(k), i) <==> i >= 32 - k
  {
  }

  lemma {:induction false} LongerPrefixHasMoreBits(j: bv6, k: bv6, n: bv6)
    requires j <= k <= 32 && n <= 32
    ensures Bits(Prefix(j), n) <= Bits(Prefix(k), n)
    ensures j < k && n > 32 - k ==> Bits(Prefix(j), n) < Bits(Prefix(k), n)
  {
    hide Bit, Prefix;
    if n > 0 {
      PrefixBit(j, n - 1);
      PrefixBit(k, n - 1);
      LongerPrefixHasMoreBits(j, k, n - 1);
    }
  }

  lemma PrefixOrder(j: bv6, k: bv6)
    requires j <= 32 && k <= 32
    ensures Num(Prefix(j)) <= Num(Prefix(k)) <==> j <= k
  {
    if j < k {
      assert Num(Prefix(j)) < Num(Prefix(k));
    }
  }

  /** For contiguous masks the numeric order the sort uses is the order of prefix lengths. */
  lemma MaskOrderIsPrefixOrder(a: Ip, b: Ip)
    requires Contiguous(a) && Contiguous(b) && Num(a) <= Num(b)
    ensures PrefixLength(a) <= PrefixLength(b)
  {
    hide Num, Bits;
    var j: bv6 :| j <= 32 && a == Prefix(j);
    var k: bv6 :| k <= 32 && b == Prefix(k);
    PrefixOrder(j, k);
    LongerPrefixHasMoreBits(j, k, 32);
  }

  // ---------------------------------------------------------------- the hardware image

  /** A TCAM row. Port 0 marks an empty row. */
  datatype Row = Row(ip: Ip, mask: Ip, gw: Ip, port: nat)

  const EMPTY_ROW: Row := Row(0, 0, 0, 0)

  /** getOneHotPortNumber: 0 is where the source's assertion fails. */
  function PortNumber(iface: string): nat {
    if iface == "eth0" then 1 else if iface == "eth1" then 4 else if iface == "cpu0" then 2 else if iface == "cpu1" then 8 else 0
  }

  /** getIfaceFromOneHotPortNumber: the empty name for a port that is none. */
  function PortName(port: nat): string {
    match port
    case 1 => "eth0"
    case 2 => "cpu0"
    case 4 => "eth1"
    case 8 => "cpu1"
    case _ => ""
  }

  /** The two translations undo each other; network ports have even bits, and CPU ports the odd one beside. */
  lemma PortsRoundTrip(iface: string, port: nat)
    ensures PortNumber(iface) != 0 ==> PortName(PortNumber(iface)) == iface
    ensures PortName(port) != "" ==> PortNumber(PortName(port)) == port
    ensures PortNumber("eth0") == 1 && PortNumber("eth1") == 4
    ensures PortNumber("cpu0") == 2 * PortNumber("eth0") && PortNumber("cpu1") == 2 * PortNumber("eth1")
  {
    var names := ["eth0", "eth1", "cpu0", "cpu1"];
    assert names[0][0] == 'e' && names[2][0] == 'c' && names[0][3] == '0' && names[1][3] == '1' && names[3][3] == '1';
  }

  /** The row says what the entry says. */
  predicate Shows(row: Row, r: Route) {
    row.ip == r.ip && row.mask == r.mask && row.gw == r.gw && PortName(row.port) == r.iface
  }

  lemma RowShows(r: Route)
    requires PortNumber(r.iface) != 0
    ensures Shows(RowOf(r), r)
  {
    hide PortNumber, PortName;
    PortsRoundTrip(r.iface, 0);
  }

  function RowOf(r: Route): Row {
    Row(r.ip, r.mask, r.gw, PortNumber(r.iface))
  }

  function Actives(rs: seq<Route>): (out: seq<Route>)
    ensures forall r :: r in out ==> r in rs && r.isActive
  {
    if rs == [] then [] else (if rs[0].isActive then [rs[0]] else []) + Actives(rs[1..])
  }

  /** What write_rtable_to_hw leaves in the TCAM: the first 32 active entries, then empty rows. */
  function Image(rs: seq<Route>): (rows: seq<Row>)
    ensures |rows| == ROWS
  {
    var active := Actives(rs);
    seq(ROWS, i requires 0 <= i < ROWS => if i < |active| then RowOf(active[i]) else EMPTY_ROW)
  }

  predicate Hit(row: Row, dest: Ip) {
    row.port != 0 && Agree(row.ip, row.mask, dest)
  }

  /** The TCAM's answer: the lowest row that matches. */
  function TcamLookup(rows: seq<Row>, dest: Ip): (k: nat)
    ensures k <= |rows|
    ensures k < |rows| ==> Hit(rows[k], dest)
    ensures forall j :: 0 <= j < k ==> !Hit(rows[j], dest)
  {
    if rows == [] || Hit(rows[0], dest) then 0 else 1 + TcamLookup(rows[1..], dest)
  }

  /** The first active entry that covers `dest`, or the length of the list. */
  function FirstMatch(rs: seq<Route>, dest: Ip): (k: nat)
    ensures k <= |rs|
    ensures k < |rs| ==> Matches(rs[k], dest)
    ensures forall j :: 0 <= j < k ==> !Matches(rs[j], dest)
  {
    if rs == [] || Matches(rs[0], dest) then 0 else 1 + FirstMatch(rs[1..], dest)
  }

  function ActiveMasks(rs: seq<Route>): set<Ip> {
    set r | r in rs && r.isActive :: r.mask
  }

  /** Among these masks the numeric order, which the sort uses, is the order of prefix lengths. */
  ghost predicate OrdersAgree(masks: set<Ip>) {
    forall a, b :: a in masks && b in masks && Num(a) <= Num(b) ==> PrefixLength(a) <= PrefixLength(b)
  }

  lemma ContiguousAgree(masks: set<Ip>)
    requires forall a :: a in masks ==> Contiguous(a)
    ensures OrdersAgree(masks)
  {
    hide Num, Contiguous, PrefixLength;
    forall a, b | a in masks && b in masks && Num(a) <= Num(b) ensures PrefixLength(a) <= PrefixLength(b) {
      MaskOrderIsPrefixOrder(a, b);
    }
  }

  predicate PortsKnown(rs: seq<Route>) {
    forall r :: r in rs && r.isActive ==> PortNumber(r.iface) != 0
  }

  /** In a sorted table over masks whose orders agree the first match is the longest one. */
  lemma FirstMatchIsLongest(rs: seq<Route>, dest: Ip)
    requires Sorted(rs) && OrdersAgree(ActiveMasks(rs)) && FirstMatch(rs, dest) < |rs|
    ensures Longest(rs, dest, FirstMatch(rs, dest))
  {
    hide Covers, Num, PrefixLength, FirstMatch;
    var k := FirstMatch(rs, dest);
    forall j | 0 <= j < |rs| && Matches(rs[j], dest)
      ensures j >= k && PrefixLength(rs[j].mask) <= PrefixLength(rs[k].mask)
    {
      if j != k {
        assert !OutOfOrder(rs[k], rs[j]);
        assert rs[j] in rs && rs[k] in rs;
        assert rs[j].mask in ActiveMasks(rs) && rs[k].mask in ActiveMasks(rs);
      }
    }
  }

  /** Every sorted table over these masks is right about every destination. */
  ghost predicate FirstIsLongest(masks: set<Ip>) {
    forall rs, dest :: Sorted(rs) && ActiveMasks(rs) <= masks && FirstMatch(rs, dest) < |rs| ==>
      Longest(rs, dest, FirstMatch(rs, dest))
  }

  /** Exactly which sets of masks are safe to sort by their numeric value. */
  lemma OrdersAgreeExactly(masks: set<Ip>)
    ensures FirstIsLongest(masks) <==> OrdersAgree(masks)
  {
    hide Longest, Sorted, FirstMatch, ActiveMasks, OrdersAgree;
    if OrdersAgree(masks) {
      forall rs, dest | Sorted(rs) && ActiveMasks(rs) <= masks && FirstMatch(rs, dest) < |rs|
        ensures Longest(rs, dest, FirstMatch(rs, dest))
      {
        FewerMasksAgree(ActiveMasks(rs), masks);
        FirstMatchIsLongest(rs, dest);
      }
    }
    if FirstIsLongest(masks) {
      SafeMasksAgree(masks);
    }
  }

  lemma FewerMasksAgree(few: set<Ip>, masks: set<Ip>)
    requires few <= masks && OrdersAgree(masks)
    ensures OrdersAgree(few)
  {
    hide Num, PrefixLength;
  }

  lemma SafeMasksAgree(masks: set<Ip>)
    requires FirstIsLongest(masks)
    ensures OrdersAgree(masks)
  {
    hide Num, PrefixLength, Longest, Sorted, FirstMatch, ActiveMasks;
    forall a, b | a in masks && b in masks && Num(a) <= Num(b) ensures PrefixLength(a) <= PrefixLength(b) {
      var rs := [Route(0, 1, b, "eth0", true, true), Route(0, 2, a, "eth1", true, true)];
      DisputedTable(a, b);
      assert ActiveMasks(rs) <= masks;
      assert Longest(rs, 0, FirstMatch(rs, 0));
    }
  }

  /** Two routes for everything under their masks; the larger mask comes first. */
  lemma DisputedTable(a: Ip, b: Ip)
    requires Num(a) <= Num(b)
    ensures var rs := [Route(0, 1, b, "eth0", true, true), Route(0, 2, a, "eth1", true, true)];
            && Sorted(rs) && ActiveMasks(rs) == {a, b} && FirstMatch(rs, 0) == 0
            && (Longest(rs, 0, 0) <==> PrefixLength(a) <= PrefixLength(b))
  {
    hide Num, PrefixLength, Agree;
    var ra, rb := Route(0, 2, a, "eth1", true, true), Route(0, 1, b, "eth0", true, true);
    var rs := [rb, ra];
    AgreesWithItself(a);
    AgreesWithItself(b);
    assert rs[0] == rb && rs[1] == ra;
    assert forall r :: r in rs <==> r == ra || r == rb;
    assert Matches(rb, 0) && Matches(ra, 0);
  }

  lemma AgreesWithItself(mask: Ip)
    ensures Agree(0, mask, 0)
  {
  }

  lemma LongestIsUnique(rs: seq<Route>, dest: Ip, j: nat, k: nat)
    requires Longest(rs, dest, j) && Longest(rs, dest, k)
    ensures j == k
  {
    hide Covers, PrefixLength;
  }

  /** Leaving out inactive entries does not change the first match. */
  lemma {:induction false} FirstActiveMatch(rs: seq<Route>, dest: Ip)
    ensures var a, k := FirstMatch(Actives(rs), dest), FirstMatch(rs, dest);
            && (a < |Actives(rs)| <==> k < |rs|)
            && (k < |rs| ==> Actives(rs)[a] == rs[k])
  {
    hide Matches, Actives, FirstMatch;
    if rs == [] {
      NoActives();
    } else {
      FirstActiveMatch(rs[1..], dest);
      FirstOfActives(rs, dest);
      var k := FirstMatch(rs[1..], dest);
      assert k < |rs[1..]| ==> rs[1..][k] == rs[1 + k];
    }
  }

  lemma FirstOfActives(rs: seq<Route>, dest: Ip)
    requires rs != []
    ensures rs[0].isActive ==> Actives(rs) == [rs[0]] + Actives(rs[1..])
    ensures !rs[0].isActive ==> Actives(rs) == Actives(rs[1..]) && !Matches(rs[0], dest)
    ensures rs[0].isActive && !Matches(rs[0], dest) ==>
              FirstMatch(Actives(rs), dest) == 1 + FirstMatch(Actives(rs[1..]), dest)
    ensures Matches(rs[0], dest) ==> FirstMatch(Actives(rs), dest) == 0 && FirstMatch(rs, dest) == 0
    ensures !Matches(rs[0], dest) ==> FirstMatch(rs, dest) == 1 + FirstMatch(rs[1..], dest)
  {
    hide Covers;
    if rs[0].isActive {
      assert ([rs[0]] + Actives(rs[1..]))[1..] == Actives(rs[1..]);
    }
  }

  lemma RowHits(r: Route, dest: Ip)
    requires r.isActive && PortNumber(r.iface) != 0
    ensures Hit(RowOf(r), dest) <==> Matches(r, dest)
  {
    hide Agree;
  }

  /** The rank among active entries of the entry that software picks. */
  lemma ImageLookup(rs: seq<Route>, dest: Ip)
    requires PortsKnown(rs)
    ensures var a := FirstMatch(Actives(rs), dest);
            TcamLookup(Image(rs), dest) == if a < |Actives(rs)| && a < ROWS then a else ROWS
  {
    hide Covers, Hit, RowOf, Matches, Actives, PortNumber;
    var active, rows := Actives(rs), Image(rs);
    var a, k := FirstMatch(active, dest), TcamLookup(rows, dest);
    forall i | 0 <= i < ROWS
      ensures Hit(rows[i], dest) <==> i < |active| && Matches(active[i], dest)
    {
      if i < |active| {
        assert active[i] in active;
        RowHits(active[i], dest);
      } else {
        EmptyRowMisses(dest);
      }
    }
    if a < |active| && a < ROWS {
      assert Hit(rows[a], dest);
    }
  }

  lemma EmptyRowMisses(dest: Ip)
    ensures !Hit(EMPTY_ROW, dest)
  {
  }

  /**
   The TCAM refines the software lookup. If software finds no route, neither does the TCAM. If it
   picks entry `k`, the TCAM answers with the row of that very entry, provided fewer than 32 active
   entries are sorted before it, and otherwise misses. It never answers with another route.
   */
  lemma TcamRefinesLookup(rs: seq<Route>, dest: Ip, k: nat)
    requires Sorted(rs) && OrdersAgree(ActiveMasks(rs)) && PortsKnown(rs) && Longest(rs, dest, k)
    ensures var h := TcamLookup(Image(rs), dest);
            && (h < ROWS ==> Shows(Image(rs)[h], rs[k]))
            && (h == ROWS ==> |Actives(rs)| > ROWS)
            && (h < ROWS <==> |Actives(rs[..k])| < ROWS)
  {
    hide Covers, Num, OrdersAgree, PrefixLength, Hit, PortNumber, RowOf, TcamLookup, Shows;
    LongestMatches(rs, dest, k);
    assert rs[k] in rs;
    RowShows(rs[k]);
    FirstActiveMatch(rs, dest);
    ImageLookup(rs, dest);
    FirstMatchIsLongest(rs, dest);
    LongestIsUnique(rs, dest, FirstMatch(rs, dest), k);
    RankOfMatch(rs, dest, k);
  }

  lemma {:induction false} RankOfMatch(rs: seq<Route>, dest: Ip, k: nat)
    requires k < |rs| && k == FirstMatch(rs, dest)
    ensures FirstMatch(Actives(rs), dest) == |Actives(rs[..k])|
    decreases |rs|
  {
    hide Matches, Actives, FirstMatch;
    FirstOfActives(rs, dest);
    NoActives();
    if k == 0 {
      assert rs[..0] == [];
    } else {
      RankOfMatch(rs[1..], dest, k - 1);
      FirstOfActives(rs[..k], dest);
      assert rs[..k][0] == rs[0] && rs[..k][1..] == rs[1..][..k - 1];
    }
  }

  lemma NoActives()
    ensures Actives([]) == []
  {
  }

  /** With no route in software there is no hit in hardware either, whatever the masks and order. */
  lemma TcamMisses(rs: seq<Route>, dest: Ip)
    requires PortsKnown(rs) && forall j :: 0 <= j < |rs| ==> !Matches(rs[j], dest)
    ensures TcamLookup(Image(rs), dest) == ROWS
  {
    hide Covers, Hit, PortNumber, RowOf, TcamLookup;
    FirstActiveMatch(rs, dest);
    ImageLookup(rs, dest);
  }

  lemma {:induction false} SmallMaskBits(m: Ip, n: bv6)
    requires m <= 7 && 3 <= n <= 32
    ensures Bits(m, n) == Bits(m, 3)
  {
    if n > 3 {
      SmallMaskBits(m, n - 1);
      assert !Bit(m, n - 1);
    }
  }

  /** Masks with holes can break it: here the larger mask is not the longer one. */
  lemma HolesBreakTheOrder()
    ensures var a := Route(4, 1, 4, "eth0", true, true);
            var b := Route(3, 2, 3, "eth1", true, true);
            Sorted([a, b]) && FirstMatch([a, b], 7) == 0 && Longest([a, b], 7, 1)
    ensures !OrdersAgree({3, 4})
  {
    var a := Route(4, 1, 4, "eth0", true, true);
    var b := Route(3, 2, 3, "eth1", true, true);
    SmallMaskBits(4, 32);
    SmallMaskBits(3, 32);
    assert !Bit(4, 0) && !Bit(4, 1) && Bit(4, 2) && Bit(3, 0) && Bit(3, 1) && !Bit(3, 2);
    assert Bits(4, 3) == 1 && Bits(3, 3) == 2;
    assert PrefixLength(4) == 1 && PrefixLength(3) == 2;
    assert Matches(a, 7) && Matches(b, 7);
    assert Num(4) == 4 && Num(3) == 3;
  }

  // ---------------------------------------------------------------- table operations as values

  /** The entries del_route keeps: those that differ in destination or mask. */
  function Deleted(rs: seq<Route>, dest: Ip, mask: Ip): seq<Route> {
    if rs == [] then
      []
    else
      Deleted(rs[..|rs| - 1], dest, mask) +
      if rs[|rs| - 1].ip == dest && rs[|rs| - 1].mask == mask then [] else [rs[|rs| - 1]]
  }

  /** On interface names that start with `iface`, static entries go inactive and dynamic ones go. */
  function Deactivated(rs: seq<Route>, iface: string): seq<Route> {
    if rs == [] then
      []
    else
      var last := rs[|rs| - 1];
      Deactivated(rs[..|rs| - 1], iface) +
      if iface <= last.iface then (if last.isStatic then [last.(isActive := false)] else []) else [last]
  }

  function Activated(rs: seq<Route>, iface: string): seq<Route> {
    if rs == [] then
      []
    else
      var last := rs[|rs| - 1];
      Activated(rs[..|rs| - 1], iface) + [if iface <= last.iface then last.(isActive := true) else last]
  }

  /** On a downed interface exactly the static entries are left, inactive; the others are untouched. */
  lemma {:induction false} DownStopsForwarding(rs: seq<Route>, iface: string, r: Route)
    ensures r in Deactivated(rs, iface) <==>
            if iface <= r.iface then r.isStatic && !r.isActive && (r in rs || r.(isActive := true) in rs) else r in rs
  {
    hide Deactivated;
    if rs == [] {
      NothingUpOrDown(iface);
    } else {
      var init, last := rs[..|rs| - 1], rs[|rs| - 1];
      DownStopsForwarding(init, iface, r);
      DeactivatedSnoc(init, last, iface);
      assert rs == init + [last];
    }
  }

  /** On an interface that comes up everything becomes active. */
  lemma {:induction false} UpStartsForwarding(rs: seq<Route>, iface: string, r: Route)
    ensures r in Activated(rs, iface) <==>
            if iface <= r.iface then r.isActive && (r in rs || r.(isActive := false) in rs) else r in rs
  {
    hide Activated;
    if rs == [] {
      NothingUpOrDown(iface);
    } else {
      var init, last := rs[..|rs| - 1], rs[|rs| - 1];
      UpStartsForwarding(init, iface, r);
      ActivatedSnoc(init, last, iface);
      assert rs == init + [last];
    }
  }

  /** Down and up again brings back every entry that was active, except the dynamic ones of that interface. */
  lemma {:induction false} UpRestores(rs: seq<Route>, iface: string)
    requires forall r :: r in rs && iface <= r.iface ==> r.isStatic && r.isActive
    ensures Activated(Deactivated(rs, iface), iface) == rs
  {
    hide Deactivated, Activated;
    if rs == [] {
      NothingUpOrDown(iface);
    } else {
      var init, last := rs[..|rs| - 1], rs[|rs| - 1];
      assert rs == init + [last] && last in rs;
      UpRestores(init, iface);
      DeactivatedSnoc(init, last, iface);
      ActivatedSnoc(Deactivated(init, iface), if iface <= last.iface then last.(isActive := false) else last, iface);
    }
  }

  lemma NothingUpOrDown(iface: string)
    ensures Deactivated([], iface) == [] && Activated([], iface) == []
  {
  }

  lemma DeactivatedSnoc(rs: seq<Route>, r: Route, iface: string)
    ensures Deactivated(rs + [r], iface) == Deactivated(rs, iface) +
            if iface <= r.iface then (if r.isStatic then [r.(isActive := false)] else []) else [r]
  {
    assert (rs + [r])[..|rs|] == rs;
  }

  lemma ActivatedSnoc(rs: seq<Route>, r: Route, iface: string)
    ensures Activated(rs + [r], iface) ==
            Activated(rs, iface) + [if iface <= r.iface then r.(isActive := true) else r]
  {
    assert (rs + [r])[..|rs|] == rs;
  }

  lemma {:induction false} DeletedMembers(rs: seq<Route>, dest: Ip, mask: Ip, r: Route)
    ensures r in Deleted(rs, dest, mask) <==> r in rs && !(r.ip == dest && r.mask == mask)
  {
    if rs != [] {
      DeletedMembers(rs[..|rs| - 1], dest, mask, r);
      assert rs == rs[..|rs| - 1] + [rs[|rs| - 1]];
    }
  }

  function Statics(rs: seq<Route>): seq<Route> {
    if rs == [] then
      []
    else
      Statics(rs[..|rs| - 1]) + if rs[|rs| - 1].isStatic then [rs[|rs| - 1]] else []
  }

  lemma {:induction false} StaticsMembers(rs: seq<Route>)
    ensures forall r :: r in Statics(rs) <==> r in rs && r.isStatic
  {
    if rs != [] {
      StaticsMembers(rs[..|rs| - 1]);
      assert rs == rs[..|rs| - 1] + [rs[|rs| - 1]];
    }
  }

  /** The merge after Dijkstra keeps all static routes and replaces exactly the dynamic ones. */
  lemma MergeReplacesDynamic(rs: seq<Route>, dynamic: seq<Route>, out: seq<Route>, r: Route)
    requires multiset(out) == multiset(Statics(rs) + dynamic) && forall d :: d in dynamic ==> !d.isStatic
    ensures r.isStatic ==> (r in out <==> r in rs)
    ensures !r.isStatic ==> (r in out <==> r in dynamic)
  {
    StaticsMembers(rs);
    assert r in out <==> r in multiset(out);
    assert r in multiset(out) <==> r in Statics(rs) + dynamic;
  }

  /** After a merge an active static route still wins over a computed one for its subnet. */
  lemma MergePrefersStatic(rs: seq<Route>, dynamic: seq<Route>, out: seq<Route>, dest: Ip, k: nat, r: Route)
    requires multiset(out) == multiset(Statics(rs) + dynamic) && forall d :: d in dynamic ==> !d.isStatic
    requires Sorted(out) && Longest(out, dest, k) && r in rs && r.isStatic && Matches(r, dest)
    ensures k < |out|
    ensures out[k].ip == r.ip && out[k].mask == r.mask ==> out[k].isStatic && out[k] in rs
  {
    hide Covers, PrefixLength, Sorted, Statics, Longest;
    LongestMatches(out, dest, k);
    MergeReplacesDynamic(rs, dynamic, out, r);
    var j :| 0 <= j < |out| && out[j] == r;
    if out[k].ip == r.ip && out[k].mask == r.mask {
      StaticWins(out, dest, k, j);
      assert out[k] in out;
      MergeReplacesDynamic(rs, dynamic, out, out[k]);
    }
  }

  lemma PermutationKeeps(a: seq<Route>, b: seq<Route>)
    requires multiset(a) == multiset(b)
    ensures PortsKnown(a) ==> PortsKnown(b)
  {
    hide PortNumber;
    forall r | r in b ensures r in a { assert r in multiset(b); }
  }

  // ---------------------------------------------------------------- the code

  lemma ImageAt(rs: seq<Route>, i: nat)
    requires i < ROWS
    ensures Image(rs)[i] == if i < |Actives(rs)| then RowOf(Actives(rs)[i]) else EMPTY_ROW
  {
  }

  /** The active entries from `cur` on are those due for row `i` and below. */
  ghost predicate Due(rs: seq<Route>, cur: nat, i: nat)
    requires cur <= |rs|
  {
    Actives(rs[cur..]) == if i <= |Actives(rs)| then Actives(rs)[i..] else []
  }

  lemma DueFirst(rs: seq<Route>, cur: nat)
    requires cur <= |rs| && Actives(rs[0..]) == Actives(rs[cur..])
    ensures Due(rs, cur, 0)
  {
    hide Actives;
    assert rs[0..] == rs;
  }

  lemma DueSkips(rs: seq<Route>, cur: nat, next: nat, i: nat)
    requires cur <= next <= |rs| && Due(rs, cur, i) && Actives(rs[cur..]) == Actives(rs[next..])
    ensures Due(rs, next, i)
  {
    hide Actives;
  }

  lemma DueNext(rs: seq<Route>, cur: nat, i: nat)
    requires cur <= |rs| && i < ROWS && Due(rs, cur, i) && (cur < |rs| ==> rs[cur].isActive)
    ensures cur == |rs| ==> Image(rs)[i] == EMPTY_ROW && Due(rs, cur, i + 1)
    ensures cur < |rs| ==>
              && Image(rs)[i] == Row(rs[cur].ip, rs[cur].mask, rs[cur].gw, PortNumber(rs[cur].iface))
              && Due(rs, cur + 1, i + 1)
  {
    hide Actives, Image, PortNumber;
    ImageAt(rs, i);
    ActivesFrom(rs, cur);
    if cur < |rs| {
      Peel(Actives(rs), i, rs[cur], Actives(rs[cur + 1..]));
    }
  }

  lemma Peel<T>(s: seq<T>, i: nat, x: T, rest: seq<T>)
    requires (if i <= |s| then s[i..] else []) == [x] + rest
    ensures i < |s| && s[i] == x && s[i + 1..] == rest
  {
    assert s[i..][1..] == s[i + 1..];
  }

  lemma ActivesFrom(rs: seq<Route>, k: nat)
    requires k <= |rs| && (k < |rs| ==> rs[k].isActive)
    ensures k == |rs| ==> Actives(rs[k..]) == []
    ensures k < |rs| ==> Actives(rs[k..]) == [rs[k]] + Actives(rs[k + 1..])
  {
    if k < |rs| {
      assert rs[k..][1..] == rs[k + 1..];
    }
  }

  /** The routing table of one router and the TCAM behind it. */
  class Table {
    var entries: seq<Route>
    const rows: array<Row>
    const isNetfpga: bool

    /** Sorted, and the hardware shows it. */
    ghost predicate Synced()
      reads this, rows
    {
      rows.Length == ROWS && Sorted(entries) && (isNetfpga ==> PortsKnown(entries) && rows[..] == Image(entries))
    }

    constructor (isNetfpga: bool)
      ensures this.isNetfpga == isNetfpga && entries == [] && Synced() && fresh(rows)
    {
      this.isNetfpga := isNetfpga;
      entries := [];
      rows := new Row[ROWS](i => EMPTY_ROW);
      new;
      assert rows[..] == Image([]);
    }

    /** The next active entry from position `k` on. */
    method SkipInactive(k: nat) returns (j: nat)
      requires k <= |entries|
      ensures k <= j <= |entries|
      ensures Actives(entries[k..]) == Actives(entries[j..])
      ensures j < |entries| ==> entries[j].isActive
    {
      j := k;
      while j < |entries| && !entries[j].isActive
        invariant k <= j <= |entries|
        invariant Actives(entries[k..]) == Actives(entries[j..])
      {
        assert entries[j..][1..] == entries[j + 1..];
        j := j + 1;
      }
    }

    /** write_rtable_to_hw: walk the active entries, one per row, and clear the rest. */
    method WriteToHardware()
      requires rows.Length == ROWS && PortsKnown(entries)
      modifies rows
      ensures rows[..] == Image(entries)
    {
      hide PortNumber, Actives, Image, Due, RowOf;
      var cur := SkipInactive(0);
      DueFirst(entries, cur);
      for i := 0 to ROWS
        invariant cur <= |entries| && (cur < |entries| ==> entries[cur].isActive)
        invariant Due(entries, cur, i)
        invariant forall j :: 0 <= j < i ==> rows[j] == Image(entries)[j]
      {
        DueNext(entries, cur, i);
        if cur < |entries| {
          rows[i] := Row(entries[cur].ip, entries[cur].mask, entries[cur].gw, PortNumber(entries[cur].iface));
          var next := SkipInactive(cur + 1);
          DueSkips(entries, cur + 1, next, i + 1);
          cur := next;
        } else {
          rows[i] := Row(0, 0, 0, 0);
        }
      }
    }

    /** trigger_rtable_modified: sort, then refresh the hardware. */
    method Modified()
      requires rows.Length == ROWS && (isNetfpga ==> PortsKnown(entries))
      modifies `entries, rows
      ensures multiset(entries) == multiset(old(entries)) && Synced()
    {
      hide PortNumber, PortsKnown, Sorted, Image;
      var sorted := BubbleSort(entries);
      PermutationKeeps(entries, sorted);
      entries := sorted;
      if isNetfpga {
        WriteToHardware();
      }
    }

    /** add_route. */
    method AddRoute(dest: Ip, gateway: Ip, mask: Ip, iface: string)
      requires Synced() && (isNetfpga ==> PortNumber(iface) != 0)
      modifies `entries, rows
      ensures Synced()
      ensures multiset(entries) == multiset(old(entries) + [Route(dest, gateway, mask, iface, true, true)])
    {
      hide PortNumber, Sorted, Image;
      entries := entries + [Route(dest, gateway, mask, iface, true, true)];
      Modified();
    }

    /** del_route, which also counts what it removes. */
    method DelRoute(dest: Ip, mask: Ip) returns (removed: nat)
      requires Synced()
      modifies `entries, rows
      ensures Synced() && multiset(entries) == multiset(Deleted(old(entries), dest, mask))
      ensures removed == |old(entries)| - |entries|
    {
      hide PortNumber, Sorted, Image;
      var kept: seq<Route> := [];
      removed := 0;
      for k := 0 to |entries|
        invariant kept == Deleted(entries[..k], dest, mask) && removed + |kept| == k
        invariant isNetfpga ==> PortsKnown(kept)
      {
        assert entries[..k + 1][..k] == entries[..k];
        if dest == entries[k].ip && mask == entries[k].mask {
          removed := removed + 1;
        } else {
          kept := kept + [entries[k]];
        }
      }
      assert entries[..|entries|] == entries;
      ghost var n := |kept|;
      entries := kept;
      Modified();
      assert |multiset(entries)| == |multiset(kept)|;
    }

    /** deactivate_routes. */
    method DeactivateRoutes(iface: string)
      requires Synced()
      modifies `entries, rows
      ensures Synced() && multiset(entries) == multiset(Deactivated(old(entries), iface))
    {
      hide PortNumber, Sorted, Image;
      var kept: seq<Route> := [];
      for k := 0 to |entries|
        invariant kept == Deactivated(entries[..k], iface)
        invariant isNetfpga ==> PortsKnown(kept)
      {
        assert entries[..k + 1][..k] == entries[..k];
        var e := entries[k];
        if iface <= e.iface {
          if e.isStatic {
            kept := kept + [e.(isActive := false)];
          }
        } else {
          kept := kept + [e];
        }
      }
      assert entries[..|entries|] == entries;
      entries := kept;
      Modified();
    }

    /** activate_routes. */
    method ActivateRoutes(iface: string)
      requires Synced() && (isNetfpga ==> forall r :: r in entries ==> PortNumber(r.iface) != 0)
      modifies `entries, rows
      ensures Synced() && multiset(entries) == multiset(Activated(old(entries), iface))
    {
      hide PortNumber, Sorted, Image;
      var kept: seq<Route> := [];
      for k := 0 to |entries|
        invariant kept == Activated(entries[..k], iface)
        invariant isNetfpga ==> PortsKnown(kept)
      {
        assert entries[..k + 1][..k] == entries[..k];
        kept := kept + [if iface <= entries[k].iface then entries[k].(isActive := true) else entries[k]];
      }
      assert entries[..|entries|] == entries;
      entries := kept;
      Modified();
    }

    /** The merge in dijkstra_thread: drop the dynamic entries, append the new ones. */
    method MergeDynamic(dynamic: seq<Route>)
      requires Synced() && (isNetfpga ==> PortsKnown(dynamic))
      modifies `entries, rows
      ensures Synced() && multiset(entries) == multiset(Statics(old(entries)) + dynamic)
    {
      hide PortNumber, Sorted, Image;
      var kept: seq<Route> := [];
      for k := 0 to |entries|
        invariant kept == Statics(entries[..k])
        invariant isNetfpga ==> PortsKnown(kept)
      {
        assert entries[..k + 1][..k] == entries[..k];
        if entries[k].isStatic {
          kept := kept + [entries[k]];
        }
      }
      assert entries[..|entries|] == entries;
      entries := kept + dynamic;
      Modified();
    }

    /** With the table synced, software and hardware answer alike. */
    lemma Agrees(dest: Ip, k: nat)
      requires Synced() && isNetfpga && OrdersAgree(ActiveMasks(entries)) && |Actives(entries)| <= ROWS
      requires Longest(entries, dest, k)
      ensures TcamLookup(rows[..], dest) < ROWS && Shows(rows[TcamLookup(rows[..], dest)], entries[k])
    {
      hide PortNumber, Sorted, Image, Longest, RowOf, OrdersAgree, PortsKnown, TcamLookup, Shows;
      TcamRefinesLookup(entries, dest, k);
    }

    /** So a static route of the same subnet wins over a computed one in hardware, too. */
    lemma HardwarePrefersStatic(dest: Ip, r: Route)
      requires Synced() && isNetfpga && OrdersAgree(ActiveMasks(entries)) && |Actives(entries)| <= ROWS
      requires r in entries && r.isStatic && Matches(r, dest)
      ensures TcamLookup(rows[..], dest) < ROWS
      ensures var row := rows[TcamLookup(rows[..], dest)];
              row.ip == r.ip && row.mask == r.mask ==> exists e :: e in entries && e.isStatic && Shows(row, e)
    {
      hide PortNumber, Sorted, Image, Longest, RowOf, OrdersAgree, PortsKnown, TcamLookup, Shows, Covers;
      var j :| 0 <= j < |entries| && entries[j] == r;
      var k := LongestExists(entries, dest, j);
      LongestMatches(entries, dest, k);
      Agrees(dest, k);
      ShownFields(rows[TcamLookup(rows[..], dest)], entries[k]);
      if entries[k].ip == r.ip && entries[k].mask == r.mask {
        StaticWins(entries, dest, k, j);
      }
      assert entries[k] in entries;
    }
  }

  lemma ShownFields(row: Row, r: Route)
    requires Shows(row, r)
    ensures row.ip == r.ip && row.mask == r.mask
  {
    hide PortName;
  }
}
