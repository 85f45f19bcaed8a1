/**
 sume_mon: the hardware tables mirror the part of the Linux tables that uses our devices. Only
 rows of the previous table are cleared before the new one is written.
 */
module HardwareMirror {
  import opened Net

  const ROWS: nat := 32
  const MAC_REGISTERS: nat := 4
  const OSPF: Ip := 0xE000_0005
  const ALL_ONES: Ip := 0xFFFF_FFFF

  type Mac = x: nat | x < 0x1_0000_0000_0000

  datatype RouteEntry = RouteEntry(dest: Ip, gw: Ip, mask: Ip, dev: string)
  datatype ArpEntry = ArpEntry(ip: Ip, mac: Mac, dev: string)
  datatype IfEntry = IfEntry(ip: Ip, mac: Mac, name: string)

  /** A row of the lookup TCAM and one of the ARP CAM. */
  datatype RouteRow = RouteRow(dest: Ip, mask: Ip, gw: Ip, port: nat)
  datatype ArpRow = ArpRow(ip: Ip, mac: Mac)

  const NO_ROUTE: RouteRow := RouteRow(0, ALL_ONES, 0, 0)
  const NO_ARP: ArpRow := ArpRow(0, 0)

  /** devtoport: the devices we own and their hardware ports. */
  type Ports = map<string, nat>

  /** The software copies and the hardware; `filtering` once an interface update has been written. */
  datatype State = State(
    routes: seq<RouteEntry>, arps: seq<ArpEntry>, ifaces: seq<IfEntry>,
    routeRows: seq<RouteRow>, arpRows: seq<ArpRow>, filterRows: seq<Ip>, macs: seq<Mac>, filtering: bool)

  // ---------------------------------------------------------------- filters and images

  function OurRoutes(ports: Ports, table: seq<RouteEntry>): (out: seq<RouteEntry>)
    ensures forall e :: e in out <==> e in table && e.dev in ports
  {
    if table == [] then
      []
    else
      OurRoutes(ports, table[..|table| - 1])
      + if table[|table| - 1].dev in ports then [table[|table| - 1]] else []
  }

  function OurArps(ports: Ports, table: seq<ArpEntry>): (out: seq<ArpEntry>)
    ensures forall e :: e in out <==> e in table && e.dev in ports
  {
    if table == [] then
      []
    else
      OurArps(ports, table[..|table| - 1])
      + if table[|table| - 1].dev in ports then [table[|table| - 1]] else []
  }

  function OurIfaces(ports: Ports, list: seq<IfEntry>): (out: seq<IfEntry>)
    ensures forall e :: e in out <==> e in list && e.name in ports
  {
    if list == [] then
      []
    else
      OurIfaces(ports, list[..|list| - 1])
      + if list[|list| - 1].name in ports then [list[|list| - 1]] else []
  }

  function RouteRows(ports: Ports, table: seq<RouteEntry>): (rows: seq<RouteRow>)
    ensures |rows| == |table|
  {
    seq(|table|, i requires 0 <= i < |table| =>
      var e := table[i]; RouteRow(e.dest, e.mask, e.gw, if e.dev in ports then ports[e.dev] else 0))
  }

  function ArpRows(table: seq<ArpEntry>): (rows: seq<ArpRow>)
    ensures |rows| == |table|
  {
    seq(|table|, i requires 0 <= i < |table| => ArpRow(table[i].ip, table[i].mac))
  }

  function Addresses(list: seq<IfEntry>): (ips: seq<Ip>)
    ensures |ips| == |list|
  {
    seq(|list|, i requires 0 <= i < |list| => list[i].ip)
  }

  /** The rows of a table followed by cleared ones. */
  function Padded<T>(rows: seq<T>, blank: T): (out: seq<T>)
    ensures |out| == ROWS
  {
    seq(ROWS, i requires 0 <= i < ROWS => if i < |rows| then rows[i] else blank)
  }

  /** What the code does to the rows: clear the first `n`, then write `fill` from the top. */
  function Rewritten<T>(rows: seq<T>, n: nat, blank: T, fill: seq<T>): (out: seq<T>)
    ensures |out| == |rows|
  {
    seq(|rows|, i requires 0 <= i < |rows| =>
      if i < |fill| then fill[i] else if i < n then blank else rows[i])
  }

  /** MAC registers exist for the first four interfaces only. */
  function MacsWritten(macs: seq<Mac>, list: seq<IfEntry>): (out: seq<Mac>)
    ensures |out| == |macs|
  {
    seq(|macs|, i requires 0 <= i < |macs| => if i < |list| then list[i].mac else macs[i])
  }

  // ---------------------------------------------------------------- updates

  function UpdateRoutes(ports: Ports, st: State, table: seq<RouteEntry>): State {
    var ours := OurRoutes(ports, table);
    if st.routes == ours then
      st
    else
      st.(routes := ours,
          routeRows := Rewritten(st.routeRows, |st.routes|, NO_ROUTE, RouteRows(ports, ours)))
  }

  function UpdateArps(ports: Ports, st: State, table: seq<ArpEntry>): State {
    var ours := OurArps(ports, table);
    if st.arps == ours then
      st
    else
      st.(arps := ours, arpRows := Rewritten(st.arpRows, |st.arps|, NO_ARP, ArpRows(ours)))
  }

  function UpdateIfaces(ports: Ports, st: State, list: seq<IfEntry>): State {
    var ours := OurIfaces(ports, list);
    if st.ifaces == ours then
      st
    else
      st.(ifaces := ours, filtering := true, macs := MacsWritten(st.macs, ours),
          filterRows := Rewritten(st.filterRows, |st.ifaces|, 0, Addresses(ours) + [OSPF]))
  }

  datatype Event = Routes(table: seq<RouteEntry>) | Arps(arps: seq<ArpEntry>) | Ifaces(list: seq<IfEntry>)

  function Step(ports: Ports, st: State, ev: Event): State {
    match ev
    case Routes(table) => UpdateRoutes(ports, st, table)
    case Arps(arps) => UpdateArps(ports, st, arps)
    case Ifaces(list) => UpdateIfaces(ports, st, list)
  }

  /** The hardware has rows for what the event brings; the filter needs one more. */
  predicate Fits(ports: Ports, ev: Event) {
    match ev
    case Routes(table) => |OurRoutes(ports, table)| <= ROWS
    case Arps(arps) => |OurArps(ports, arps)| <= ROWS
    case Ifaces(list) => |OurIfaces(ports, list)| < ROWS
  }

  function Run(ports: Ports, st: State, evs: seq<Event>): State {
    if evs == [] then st else Step(ports, Run(ports, st, evs[..|evs| - 1]), evs[|evs| - 1])
  }

  const INITIAL: State :=
    State([], [], [], Padded([], NO_ROUTE), Padded([], NO_ARP), Padded([], 0), [0, 0, 0, 0], false)

  // ---------------------------------------------------------------- the mirror

  /** Interface addresses come first; what lies beyond is empty or an old copy of the OSPF address. */
  predicate Filters(st: State) {
    && |st.filterRows| == ROWS && |st.ifaces| < ROWS
    && (forall i :: 0 <= i < |st.ifaces| ==> st.filterRows[i] == st.ifaces[i].ip)
    && (forall i :: |st.ifaces| <= i < ROWS ==> st.filterRows[i] == 0 || (st.filtering && st.filterRows[i] == OSPF))
    && (st.filtering ==> st.filterRows[|st.ifaces|] == OSPF)
    && (!st.filtering ==> st.ifaces == [])
  }

  predicate Mirrors(ports: Ports, st: State) {
    && |st.routes| <= ROWS && st.routeRows == Padded(RouteRows(ports, st.routes), NO_ROUTE)
    && |st.arps| <= ROWS && st.arpRows == Padded(ArpRows(st.arps), NO_ARP)
    && Filters(st)
    && |st.macs| == MAC_REGISTERS
    && (forall i :: 0 <= i < |st.ifaces| && i < MAC_REGISTERS ==> st.macs[i] == st.ifaces[i].mac)
  }

  /** Clearing the old rows and writing the new ones leaves nothing of the old table. */
  lemma RewrittenIsPadded<T>(old_: seq<T>, fill: seq<T>, blank: T)
    ensures Rewritten(Padded(old_, blank), |old_|, blank, fill) == Padded(fill, blank)
  {
  }

  lemma InitialMirrors(ports: Ports)
    ensures Mirrors(ports, INITIAL)
  {
    assert RouteRows(ports, []) == [] && ArpRows([]) == [];
  }

  lemma StepMirrors(ports: Ports, st: State, ev: Event)
    requires Mirrors(ports, st) && Fits(ports, ev)
    ensures Mirrors(ports, Step(ports, st, ev))
  {
    hide OurRoutes, OurArps, OurIfaces, Padded;
    match ev
    case Routes(table) =>
      RewrittenIsPadded(RouteRows(ports, st.routes), RouteRows(ports, OurRoutes(ports, table)), NO_ROUTE);
    case Arps(arps) =>
      RewrittenIsPadded(ArpRows(st.arps), ArpRows(OurArps(ports, arps)), NO_ARP);
    case Ifaces(list) =>
      FilterMirrors(ports, st, list);
  }

  lemma FilterMirrors(ports: Ports, st: State, list: seq<IfEntry>)
    requires Filters(st) && |OurIfaces(ports, list)| < ROWS
    ensures Filters(UpdateIfaces(ports, st, list))
  {
    hide OurIfaces;
    var out, ours := UpdateIfaces(ports, st, list), OurIfaces(ports, list);
    var fill := Addresses(ours) + [OSPF];
    if st.ifaces != ours {
      forall i | 0 <= i < ROWS
        ensures out.filterRows[i] == if i < |ours| then ours[i].ip
                                     else if i == |ours| then OSPF
                                     else if i < |st.ifaces| then 0 else st.filterRows[i]
      {
        assert |fill| == |ours| + 1;
      }
    }
  }

  /** Over every run of updates within capacity. */
  lemma {:induction false} RunMirrors(ports: Ports, evs: seq<Event>)
    requires forall i :: 0 <= i < |evs| ==> Fits(ports, evs[i])
    ensures Mirrors(ports, Run(ports, INITIAL, evs))
  {
    hide Mirrors, Step, Fits;
    if evs == [] {
      InitialMirrors(ports);
    } else {
      RunMirrors(ports, evs[..|evs| - 1]);
      StepMirrors(ports, Run(ports, INITIAL, evs[..|evs| - 1]), evs[|evs| - 1]);
    }
  }

  /** The addresses the filter accepts; 0 marks an empty row. */
  function Accepted(st: State): set<Ip> {
    set a | a in st.filterRows && a != 0
  }

  predicate HasAddress(list: seq<IfEntry>, ip: Ip) {
    exists e :: e in list && e.ip == ip
  }

  /** Exactly the interface addresses and 224.0.0.5, in spite of the rows that are not cleared. */
  lemma FilterIsExact(ports: Ports, st: State)
    requires Mirrors(ports, st)
    ensures forall a :: a in Accepted(st) <==>
              a != 0 && ((st.filtering && a == OSPF) || HasAddress(st.ifaces, a))
  {
    hide RouteRows, ArpRows, Padded;
    forall a | a in st.filterRows && a != 0
      ensures (st.filtering && a == OSPF) || HasAddress(st.ifaces, a)
    {
      var i :| 0 <= i < ROWS && st.filterRows[i] == a;
      if i < |st.ifaces| {
        assert st.ifaces[i] in st.ifaces;
      }
    }
    forall e | e in st.ifaces ensures e.ip in st.filterRows {
      var i :| 0 <= i < |st.ifaces| && st.ifaces[i] == e;
      assert st.filterRows[i] == e.ip;
    }
  }

  /** What the software copies hold: the last table of each kind, filtered, however updates interleave. */
  lemma StepRemembers(ports: Ports, st: State, ev: Event)
    ensures var out := Step(ports, st, ev);
            && out.routes == (if ev.Routes? then OurRoutes(ports, ev.table) else st.routes)
            && out.arps == (if ev.Arps? then OurArps(ports, ev.arps) else st.arps)
            && out.ifaces == (if ev.Ifaces? then OurIfaces(ports, ev.list) else st.ifaces)
            && out.filtering == (st.filtering || (ev.Ifaces? && OurIfaces(ports, ev.list) != st.ifaces))
  {
  }

  /** The last routing table of a run. */
  function LastRoutes(evs: seq<Event>): seq<RouteEntry> {
    if evs == [] then [] else if evs[|evs| - 1].Routes? then evs[|evs| - 1].table else LastRoutes(evs[..|evs| - 1])
  }

  function LastIfaces(evs: seq<Event>): seq<IfEntry> {
    if evs == [] then [] else if evs[|evs| - 1].Ifaces? then evs[|evs| - 1].list else LastIfaces(evs[..|evs| - 1])
  }

  function LastArps(evs: seq<Event>): seq<ArpEntry> {
    if evs == [] then [] else if evs[|evs| - 1].Arps? then evs[|evs| - 1].arps else LastArps(evs[..|evs| - 1])
  }

  lemma {:induction false} RunRemembers(ports: Ports, evs: seq<Event>)
    ensures var out := Run(ports, INITIAL, evs);
            && out.routes == OurRoutes(ports, LastRoutes(evs))
            && out.arps == OurArps(ports, LastArps(evs))
            && out.ifaces == OurIfaces(ports, LastIfaces(evs))
            && (out.filtering <==> SawInterfaces(ports, evs))
  {
    hide Step, OurRoutes, OurArps, OurIfaces;
    NothingSelected(ports);
    if evs != [] {
      var init, last := evs[..|evs| - 1], evs[|evs| - 1];
      var st := Run(ports, INITIAL, init);
      RunRemembers(ports, init);
      StepRemembers(ports, st, last);
      SawAppend(ports, init, last);
      assert evs == init + [last];
      if !st.filtering {
        NeverSaw(ports, init);
      }
    }
  }

  /** Some update brought one of our interfaces. */
  predicate SawInterfaces(ports: Ports, evs: seq<Event>) {
    exists i :: 0 <= i < |evs| && evs[i].Ifaces? && OurIfaces(ports, evs[i].list) != []
  }

  lemma SawAppend(ports: Ports, evs: seq<Event>, e: Event)
    ensures SawInterfaces(ports, evs + [e]) <==>
            SawInterfaces(ports, evs) || (e.Ifaces? && OurIfaces(ports, e.list) != [])
  {
    hide OurIfaces;
    var all := evs + [e];
    if SawInterfaces(ports, evs) {
      var i :| 0 <= i < |evs| && evs[i].Ifaces? && OurIfaces(ports, evs[i].list) != [];
      assert all[i] == evs[i];
    }
    assert all[|evs|] == e;
  }

  lemma {:induction false} NeverSaw(ports: Ports, evs: seq<Event>)
    requires !SawInterfaces(ports, evs)
    ensures OurIfaces(ports, LastIfaces(evs)) == []
  {
    hide OurIfaces;
    NothingSelected(ports);
    if evs != [] {
      var init, last := evs[..|evs| - 1], evs[|evs| - 1];
      assert evs == init + [last];
      SawAppend(ports, init, last);
      NeverSaw(ports, init);
    }
  }

  lemma NothingSelected(ports: Ports)
    ensures OurRoutes(ports, []) == [] && OurArps(ports, []) == [] && OurIfaces(ports, []) == []
  {
  }

  // ---------------------------------------------------------------- what the hardware answers

  /** `out` is `table` with some entries left out; `at` says where the others stood. */
  ghost predicate Places<T>(table: seq<T>, out: seq<T>, at: seq<nat>) {
    && |at| == |out|
    && (forall i :: 0 <= i < |out| ==> at[i] < |table| && out[i] == table[at[i]])
    && (forall i, j :: 0 <= i < j < |at| ==> at[i] < at[j])
    && (forall k :: 0 <= k < |table| && table[k] in out ==> k in at)
  }

  lemma PlacesSnoc<T>(table: seq<T>, out: seq<T>, at: seq<nat>, x: T, keep: bool)
    requires Places(table, out, at) && (x in out ==> keep) && (keep && x in table ==> x in out)
    ensures Places(table + [x], out + (if keep then [x] else []), at + if keep then [|table|] else [])
  {
    var out', at' := out + (if keep then [x] else []), at + if keep then [|table|] else [];
    forall k | 0 <= k < |table + [x]| && (table + [x])[k] in out' ensures k in at' {
      if k < |table| {
        assert table[k] in table && table[k] in out;
        assert k in at;
      } else {
        assert at'[|at|] == k;
      }
    }
  }

  /** The selection keeps the order of the table and every occurrence of what it keeps. */
  lemma {:induction false} RoutesInOrder(ports: Ports, table: seq<RouteEntry>) returns (at: seq<nat>)
    ensures Places(table, OurRoutes(ports, table), at)
  {
    if table == [] {
      at := [];
    } else {
      var init, last := table[..|table| - 1], table[|table| - 1];
      at := RoutesInOrder(ports, init);
      PlacesSnoc(init, OurRoutes(ports, init), at, last, last.dev in ports);
      assert table == init + [last];
      at := at + if last.dev in ports then [|init|] else [];
    }
  }

  lemma {:induction false} ArpsInOrder(ports: Ports, table: seq<ArpEntry>) returns (at: seq<nat>)
    ensures Places(table, OurArps(ports, table), at)
  {
    if table == [] {
      at := [];
    } else {
      var init, last := table[..|table| - 1], table[|table| - 1];
      at := ArpsInOrder(ports, init);
      PlacesSnoc(init, OurArps(ports, init), at, last, last.dev in ports);
      assert table == init + [last];
      at := at + if last.dev in ports then [|init|] else [];
    }
  }

  lemma {:induction false} IfacesInOrder(ports: Ports, list: seq<IfEntry>) returns (at: seq<nat>)
    ensures Places(list, OurIfaces(ports, list), at)
  {
    if list == [] {
      at := [];
    } else {
      var init, last := list[..|list| - 1], list[|list| - 1];
      at := IfacesInOrder(ports, init);
      PlacesSnoc(init, OurIfaces(ports, init), at, last, last.name in ports);
      assert list == init + [last];
      at := at + if last.name in ports then [|init|] else [];
    }
  }

  predicate HoldsRoute(ports: Ports, row: RouteRow, e: RouteEntry) {
    e.dev in ports && row.dest == e.dest && row.mask == e.mask && row.gw == e.gw && row.port == ports[e.dev]
  }

  /**
   The contents of the hardware after any run: row by row the last tables, filtered, then cleared
   rows; in the address filter exactly the interface addresses and the OSPF one; and the hardware
   addresses of the first four interfaces.
   */
  lemma HardwareAfterRun(ports: Ports, evs: seq<Event>)
    requires forall i :: 0 <= i < |evs| ==> Fits(ports, evs[i])
    ensures var out := Run(ports, INITIAL, evs);
            var routes, arps := OurRoutes(ports, LastRoutes(evs)), OurArps(ports, LastArps(evs));
            var ifaces := OurIfaces(ports, LastIfaces(evs));
            && |out.routeRows| == |out.arpRows| == ROWS && |routes| <= ROWS && |arps| <= ROWS
            && (forall i :: 0 <= i < |routes| ==> HoldsRoute(ports, out.routeRows[i], routes[i]))
            && (forall i :: |routes| <= i < ROWS ==> out.routeRows[i] == RouteRow(0, 0xFFFF_FFFF, 0, 0))
            && (forall i :: 0 <= i < |arps| ==> out.arpRows[i].ip == arps[i].ip && out.arpRows[i].mac == arps[i].mac)
            && (forall i :: |arps| <= i < ROWS ==> out.arpRows[i] == ArpRow(0, 0))
            && (forall a :: a in Accepted(out) <==>
                  a != 0 && ((SawInterfaces(ports, evs) && a == 0xE000_0005) || HasAddress(ifaces, a)))
            && |out.macs| == 4 && (forall i :: 0 <= i < |ifaces| && i < 4 ==> out.macs[i] == ifaces[i].mac)
  {
    hide Run, OurRoutes, OurArps, OurIfaces, Accepted, Filters;
    var out := Run(ports, INITIAL, evs);
    RunMirrors(ports, evs);
    RunRemembers(ports, evs);
    FilterIsExact(ports, out);
  }

  /** The address is in the subnet of the entry, and of the row. */
  predicate InSubnet(dest: Ip, mask: Ip, a: Ip) {
    dest & mask == a & mask
  }

  /** Entry `k` is the first of our entries that covers the address. */
  predicate FirstRoute(ports: Ports, table: seq<RouteEntry>, a: Ip, k: int) {
    && 0 <= k < |table| && table[k].dev in ports && InSubnet(table[k].dest, table[k].mask, a)
    && forall j :: 0 <= j < k && table[j].dev in ports ==> !InSubnet(table[j].dest, table[j].mask, a)
  }

  predicate FirstRow(rows: seq<RouteRow>, a: Ip, i: int) {
    && 0 <= i < |rows| && InSubnet(rows[i].dest, rows[i].mask, a)
    && forall j :: 0 <= j < i ==> !InSubnet(rows[j].dest, rows[j].mask, a)
  }

  /**
   Lookup in the last routing table: the first of our entries that covers an address is what the
   lowest matching row answers with; an address other than 0 that none covers matches no row.
   */
  lemma RoutesAnswer(ports: Ports, evs: seq<Event>, a: Ip)
    requires forall i :: 0 <= i < |evs| ==> Fits(ports, evs[i])
    ensures var rows, table := Run(ports, INITIAL, evs).routeRows, LastRoutes(evs);
            && (forall k :: FirstRoute(ports, table, a, k) ==>
                  exists i :: FirstRow(rows, a, i) && rows[i].gw == table[k].gw && rows[i].port == ports[table[k].dev])
            && (a != 0 && (forall e :: e in table && e.dev in ports ==> !InSubnet(e.dest, e.mask, a)) ==>
                  forall i :: 0 <= i < |rows| ==> !InSubnet(rows[i].dest, rows[i].mask, a))
  {
    hide Run, OurRoutes, OurArps, OurIfaces, Accepted, InSubnet;
    var rows, table := Run(ports, INITIAL, evs).routeRows, LastRoutes(evs);
    var ours := OurRoutes(ports, table);
    HardwareAfterRun(ports, evs);
    var at := RoutesInOrder(ports, table);
    forall k | FirstRoute(ports, table, a, k)
      ensures exists i :: FirstRow(rows, a, i) && rows[i].gw == table[k].gw && rows[i].port == ports[table[k].dev]
    {
      assert table[k] in table && k in at;
      var i :| 0 <= i < |at| && at[i] == k;
      assert HoldsRoute(ports, rows[i], ours[i]);
      forall j | 0 <= j < i ensures !InSubnet(rows[j].dest, rows[j].mask, a) {
        assert HoldsRoute(ports, rows[j], ours[j]) && at[j] < k;
      }
      assert FirstRow(rows, a, i);
    }
    if a != 0 {
      BlankIsSilent(a);
      forall i | 0 <= i < |ours| ensures HoldsRoute(ports, rows[i], ours[i]) && ours[i] in ours { }
    }
  }

  lemma BlankIsSilent(a: Ip)
    requires a != 0
    ensures !InSubnet(0, ALL_ONES, a)
  {
  }

  predicate FirstArp(ports: Ports, table: seq<ArpEntry>, ip: Ip, k: int) {
    && 0 <= k < |table| && table[k].dev in ports && table[k].ip == ip
    && forall j :: 0 <= j < k && table[j].dev in ports ==> table[j].ip != ip
  }

  predicate FirstMac(rows: seq<ArpRow>, ip: Ip, i: int) {
    0 <= i < |rows| && rows[i].ip == ip && forall j :: 0 <= j < i ==> rows[j].ip != ip
  }

  /** And so for the ARP table. */
  lemma ArpsAnswer(ports: Ports, evs: seq<Event>, ip: Ip)
    requires forall i :: 0 <= i < |evs| ==> Fits(ports, evs[i])
    ensures var rows, table := Run(ports, INITIAL, evs).arpRows, LastArps(evs);
            && (forall k :: FirstArp(ports, table, ip, k) ==> exists i :: FirstMac(rows, ip, i) && rows[i].mac == table[k].mac)
            && (ip != 0 && (forall e :: e in table && e.dev in ports ==> e.ip != ip) ==>
                  forall i :: 0 <= i < |rows| ==> rows[i].ip != ip)
  {
    hide Run, OurRoutes, OurArps, OurIfaces, Accepted, HoldsRoute;
    var rows, table := Run(ports, INITIAL, evs).arpRows, LastArps(evs);
    var ours := OurArps(ports, table);
    HardwareAfterRun(ports, evs);
    var at := ArpsInOrder(ports, table);
    forall k | FirstArp(ports, table, ip, k)
      ensures exists i :: FirstMac(rows, ip, i) && rows[i].mac == table[k].mac
    {
      assert table[k] in table && k in at;
      var i :| 0 <= i < |at| && at[i] == k;
      forall j | 0 <= j < i ensures rows[j].ip != ip {
        assert rows[j].ip == ours[j].ip && at[j] < k && ours[j] in ours;
      }
      assert FirstMac(rows, ip, i);
    }
  }

  // ---------------------------------------------------------------- the code

  class Monitor {
    const ports: Ports
    var routes: seq<RouteEntry>
    var arps: seq<ArpEntry>
    var ifaces: seq<IfEntry>
    const routeRows: array<RouteRow>
    const arpRows: array<ArpRow>
    const filterRows: array<Ip>
    const macs: array<Mac>
    ghost var filtering: bool

    ghost predicate Wired()
      reads this
    {
      && routeRows.Length == arpRows.Length == filterRows.Length == ROWS && macs.Length == MAC_REGISTERS
      && |routes| <= ROWS && |arps| <= ROWS && |ifaces| < ROWS
      && routeRows as object != arpRows as object && routeRows as object != filterRows as object
      && arpRows as object != filterRows as object && macs as object != filterRows as object
      && macs as object != routeRows as object && macs as object != arpRows as object
    }

    ghost function View(): State
      reads this, routeRows, arpRows, filterRows, macs
    {
      State(routes, arps, ifaces, routeRows[..], arpRows[..], filterRows[..], macs[..], filtering)
    }

    /** The constructor clears all three tables. */
    constructor (ports: Ports)
      ensures Wired() && View() == INITIAL && this.ports == ports
      ensures fresh(routeRows) && fresh(arpRows) && fresh(filterRows) && fresh(macs)
    {
      this.ports := ports;
      routes, arps, ifaces, filtering := [], [], [], false;
      routeRows := new RouteRow[ROWS](i => NO_ROUTE);
      arpRows := new ArpRow[ROWS](i => NO_ARP);
      filterRows := new Ip[ROWS](i => 0);
      macs := new Mac[MAC_REGISTERS](i => 0);
      new;
      assert routeRows[..] == INITIAL.routeRows && arpRows[..] == INITIAL.arpRows;
      assert filterRows[..] == INITIAL.filterRows && macs[..] == INITIAL.macs;
    }

    /** rtable_update. */
    method RoutesUpdate(table: seq<RouteEntry>)
      requires Wired() && |OurRoutes(ports, table)| <= ROWS
      modifies `routes, routeRows
      ensures Wired() && View() == UpdateRoutes(ports, old(View()), table)
    {
      hide Rewritten, RouteRows, OurRoutes;
      var local := SelectRoutes(ports, table);
      if routes != local {
        Rewrite(routeRows, |routes|, NO_ROUTE, RouteRows(ports, local));
      }
      routes := local;
      assert arpRows[..] == old(arpRows[..]) && filterRows[..] == old(filterRows[..]) && macs[..] == old(macs[..]);
    }

    /** arptable_update. */
    method ArpsUpdate(table: seq<ArpEntry>)
      requires Wired() && |OurArps(ports, table)| <= ROWS
      modifies `arps, arpRows
      ensures Wired() && View() == UpdateArps(ports, old(View()), table)
    {
      hide Rewritten, ArpRows, OurArps;
      var local := SelectArps(ports, table);
      if arps != local {
        Rewrite(arpRows, |arps|, NO_ARP, ArpRows(local));
      }
      arps := local;
      assert routeRows[..] == old(routeRows[..]) && filterRows[..] == old(filterRows[..]) && macs[..] == old(macs[..]);
    }

    /** interface_update. */
    method IfacesUpdate(list: seq<IfEntry>)
      requires Wired() && |OurIfaces(ports, list)| < ROWS
      modifies `ifaces, `filtering, filterRows, macs
      ensures Wired() && View() == UpdateIfaces(ports, old(View()), list)
    {
      hide Rewritten, Addresses, MacsWritten, OurIfaces;
      var local := SelectIfaces(ports, list);
      if ifaces != local {
        Rewrite(filterRows, |ifaces|, 0, Addresses(local) + [OSPF]);
        SetMacs(local);
        filtering := true;
      }
      ifaces := local;
      assert routeRows[..] == old(routeRows[..]) && arpRows[..] == old(arpRows[..]);
    }

    /** nf_set_mac for each interface; only indices 0 to 3 have registers. */
    method SetMacs(list: seq<IfEntry>)
      requires macs.Length == MAC_REGISTERS
      modifies macs
      ensures macs[..] == MacsWritten(old(macs[..]), list)
    {
      for i := 0 to |list|
        invariant forall k :: 0 <= k < MAC_REGISTERS ==> macs[k] == if k < i then list[k].mac else old(macs[k])
      {
        if i < MAC_REGISTERS {
          macs[i] := list[i].mac;
        }
      }
    }
  }

  /** update_routing_table, update_arp_table, update_interface_table: delete the old rows, write the new. */
  method Rewrite<T>(rows: array<T>, n: nat, blank: T, fill: seq<T>)
    requires n <= rows.Length && |fill| <= rows.Length
    modifies rows
    ensures rows[..] == Rewritten(old(rows[..]), n, blank, fill)
  {
    for i := 0 to n
      invariant forall k :: 0 <= k < rows.Length ==> rows[k] == if k < i then blank else old(rows[k])
    {
      rows[i] := blank;
    }
    for i := 0 to |fill|
      invariant forall k :: 0 <= k < rows.Length ==>
                  rows[k] == if k < i then fill[k] else if k < n then blank else old(rows[k])
    {
      rows[i] := fill[i];
    }
  }

  method SelectRoutes(ports: Ports, table: seq<RouteEntry>) returns (local: seq<RouteEntry>)
    ensures local == OurRoutes(ports, table)
  {
    local := [];
    for i := 0 to |table|
      invariant local == OurRoutes(ports, table[..i])
    {
      assert table[..i + 1][..i] == table[..i];
      if table[i].dev in ports {
        local := local + [table[i]];
      }
    }
    assert table[..|table|] == table;
  }

  method SelectArps(ports: Ports, table: seq<ArpEntry>) returns (local: seq<ArpEntry>)
    ensures local == OurArps(ports, table)
  {
    local := [];
    for i := 0 to |table|
      invariant local == OurArps(ports, table[..i])
    {
      assert table[..i + 1][..i] == table[..i];
      if table[i].dev in ports {
        local := local + [table[i]];
      }
    }
    assert table[..|table|] == table;
  }

  method SelectIfaces(ports: Ports, list: seq<IfEntry>) returns (local: seq<IfEntry>)
    ensures local == OurIfaces(ports, list)
  {
    local := [];
    for i := 0 to |list|
      invariant local == OurIfaces(ports, list[..i])
    {
      assert list[..i + 1][..i] == list[..i];
      if list[i].name in ports {
        local := local + [list[i]];
      }
    }
    assert list[..|list|] == list;
  }
}
