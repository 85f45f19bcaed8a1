# SCONE control plane, router_kit mirror and AXI text: a verified model

A Dafny model of the software half of the NetFPGA reference router, with proofs about it:

- **PWOSPF link state** (`LinkDatabase`, `Pwospf`, `Flood`, `FloodConvergence`, `FloodQuiescence`,
  `Hello`, `Activation`; example in `FloodLine`). A network of routers, a bag of
  LSUs in flight, and receive, originate, lose, duplicate, relink and expire steps. Safety holds over
  every run; without loss a flood dies out after a bounded number of deliveries and leaves every
  database exact, in every network without ways longer than the 64 hops an LSU lives.
- **Shortest paths and routes** (`ShortestPath`, `Dijkstra`, `RouteSelection`, `Gateway`,
  `RouteComputation`; example in `FarNetwork`). Dijkstra over mutable records whose predecessor pointers
  are never reset, then one route per subnet through a neighbour that is the first hop of a shortest path.
- **The whole network** (`Forwarding`, `NetworkRoutes`; example in `LineRoutes`). Flooding, activation and
  route computation together: once the start-up flood is over in a connected network whose links are named
  from both ends, packets follow the installed gateways one hop closer each time and never in circles.
- **Tables and queues** (`RouteTable`, `ArpCache`, `ArpQueue`, `ArpRetries`). The sorted 32-row TCAM refines the
  longest-prefix scan; the CAM agrees with the ARP cache; packets waiting for ARP are conserved and kept in
  order and dropped only after five requests, and giving up terminates although its ICMP errors re-enter
  the same queue.
- **Checksums and NAT** (`Checksum`, `Nat`), for both host byte orders.
- **Linux mirror** (`HardwareMirror`), **AXI text** (`Bits`, `AxiStream`), **percent coding** (`UrlCode`)
  and the **linked list** under every table (`NodeList`).

Loops and objects of the source are methods and classes, proved against specification functions; the
laws are lemmas about those functions. Tables that the source keeps in linked lists are sequences held by
a class. Each locked section is one atomic step; clocks, random ports and routing answers are parameters.
`dafny verify dfyconfig.toml` checks everything.

Where the code falls short of what it is meant to do, the model follows the code; for each case one lemma
gives a concrete failing input and another says exactly when the law holds:

| shortcoming | input | exact condition |
|---|---|---|
| or_pwospf.c:706 masks a subnet when comparing but stores it unmasked | `UnmaskedAdvertisementIsLost` | `ReconciledExactly` |
| or_pwospf.c:587 compares a host-order id with a network-order one, so on a little-endian host a router ignores the one with the byte-swapped id | `SwappedEndsNeverMeet`, `SwappedEndsExist` | `LineIsLinkedExactly`, `QuietMeansConverged` |
| router id 0 is taken for a blank link entry | `ZeroIdIsOverwritten` | `StepMirrors` |
| distances are cut to 16 bits during route selection | `FarRoutersWrap` | `SelectionExactly` |
| a subnet that cannot be reached any more keeps a route through a next hop left over from earlier | `UnreachableInstalled` | `UnreachableResolves` |
| with two links to one neighbour a direct route gets the wrong interface | `ParallelLinksMisdirect` | `DirectRouteInterface` |
| masks with holes can break the table order | `HolesBreakTheOrder` | `OrdersAgreeExactly` |
| a static ARP entry over waiting packets strands them and lets later ones overtake | `StaticEntryOvertakes` | `StepKeeps`, `OvertakesExactly` |
| the NAT patch of the IP header sum subtracts a port the header does not hold | `HeaderPatchBreaks` | `OutgoingHeaderVerdict`, `IncomingHeaderVerdict` |
| an all-zero ICMP echo changes its verdict under translation | `ZeroEchoIsRepaired` | `OutgoingEchoVerdict`, `IncomingEchoVerdict` |

The header sum is recomputed on the forwarding path (or_ip.c:157-163), not for local delivery and ICMP errors.
The list on which distances wrap cannot come from one lossless flood of a fixed network, which lists nobody
more than 64 hops away (`BeyondReach`); it takes links that change between LSUs, or LSUs from outside.

## Model

| member | source | states |
|---|---|---|
| `LinkDatabase.ReconciledExactly` | hw/projects/reference_router/sw/scone/or_pwospf.c:629-759 | the stored link set never exceeds the packet's advertisement set, and equals it if and only if every advertisement was already stored or its masked form is in the packet |
| `LinkDatabase.ReconciledIsAdvertised` | hw/projects/reference_router/sw/scone/or_pwospf.c:629-759 | for masked subnets the add-then-prune loops leave exactly the advertised set, whatever was stored before |
| `LinkDatabase.ChangedExactly` | hw/projects/reference_router/sw/scone/or_pwospf.c:629-759 | for a list that was not empty the returned flag is 1 if and only if the stored set differs from the advertised one |
| `LinkDatabase.NewLinksAreInactive` | hw/projects/reference_router/sw/scone/or_pwospf.c:629-759 | a link that was not listed before starts inactive |
| `LinkDatabase.UnmaskedAdvertisementIsLost` | hw/projects/reference_router/sw/scone/or_pwospf.c:706-740 | an input on which an unmasked advertisement is appended and pruned again |
| `LinkDatabase.AppendNew` | hw/projects/reference_router/sw/scone/or_pwospf.c:674-720 | the append loop, against its specification; the flag says whether anything was appended |
| `LinkDatabase.RemoveMissing` | hw/projects/reference_router/sw/scone/or_pwospf.c:723-756 | the prune loop, against its specification; the flag says whether anything was removed |
| `LinkDatabase.PopulateInterfaceList` | hw/projects/reference_router/sw/scone/or_pwospf.c:629-759 | the whole procedure computes the reconciled list and the change flag |
| `Pwospf.BroadcastMembers` | hw/projects/reference_router/sw/scone/or_pwospf.c:481-553 | a broadcast reaches a neighbour if and only if an active interface hears it and it is not the excluded one |
| `Pwospf.StoreExactly` | hw/projects/reference_router/sw/scone/or_pwospf.c:369-393 | an LSU counts if and only if it is not our own, in either byte order, and is newer than what is listed; the change flag means a new origin, an empty list or another set of links; only the record of the origin changes |
| `Pwospf.ForwardsExactly` | hw/projects/reference_router/sw/scone/or_pwospf.c:396-418 | a packet is sent on if and only if the LSU counts and its TTL is not 1: to each heard neighbour but the sender, with the 16-bit TTL one less |
| `Pwospf.ExpiryExactly` | hw/projects/reference_router/sw/scone/or_pwospf.c:1215-1250 | a time-out pass keeps a record if and only if it is ours or was updated within three intervals, for differences that fit 32 bits |
| `Pwospf.Router.constructor` | hw/projects/reference_router/sw/scone/or_main.c:443-492 | the initial list holds only our own record, sequence 0, one blank masked link per interface |
| `Pwospf.Router.Send` | hw/projects/reference_router/sw/scone/or_pwospf.c:481-553 | the walk over interfaces and neighbours sends exactly the broadcast |
| `Pwospf.Router.Originate` | hw/projects/reference_router/sw/scone/or_pwospf.c:816-885 | our links go out under our counter with TTL 64, the 16-bit counter advances, nothing else changes |
| `Pwospf.Router.ProcessLsu` | hw/projects/reference_router/sw/scone/or_pwospf.c:340-434 | a newer LSU is stored, its time noted and forwarded with TTL - 1 while that is positive, a changed list triggers our own LSU, anything else is dropped; our own record survives |
| `Pwospf.Router.StoreLsu` | hw/projects/reference_router/sw/scone/or_pwospf.c:370-395 | the database part: newer and changed flags, the record and its time |
| `Pwospf.Router.ExpireRouters` | hw/projects/reference_router/sw/scone/or_pwospf.c:1203-1253 | exactly the records whose last newer LSU is more than three intervals old, in the unsigned comparison, go, never our own; the flag says whether any did |
| `Flood.InitialIsSafe` | hw/projects/reference_router/sw/scone/or_main.c:443-492 | start-up satisfies the safety invariant |
| `Flood.StepIsSafe` | hw/projects/reference_router/sw/scone/or_pwospf.c:340-434 | every receive, originate, lose, duplicate, relink and expire step keeps the safety invariant |
| `Flood.RunIsSafe` | hw/projects/reference_router/sw/scone/or_pwospf.c:340-468 | over every run with fewer than 65536 LSUs per origin: each stored record is the set its origin sent under that number, below the origin's counter, every TTL in flight is in 1..64, ids are unique and our own is present |
| `Flood.ForwardsOnce` | hw/projects/reference_router/sw/scone/or_pwospf.c:386-418 | over every run: if a router forwards the same (origin, sequence) at two deliveries, it has timed out the origin in between |
| `Flood.RunGrows` | hw/projects/reference_router/sw/scone/or_pwospf.c:816-885 | the history of originated LSUs is only ever extended |
| `Flood.SwappedIdsNeverMeet` | hw/projects/reference_router/sw/scone/or_pwospf.c:557-594 | in every run from start-up, with loss, time-outs and changing links, a router never learns of the one whose byte-swapped id is its own |
| `Flood.ChangeIsAnnounced` | hw/projects/reference_router/sw/scone/or_pwospf.c:421-434 | a delivery that changes what a router stores makes it send its present links to every neighbour with TTL 64 and advance its number; any other delivery leaves its own record alone |
| `FloodConvergence.StepFloods` | hw/projects/reference_router/sw/scone/or_pwospf.c:340-434 | every lossless step keeps the record of where LSUs have been and, when no way without repetitions is longer than 64 hops, that the last LSU of each origin is stored or on its way along every link |
| `FloodConvergence.InitialFloods` | hw/projects/reference_router/sw/scone/or_main.c:443-492 | start-up satisfies both |
| `FloodConvergence.RunFloods` | hw/projects/reference_router/sw/scone/or_pwospf.c:340-434 | and so does every state of every lossless run |
| `FloodConvergence.QuietMeansConverged` | hw/projects/reference_router/sw/scone/or_pwospf.c:340-434 | when no way without repetitions is longer than 64 hops and nothing is in flight, a router knows another if and only if flooding can get there, and then stores the links of its last LSU |
| `FloodConvergence.BeyondReach` | hw/projects/reference_router/sw/scone/or_pwospf.c:398-418 | in any network and any lossless run nobody learns of a router more than 64 hops away |
| `FloodConvergence.SmallNetworksAreShort` | hw/projects/reference_router/sw/scone/or_pwospf.c:398-418 | at most 65 routers always meet the hop condition |
| `FloodLine.FarEndStaysUnknown` | hw/projects/reference_router/sw/scone/or_pwospf.c:398-418 | in a line of more than 65 routers the last never learns of the first, though they are linked and nothing is lost |
| `FloodLine.LineCanStart` | hw/projects/reference_router/sw/scone/or_main.c:443-492 | a line of at most 65 routers with any distinct ids is a start from which the convergence theorem holds |
| `FloodLine.LineIsLinkedExactly` | hw/projects/reference_router/sw/scone/or_pwospf.c:557-594 | the first router of a line reaches the last if and only if no router behind it has its byte-swapped id |
| `FloodLine.SwappedEndsNeverMeet` | hw/projects/reference_router/sw/scone/or_pwospf.c:557-594 | the two ends of a line whose ids are byte-swapped forms of each other never learn of each other, in any run |
| `FloodLine.SwappedEndsExist` | hw/projects/reference_router/sw/scone/or_pwospf.c:557-594 | the line 1, 5, 16777216 is such a line, and every hello on it passes the check |
| `FloodQuiescence.DeliveryLowersPotential` | hw/projects/reference_router/sw/scone/or_pwospf.c:340-434 | with fixed nonempty links and nothing stale in flight every receive step lowers, lexicographically, (wrong entries, sum of (degree+1)^ttl), although a change makes the receiver originate |
| `FloodQuiescence.DeliveriesAreBounded` | hw/projects/reference_router/sw/scone/or_pwospf.c:340-434 | so no run of deliveries is longer than the potential it starts from |
| `FloodQuiescence.FloodSettles` | hw/projects/reference_router/sw/scone/or_pwospf.c:340-434 | the flood ends, never gets stuck with packets in flight, and leaves every reachable entry equal to its origin's present links |
| `FloodQuiescence.ColdStartConverges` | hw/projects/reference_router/sw/scone/or_main.c:443-492 | from start-up, once every router has announced itself, the flood ends and all databases are exact wherever flooding can reach |
| `Hello.StepMirrors` | hw/projects/reference_router/sw/scone/or_pwospf.c:73-190 | a hello or time-out step keeps our links equal to the neighbour tables, per subnet as a multiset or one blank, if and only if it is not an accepted hello from an unknown neighbour on an interface that already hears router id 0 |
| `Hello.LearnedMirrorsPort` | hw/projects/reference_router/sw/scone/or_pwospf.c:136-160 | a new neighbour keeps its subnet mirrored if and only if no neighbour there has id 0 |
| `Hello.RunMirrors` | hw/projects/reference_router/sw/scone/or_pwospf.c:100-165 | the mirror over every run of hellos and time-outs with nonzero ids |
| `Hello.ExpireDropsExactly` | hw/projects/reference_router/sw/scone/or_pwospf.c:261-336 | a time-out pass removes exactly the timed-out neighbours, on that interface only |
| `Hello.HelloIsNoted` | hw/projects/reference_router/sw/scone/or_pwospf.c:136-180 | after an accepted hello the interface lists its sender with the present time; other neighbours and interfaces are untouched |
| `Hello.LearnedIsNew` | hw/projects/reference_router/sw/scone/or_pwospf.c:136-160 | the only new link is for that neighbour on that subnet |
| `Hello.HeardExactly` | hw/projects/reference_router/sw/scone/or_pwospf.c:73-336 | over every run from empty tables a neighbour is listed, once and with its last time, if and only if it was heard and no later pass on its interface came more than three intervals after the last hello |
| `Hello.HeardSurvives` | hw/projects/reference_router/sw/scone/or_pwospf.c:73-336 | so a neighbour heard within the last three intervals survives every pass |
| `Hello.SilentIsForgotten` | hw/projects/reference_router/sw/scone/or_pwospf.c:261-336 | and one silent for longer is gone after the next |
| `Hello.StepPopulated` | hw/projects/reference_router/sw/scone/or_pwospf.c:282-325 | whatever ids are heard, every interface subnet keeps at least one entry, so the assertion on the count holds |
| `Hello.InitialMirrors` | hw/projects/reference_router/sw/scone/or_main.c:465-486 | start-up satisfies the mirror |
| `Hello.ZeroIdIsOverwritten` | hw/projects/reference_router/sw/scone/or_pwospf.c:136-160 | a run in which router id 0 is mirrored, then taken for a blank entry and overwritten |
| `Hello.NeighbourTable.ProcessHello` | hw/projects/reference_router/sw/scone/or_pwospf.c:73-190 | the new tables and links, and that the update flag means an accepted hello from an unknown neighbour |
| `Hello.NeighbourTable.ForgetLink` | hw/projects/reference_router/sw/scone/or_pwospf.c:282-325 | a subnet with one entry gets it blanked, otherwise the neighbour's entry goes; the asserted count is positive |
| `Hello.NeighbourTable.DetermineTimedOut` | hw/projects/reference_router/sw/scone/or_pwospf.c:261-336 | the pass over one interface, and that its flag means some neighbour timed out |
| `ShortestPath.RelaxIsSpf` | hw/projects/reference_router/sw/scone/or_dijkstra.c:81-106 | finishing the closest router keeps soundness, frontier, tree and forest |
| `ShortestPath.DistancesAreExact` | hw/projects/reference_router/sw/scone/or_dijkstra.c:75-106 | at the end each distance is the exact minimum hop count, or 0xFFFFFFFF exactly when unreachable, and 0 exactly for us |
| `ShortestPath.ReachIsPath` | hw/projects/reference_router/sw/scone/or_dijkstra.c:206-226 | hop counts are lengths of ways over active links between listed routers |
| `ShortestPath.RoomForHop` | hw/projects/reference_router/sw/scone/or_dijkstra.c:206-226 | distance + 1 never wraps |
| `ShortestPath.FirstHop` | hw/projects/reference_router/sw/scone/or_dijkstra.c:259-293 | the pointer walk, which terminates by (last run that set the pointer, level in that run), ends at a router whose predecessor is ours |
| `ShortestPath.FirstHopIsOnChain` | hw/projects/reference_router/sw/scone/or_dijkstra.c:259-293 | and it lies on the chain of pointers, one before our router |
| `ShortestPath.FirstHopIsOnShortestPath` | hw/projects/reference_router/sw/scone/or_dijkstra.c:259-293 | for a reached router the walk's result is our neighbour and lies on a shortest path |
| `ShortestPath.RelaxForest` | hw/projects/reference_router/sw/scone/or_dijkstra.c:218-221 | setting pointers keeps every chain acyclic and ending at our router, across runs that never reset them |
| `ShortestPath.RelaxOnlyLowers` | hw/projects/reference_router/sw/scone/or_dijkstra.c:218-221 | a router's distance and predecessor change only if the distance falls, to one more than over an active link; of equal ways the first stays |
| `Dijkstra.GetRouterByRid` | hw/projects/reference_router/sw/scone/or_dijkstra.c:173-184 | the router with that id, null exactly when none is listed |
| `Dijkstra.GetShortest` | hw/projects/reference_router/sw/scone/or_dijkstra.c:186-204 | the first in the list of the unfinished routers at the least finite distance, null exactly when there is none |
| `Dijkstra.UpdateNeighborDistance` | hw/projects/reference_router/sw/scone/or_dijkstra.c:206-226 | relaxes exactly the active links of one router |
| `Dijkstra.ComputeDistances` | hw/projects/reference_router/sw/scone/or_dijkstra.c:75-106 | the loops terminate in a finished state over the mutable records |
| `Dijkstra.WalkToFirstHop` | hw/projects/reference_router/sw/scone/or_dijkstra.c:259-293 | the pointer walk terminates from any record with a predecessor, also one that has become unreachable |
| `Dijkstra.RoutingDatabase.AddRouter` | hw/projects/reference_router/sw/scone/or_pwospf.c:438-468 | a new record keeps unique ids and the predecessor forest |
| `Dijkstra.RoutingDatabase.SetLinks` | hw/projects/reference_router/sw/scone/or_pwospf.c:340-434 | changing links between runs keeps the predecessor forest |
| `Dijkstra.RoutingDatabase.Run` | hw/projects/reference_router/sw/scone/or_dijkstra.c:75-106 | a run leaves exact distances, or 0xFFFFFFFF exactly for routers out of reach, whose pointers stay as earlier runs left them; the predecessor forest is kept, any number of times |
| `RouteSelection.WrapperIsNearest` | hw/projects/reference_router/sw/scone/or_dijkstra.c:228-312 | every wrapper comes from an advertiser at the least distance, and its next id is the first router on a shortest path to it |
| `RouteSelection.SelectionExactly` | hw/projects/reference_router/sw/scone/or_dijkstra.c:228-312 | whatever the distances are: the wrapper is made from one advertiser, and that is a nearest one if and only if the first in the list is, or a later one is below the low 16 bits of the first one's distance |
| `RouteSelection.HeldDistance` | hw/projects/reference_router/sw/scone/or_dijkstra.c:58-64 | the distance held is the least of the first one's low 16 bits and all later distances |
| `RouteSelection.WinnerIsFirst` | hw/projects/reference_router/sw/scone/or_dijkstra.c:244-256 | of distances that fit the field the first nearest advertiser in the list wins |
| `RouteSelection.NextExactly` | hw/projects/reference_router/sw/scone/or_dijkstra.c:257-271 | the next id of a link is the router before ours on the chain of pointers, also of stale ones, or what the link names if its router never had one |
| `RouteSelection.OneWrapperPerSubnet` | hw/projects/reference_router/sw/scone/or_dijkstra.c:228-327 | whatever the distances are, the list has exactly one entry per advertised (subnet and mask, mask) |
| `RouteSelection.SmallNetworksFit` | hw/projects/reference_router/sw/scone/or_dijkstra.c:58-64 | with fewer than 65536 routers no finite distance wraps the 16-bit field |
| `FarNetwork.FarRoutersWrap` | hw/projects/reference_router/sw/scone/or_dijkstra.c:58-64 | a router list with its distances, a line of 65537 routers and a neighbour, on which the wrapper holds distance 0 and leads to the far end |
| `RouteSelection.GetRouteWrapper` | hw/projects/reference_router/sw/scone/or_dijkstra.c:314-327 | the first wrapper of the masked subnet and mask |
| `RouteSelection.BuildRouteWrapperList` | hw/projects/reference_router/sw/scone/or_dijkstra.c:228-312 | the loops over routers and links compute the selection from exactly the offered links |
| `Gateway.GatewayIsFirstHop` | hw/projects/reference_router/sw/scone/or_dijkstra.c:112-160 | while our links mirror the neighbour tables the assertion on the neighbour never fires, and a route to a reachable remote subnet has a currently heard first-hop neighbour as gateway |
| `Gateway.NeverAborts` | hw/projects/reference_router/sw/scone/or_dijkstra.c:134-144 | no wrapper of ours makes the neighbour assertion fail |
| `Gateway.UnwrapRoutes` | hw/projects/reference_router/sw/scone/or_dijkstra.c:112-160 | the routing entries of all wrappers, or a failed assertion exactly when some wrapper aborts |
| `Gateway.ResolvesExactly` | hw/projects/reference_router/sw/scone/or_dijkstra.c:112-160 | by the neighbour tables alone: which wrappers are left out, and which make the neighbour assertion fail |
| `Gateway.UnreachableResolves` | hw/projects/reference_router/sw/scone/or_dijkstra.c:112-160 | a subnet that no reachable router advertises is installed if and only if its left-over next hop is a neighbour that is heard |
| `Gateway.UnreachableInstalled` | hw/projects/reference_router/sw/scone/or_dijkstra.c:112-160 | an input on which such a route is installed |
| `Gateway.DirectRouteInterface` | hw/projects/reference_router/sw/scone/or_dijkstra.c:121-144 | a directly connected subnet is installed on its own interface, by name, if and only if no earlier interface hears the neighbour its link names; otherwise on the first that does |
| `Gateway.ParallelLinksMisdirect` | hw/projects/reference_router/sw/scone/or_dijkstra.c:340-363 | an input on which a second link to one neighbour gets the first link's interface |
| `Gateway.GetIfaceByRid` | hw/projects/reference_router/sw/scone/or_dijkstra.c:340-363 | the first interface that hears the router |
| `Gateway.GetNbrByRid` | hw/projects/reference_router/sw/scone/or_iface.c:426-437 | the neighbour with that id |
| `RouteComputation.ComputeRtable` | hw/projects/reference_router/sw/scone/or_dijkstra.c:75-171 | no assertion fails, no subnet has two entries, every subnet that can be reached has one, ours leave directly by an interface that is on the subnet or hears the neighbour our link names, and every other entry has as gateway a heard neighbour one hop closer to a nearest advertiser |
| `RouteComputation.WrapperSound` | hw/projects/reference_router/sw/scone/or_dijkstra.c:112-160 | what becomes of one wrapper: our own subnet, a closer neighbour, or a subnet nobody reachable advertises |
| `Forwarding.ComputedIsNearest` | hw/projects/reference_router/sw/scone/or_dijkstra.c:75-171 | the distance kept for a subnet is the least hop count to any advertiser, and the next hop is one hop less away from one |
| `Forwarding.HopLowersDistance` | hw/projects/reference_router/sw/scone/or_dijkstra.c:75-171 | when two routers work on the same graph the next hop's own distance is exactly one less, whatever the order of its lists |
| `Forwarding.FollowsDown` | hw/projects/reference_router/sw/scone/or_dijkstra.c:75-171 | following next hops, after k of them the subnet is k hops closer, each over an active link, and at the end the packet is at an advertiser |
| `Forwarding.NoLoops` | hw/projects/reference_router/sw/scone/or_dijkstra.c:75-171 | no router is visited twice |
| `Forwarding.GatewayFollows` | hw/projects/reference_router/sw/scone/or_dijkstra.c:112-160 | the installed entry of a router sends to the next router of that way |
| `NetworkRoutes.ColdStartInforms` | hw/projects/reference_router/sw/scone/or_pwospf.c:340-434 | a connected network of mutual links knows itself when the flood of its start-up is over: every router stores the links of every other |
| `NetworkRoutes.GraphsAgree` | hw/projects/reference_router/sw/scone/or_pwospf.c:762-811 | then the activation pass leaves all routers the same graph |
| `NetworkRoutes.NetworkDelivers` | hw/projects/reference_router/sw/scone/or_dijkstra.c:75-171 | so with every router's routes computed from its own list a packet comes one hop closer at each router over links that are named, visits none twice and arrives at a router on the subnet |
| `NetworkRoutes.ReachableHasDistance` | hw/projects/reference_router/sw/scone/or_dijkstra.c:75-171 | every router that named links join to the subnet has a real distance for it, at most their number |
| `NetworkRoutes.GatewaysLead` | hw/projects/reference_router/sw/scone/or_dijkstra.c:112-160 | and the entry each router on the way installs goes through its heard neighbour to the next one |
| `LineRoutes.LineInforms` | hw/projects/reference_router/sw/scone/or_pwospf.c:340-434 | a line of at most 65 routers with ids that accept each other meets all conditions of the above |
| `RouteTable.SwapLowers` | hw/projects/reference_router/sw/scone/or_rtable.c:230-255 | every swap removes an inversion, so the passes end |
| `RouteTable.BubbleSort` | hw/projects/reference_router/sw/scone/or_rtable.c:230-255 | terminates with a sorted permutation |
| `RouteTable.SortedKeys` | hw/projects/reference_router/sw/scone/or_rtable.c:238-247 | in a sorted table masks descend, under one mask addresses descend, and of one subnet static entries come first |
| `RouteTable.StaticWins` | hw/projects/reference_router/sw/scone/or_rtable.c:59-105 | so of two matching routes for one subnet the static one is picked |
| `RouteTable.LongestMatch` | hw/projects/reference_router/sw/scone/or_rtable.c:59-89 | an active match of greatest prefix length, or none exactly when nothing matches |
| `RouteTable.AgreeIsBitwise` | hw/projects/reference_router/sw/scone/or_rtable.c:68-73 | an address matches an entry if and only if it has its bits wherever the mask has a one |
| `RouteTable.GetNextHop` | hw/projects/reference_router/sw/scone/or_rtable.c:59-105 | the gateway of a longest match, the destination itself for gateway 0 |
| `RouteTable.MaskOrderIsPrefixOrder` | hw/projects/reference_router/sw/scone/or_rtable.c:230-255 | for contiguous masks the numeric order of the sort is the order of prefix lengths |
| `RouteTable.FirstMatchIsLongest` | hw/projects/reference_router/sw/scone/or_rtable.c:59-89 | in a sorted table whose masks order alike by value and by prefix length the first match is a longest one |
| `RouteTable.OrdersAgreeExactly` | hw/projects/reference_router/sw/scone/or_rtable.c:230-255 | the first match is the longest on every sorted table over a set of masks if and only if their numeric order is the order of prefix lengths |
| `RouteTable.ContiguousAgree` | hw/projects/reference_router/sw/scone/or_rtable.c:230-255 | which holds of contiguous masks |
| `RouteTable.TcamRefinesLookup` | hw/projects/reference_router/sw/scone/or_rtable.c:257-303 | when the masks order alike by value and by prefix length, the lowest matching row shows address, mask, gateway and interface of the entry software picks, or a miss exactly when 32 active entries precede it; never another route |
| `RouteTable.TcamMisses` | hw/projects/reference_router/sw/scone/or_rtable.c:257-303 | without a software route there is no hardware hit |
| `RouteTable.PortsRoundTrip` | hw/projects/reference_router/sw/scone/or_netfpga.c:65-97 | interface names and one-hot port numbers translate back and forth |
| `RouteTable.HolesBreakTheOrder` | hw/projects/reference_router/sw/scone/or_rtable.c:230-255 | an input with a non-contiguous mask on which the first match is not the longest |
| `RouteTable.DownStopsForwarding` | hw/projects/reference_router/sw/scone/or_rtable.c:174-203 | after deactivation exactly the static entries of the interface are left, inactive, and other entries stay |
| `RouteTable.UpStartsForwarding` | hw/projects/reference_router/sw/scone/or_rtable.c:205-228 | after activation every entry of the interface is active, and other entries stay |
| `RouteTable.UpRestores` | hw/projects/reference_router/sw/scone/or_rtable.c:174-228 | down then up restores a table whose entries on the interface are static and active |
| `RouteTable.MergeReplacesDynamic` | hw/projects/reference_router/sw/scone/or_dijkstra.c:428-459 | the merge keeps all static routes and replaces exactly the dynamic ones |
| `RouteTable.MergePrefersStatic` | hw/projects/reference_router/sw/scone/or_dijkstra.c:428-459 | after the merge an active static route still wins over a computed one for its subnet |
| `RouteTable.Table.WriteToHardware` | hw/projects/reference_router/sw/scone/or_rtable.c:257-303 | the rows become the image of the active entries, then cleared rows |
| `RouteTable.Table.Modified` | hw/projects/reference_router/sw/scone/or_rtable.c:230-255 | sorts and refreshes the hardware |
| `RouteTable.Table.AddRoute` | hw/projects/reference_router/sw/scone/or_rtable.c:112-144 | adds one static active entry; table and rows stay in step |
| `RouteTable.Table.DelRoute` | hw/projects/reference_router/sw/scone/or_rtable.c:146-172 | removes exactly the entries with that subnet and mask, and counts them |
| `RouteTable.Table.DeactivateRoutes` | hw/projects/reference_router/sw/scone/or_rtable.c:174-203 | static entries on interfaces whose name starts with the given one become inactive, dynamic ones go |
| `RouteTable.Table.ActivateRoutes` | hw/projects/reference_router/sw/scone/or_rtable.c:205-228 | entries on interfaces whose name starts with the given one become active |
| `RouteTable.Table.MergeDynamic` | hw/projects/reference_router/sw/scone/or_dijkstra.c:428-459 | static entries and the new dynamic ones, sorted and in hardware |
| `RouteTable.Table.Agrees` | hw/projects/reference_router/sw/scone/or_rtable.c:59-105 | after each change, with at most 32 active routes, hardware answers with the entry software picks |
| `RouteTable.Table.HardwarePrefersStatic` | hw/projects/reference_router/sw/scone/or_rtable.c:257-303 | and in hardware, too |
| `ArpCache.UpdatedResolves` | hw/projects/reference_router/sw/scone/or_arp.c:268-316 | after an update the address resolves to the new hardware address, with its kind and, unless static, the present time; no other resolution changes |
| `ArpCache.KeptMembers` | hw/projects/reference_router/sw/scone/or_arp.c:533-565 | expiry keeps exactly the static and the recent entries |
| `ArpCache.LearnedUntil` | hw/projects/reference_router/sw/scone/or_arp.c:268-565 | a learned address resolves if and only if its time to live has not passed, a static one for good |
| `ArpCache.CamAgrees` | hw/projects/reference_router/sw/scone/or_arp.c:672-708 | a CAM row never disagrees with the cache |
| `ArpCache.CamIsComplete` | hw/projects/reference_router/sw/scone/or_arp.c:672-708 | with at most 32 entries every cached address has its row |
| `ArpCache.StaticsComeFirst` | hw/projects/reference_router/sw/scone/or_arp.c:672-708 | the first rows are the static entries, the next ones the dynamic entries, the rest empty |
| `ArpCache.Cache.WriteToHardware` | hw/projects/reference_router/sw/scone/or_arp.c:672-708 | the two walks write the image of the cache |
| `ArpCache.Cache.Update` | hw/projects/reference_router/sw/scone/or_arp.c:268-316 | the updated cache, addresses unique, CAM in step |
| `ArpCache.Cache.Expire` | hw/projects/reference_router/sw/scone/or_arp.c:533-565 | the expired cache, CAM in step although only rewritten when something went |
| `ArpQueue.BounceHead` | hw/projects/reference_router/sw/scone/or_arp.c:597-634 | one turn of the give-up loop lowers (packets owed an error + packets), although its error may join the list |
| `ArpQueue.Drain` | hw/projects/reference_router/sw/scone/or_arp.c:594-634 | the give-up loop terminates with the list empty |
| `ArpQueue.DrainReports` | hw/projects/reference_router/sw/scone/or_arp.c:594-637 | each waiting packet that deserves an error and has a route back gets exactly one, in order; the list and the errors that joined it are freed |
| `ArpQueue.ErrorGoesBack` | hw/projects/reference_router/sw/scone/or_icmp.c:71-142 | which packets are answered, and that the error goes back to the sender from the address of the interface it leaves by, and quotes the packet with the TTL it came with |
| `ArpQueue.GiveUpLoad` | hw/projects/reference_router/sw/scone/or_arp.c:570-643 | giving up on an entry lowers the load still ahead of the sweep, so the sweep ends |
| `ArpQueue.SweepKeeps` | hw/projects/reference_router/sw/scone/or_arp.c:570-643 | a sweep keeps one entry per hop, 1 to 5 requests, nonempty lists, conservation, order and unresolvedness |
| `ArpQueue.SendIpKeeps` | hw/projects/reference_router/sw/scone/or_main.c:788-810 | so does handing over a packet |
| `ArpQueue.SendIpFrames` | hw/projects/reference_router/sw/scone/or_main.c:788-810 | what goes on the wire: the packet with the cached address, or a request for a hop that nothing waits for yet |
| `ArpQueue.ReplyKeeps` | hw/projects/reference_router/sw/scone/or_arp.c:164-224 | so does a reply |
| `ArpQueue.FramesSent` | hw/projects/reference_router/sw/scone/or_arp.c:192-224 | the frames of a flushed list add exactly its packets, in order, to what was sent to the hop |
| `ArpQueue.ReplySends` | hw/projects/reference_router/sw/scone/or_arp.c:164-224 | a reply transmits exactly that hop's packets, in order, with the new hardware address; other hops keep theirs |
| `ArpQueue.StepKeeps` | hw/projects/reference_router/sw/scone/or_arp.c:164-224 | every step keeps the queue sound and in order, and leaves a waiting hop resolved if and only if it adds a static entry for one |
| `ArpQueue.OvertakesExactly` | hw/projects/reference_router/sw/scone/or_main.c:788-810 | a packet not given before goes out in turn if and only if its hop has no cache entry or nothing is waiting for it |
| `ArpQueue.RunKeeps` | hw/projects/reference_router/sw/scone/or_arp.c:437-475 | over every run: one entry per hop, 1 to 5 requests, and every packet given is exactly one of transmitted, queued or dropped |
| `ArpQueue.InitialKeeps` | hw/projects/reference_router/sw/scone/or_main.c:78-81 | the empty tables at start-up satisfy all of it |
| `ArpQueue.RunInOrder` | hw/projects/reference_router/sw/scone/or_arp.c:437-475 | over every run without such a static entry, packets towards a hop are transmitted and then queued in the order given, none twice, and no queued hop is resolved |
| `ArpRetries.SweepDecides` | hw/projects/reference_router/sw/scone/or_arp.c:576-643 | a sweep leaves an entry alone for a second after its last request, then asks again and keeps its packets while fewer than five requests were sent, then removes it and drops its packets in order |
| `ArpRetries.RunCounts` | hw/projects/reference_router/sw/scone/or_arp.c:437-643 | over every run an entry's counter is the number of requests for its hop on the wire since it was opened |
| `ArpRetries.SweepExcused` | hw/projects/reference_router/sw/scone/or_arp.c:576-643 | a sweep drops only packets of entries that had five requests, and errors that joined them |
| `ArpRetries.DropsAfterFive` | hw/projects/reference_router/sw/scone/or_arp.c:437-643 | over every run a packet is dropped only by a sweep, when its hop has been asked for five times on the wire since its entry was opened |
| `ArpQueue.StaticEntryOvertakes` | hw/projects/reference_router/sw/scone/or_arp.c:813-853 | an input on which a static entry lets a later packet overtake a waiting one |
| `ArpQueue.Sender.QueueAdd` | hw/projects/reference_router/sw/scone/or_arp.c:437-475 | joins the hop's list, or opens one with a first request |
| `ArpQueue.Sender.SendPacket` | hw/projects/reference_router/sw/scone/or_main.c:788-810 | transmits when the hop is cached, queues otherwise |
| `ArpQueue.Sender.SendError` | hw/projects/reference_router/sw/scone/or_icmp.c:71-142 | hands an error to send_ip exactly for packets that deserve one and have a route back |
| `ArpQueue.Sender.FlushEntry` | hw/projects/reference_router/sw/scone/or_arp.c:199-219 | the entry's packets leave in order with the cached address, then it is removed |
| `ArpQueue.Sender.ProcessReply` | hw/projects/reference_router/sw/scone/or_arp.c:164-224 | the cache learns the address and exactly that hop's entry is flushed |
| `ArpQueue.Sender.GiveUpOn` | hw/projects/reference_router/sw/scone/or_arp.c:594-637 | the inner loop drains and removes the entry |
| `ArpQueue.Sender.ProcessQueue` | hw/projects/reference_router/sw/scone/or_arp.c:570-643 | the walk, with its successor read early, does the sweep |
| `Checksum.FoldedIsOnes` | hw/projects/reference_router/sw/scone/or_ip.c:262-278 | repeated folding gives all ones exactly on the positive multiples of 65535 |
| `Checksum.FoldCarryIsFolded` | hw/projects/reference_router/sw/scone/or_ip.c:250-252 | one fold and its carry is the complete fold of a 32-bit sum |
| `Checksum.SingleFoldSuffices` | hw/projects/reference_router/sw/scone/or_ip.c:262-278 | the single-fold verifier accepts if and only if the word sum is a positive multiple of 65535, as repeated folding does |
| `Checksum.FieldVerifies` | hw/projects/reference_router/sw/scone/or_ip.c:235-278 | a header verifies if and only if its field is the computed sum, or all ones where that is 0 |
| `Checksum.WrittenVerifies` | hw/projects/reference_router/sw/scone/or_ip.c:235-278 | writing the computed sum makes the buffer verify, if and only if the field lies inside it or it verified anyway |
| `Checksum.ComputeChecksum` | hw/projects/reference_router/sw/scone/or_ip.c:235-260 | the loop clears the field and computes the complemented sum of the other words |
| `Checksum.VerifyChecksum` | hw/projects/reference_router/sw/scone/or_ip.c:262-278 | accepts if and only if the word sum is a positive multiple of 65535 |
| `Checksum.Refresh` | hw/projects/reference_router/sw/scone/or_ip.c:157-163 | the forwarding path leaves a header that verifies, no other word changed |
| `Nat.NatChecksumMeaning` | hw/projects/reference_router/sw/scone/or_nat.c:509-521 | the incremental patch is old + plus - minus modulo 65535, with its unsigned wrap |
| `Nat.OrderIndependent` | hw/projects/reference_router/sw/scone/or_nat.c:509-521 | and it is so in network order whatever the host's byte order |
| `Nat.CachedSums` | hw/projects/reference_router/sw/scone/or_nat.c:471-505 | the cached sums are the complements of address and port, address, and port |
| `Nat.OutgoingKeepsVerdict` | hw/projects/reference_router/sw/scone/or_nat.c:125-165 | an outgoing TCP or UDP packet verifies by full recomputation after translation if and only if it did before |
| `Nat.IncomingKeepsVerdict` | hw/projects/reference_router/sw/scone/or_nat.c:52-92 | the same for incoming packets |
| `Nat.OutgoingEchoVerdict` | hw/projects/reference_router/sw/scone/or_nat.c:171-176 | an outgoing ICMP echo keeps its verdict if and only if the message is not all zero |
| `Nat.IncomingEchoVerdict` | hw/projects/reference_router/sw/scone/or_nat.c:99-103 | an incoming one if and only if it does not come out all zero |
| `Nat.ZeroEchoIsRepaired` | hw/projects/reference_router/sw/scone/or_nat.c:171-176 | an all-zero echo reply, which no receiver accepts, goes out acceptable |
| `Nat.OutgoingHeaderVerdict` | hw/projects/reference_router/sw/scone/or_nat.c:186-193 | an intact IP header is intact after the outgoing patch if and only if the inner port is 0 or 0xFFFF |
| `Nat.IncomingHeaderVerdict` | hw/projects/reference_router/sw/scone/or_nat.c:116-119 | after the incoming patch if and only if the outer port is |
| `Nat.HeaderPatchBreaks` | hw/projects/reference_router/sw/scone/or_nat.c:186-193 | a header at concrete values that verifies before the patch and not after |
| `Nat.OutThenBack` | hw/projects/reference_router/sw/scone/or_nat.c:52-192 | a packet sent out and answered in kind comes back to the sender's address and port with its checksum modulo 65535 |
| `Nat.OutgoingIsFromOuter` | hw/projects/reference_router/sw/scone/or_nat.c:125-165 | an outgoing packet has the outer address and port as its source, and nothing else but sums changes |
| `Nat.IncomingIsToInner` | hw/projects/reference_router/sw/scone/or_nat.c:52-92 | an incoming one the inner address and port as its destination |
| `Nat.Translator.GetEntry` | hw/projects/reference_router/sw/scone/or_nat.c:249-275 | the first entry whose address and port on that side match |
| `Nat.Translator.CreateEntry` | hw/projects/reference_router/sw/scone/or_nat.c:198-245 | appends an entry with correct cached sums that matches the packet |
| `Nat.Translator.ProcessInner` | hw/projects/reference_router/sw/scone/or_nat.c:125-194 | rewrites source and sums by the first matching or a new entry, counts the hit, keeps the TCP/UDP verdict; a protocol without ports crashes |
| `Nat.Translator.ProcessOuter` | hw/projects/reference_router/sw/scone/or_nat.c:52-121 | rewrites destination and sums by the first matching entry, or leaves the packet alone |
| `Activation.MutualIsActive` | hw/projects/reference_router/sw/scone/or_pwospf.c:780-811 | two routers that name each other on one subnet and mask: both ends are active, in any list order |
| `Activation.ActiveIsJustified` | hw/projects/reference_router/sw/scone/or_pwospf.c:780-811 | without self-links an active link has nonzero ids on both sides and another known router on its subnet that it names or that names it |
| `Activation.OneSided` | hw/projects/reference_router/sw/scone/or_pwospf.c:780-811 | an input on which the list order decides whether a one-sided link is active |
| `Activation.PassStep` | hw/projects/reference_router/sw/scone/or_pwospf.c:780-811 | visiting one more link extends the exact meaning of the flags to it |
| `Activation.VisitLink` | hw/projects/reference_router/sw/scone/or_pwospf.c:783-808 | clears the link's flag, then sets it and its partners' |
| `Activation.ActivateAll` | hw/projects/reference_router/sw/scone/or_pwospf.c:762-811 | after the pass a link is active if and only if it finds a partner in the router it names, or a link visited later names its router on the same subnet; nothing else changes |
| `HardwareMirror.StepMirrors` | hw/projects/reference_router/sw/router_kit/sume_mon.cc:76-132 | every update within capacity keeps rows equal to the filtered table followed by cleared rows |
| `HardwareMirror.RunMirrors` | hw/projects/reference_router/sw/router_kit/sume_mon.cc:76-132 | over every run of updates |
| `HardwareMirror.FilterIsExact` | hw/projects/reference_router/sw/router_kit/sume_mon.cc:220-250 | the filter accepts exactly the interface addresses, and 224.0.0.5 after any real update, although old rows stay behind |
| `HardwareMirror.HardwareAfterRun` | hw/projects/reference_router/sw/router_kit/sume_mon.cc:76-305 | after any run each row holds destination, mask, gateway and port of one of our entries of the last table, or address and hardware address, and the rest are cleared; the address filter accepts exactly the interface addresses and, once an update brought one of our interfaces, 224.0.0.5; the first four interfaces have their hardware addresses set |
| `HardwareMirror.RoutesInOrder` | hw/projects/reference_router/sw/router_kit/sume_mon.cc:79-84 | the selection keeps table order and every occurrence |
| `HardwareMirror.IfacesInOrder` | hw/projects/reference_router/sw/router_kit/sume_mon.cc:119-124 | so does that of the interfaces |
| `HardwareMirror.RoutesAnswer` | hw/projects/reference_router/sw/router_kit/sume_mon.cc:76-280 | after any run the lowest row that covers an address gives gateway and port of the first of our entries in the last table that does, and no row covers an address that none does |
| `HardwareMirror.ArpsAnswer` | hw/projects/reference_router/sw/router_kit/sume_mon.cc:97-305 | and so for hardware addresses |
| `HardwareMirror.Rewrite` | hw/projects/reference_router/sw/router_kit/sume_mon.cc:255-280 | clears the old rows and writes the new ones, nothing else |
| `HardwareMirror.Monitor.constructor` | hw/projects/reference_router/sw/router_kit/sume_mon.cc:44-72 | all tables cleared |
| `HardwareMirror.Monitor.RoutesUpdate` | hw/projects/reference_router/sw/router_kit/sume_mon.cc:76-92 | filters and rewrites when the table changed |
| `HardwareMirror.Monitor.ArpsUpdate` | hw/projects/reference_router/sw/router_kit/sume_mon.cc:97-113 | filters and rewrites when the table changed |
| `HardwareMirror.Monitor.IfacesUpdate` | hw/projects/reference_router/sw/router_kit/sume_mon.cc:117-132 | filters, rewrites the address filter and the first four MAC registers |
| `AxiStream.RoundTrip` | tools/scripts/axitools.py:64-237 | axis_load of the dumped text succeeds and returns the nonempty packets, in order, for any bus of whole bytes |
| `AxiStream.ReloadedFields` | tools/scripts/axitools.py:64-237 | each has the same bytes, its length, its given ports, and its TUSER words |
| `AxiStream.ReloadedInOrder` | tools/scripts/axitools.py:64-237 | when every packet has bytes the k-th packet read is the k-th written |
| `AxiStream.FirstUserFields` | tools/scripts/axitools.py:108-114 | for packets shorter than 65536 bytes the first TUSER word holds length and given ports, and keeps a port not given |
| `AxiStream.MaskFields` | tools/scripts/axitools.py:73-77 | the widened mask leaves the low 40 bits as given, for any TUSER width |
| `AxiStream.WordLoads` | tools/scripts/axitools.py:118-142 | one dumped line reads back as its bytes, valid bytes and TUSER word |
| `AxiStream.LineSays` | tools/scripts/axitools.py:118-142 | a data line is the word as a little-endian number with two digits a byte, a one per valid byte and the TUSER word, in lower case, and ends in a full stop exactly at the end of a packet |
| `AxiStream.LineOfWord` | tools/scripts/axitools.py:116-142 | the k-th data line is the word at k bus widths, zero-padded if it is the last, with the k-th TUSER word or 0 |
| `AxiStream.PacketEnds` | tools/scripts/axitools.py:116-145 | the text of a packet is its delay line, its data lines and an empty line |
| `AxiStream.DelaySays` | tools/scripts/axitools.py:92-98 | what a delay line says |
| `AxiStream.CommentIsIgnored` | tools/scripts/axitools.py:180-191 | a line loads as it would without its comment |
| `AxiStream.LineRefused` | tools/scripts/axitools.py:203-209 | a data line with another terminal or not three fields is refused, with that error |
| `AxiStream.AxisDump` | tools/scripts/axitools.py:64-145 | the loop writes exactly the text of the packets; nothing for a bus that is not whole bytes; width 0 raises |
| `AxiStream.DumpPacket` | tools/scripts/axitools.py:116-145 | one packet's delay line, data lines and blank line |
| `AxiStream.AxisLoad` | tools/scripts/axitools.py:158-237 | the loop over lines loads all packets or stops at the first error |
| `UrlCode.RoundTrip` | hw/projects/reference_router/sw/scone/or_utils.c:364-424 | decoding undoes encoding, for every byte string |
| `UrlCode.DecodesEverySpelling` | hw/projects/reference_router/sw/scone/or_utils.c:392-424 | every spelling of a text decodes to it: plain bytes, a plus for a space, percent codes in either case |
| `UrlCode.EncodesOne` | hw/projects/reference_router/sw/scone/or_utils.c:364-390 | letters and digits stay, any other byte becomes a percent and two upper-case digits |
| `UrlCode.EncodesEach` | hw/projects/reference_router/sw/scone/or_utils.c:364-390 | byte by byte |
| `UrlCode.EncodedText` | hw/projects/reference_router/sw/scone/or_utils.c:364-390 | the encoded text is at most three times as long and has no terminator inside |
| `UrlCode.DecodedFits` | hw/projects/reference_router/sw/scone/or_utils.c:392-424 | decoding never lengthens |
| `UrlCode.UrlEncode` | hw/projects/reference_router/sw/scone/or_utils.c:364-390 | fills a buffer of 3n + 1 bytes within bounds |
| `UrlCode.UrlDecode` | hw/projects/reference_router/sw/scone/or_utils.c:392-424 | fills a buffer of n + 1 bytes within bounds |
| `NodeList.PushBack` | hw/projects/reference_router/sw/scone/or_utils.c:57-64 | appends to the sequence of nodes of a doubly linked list |
| `NodeList.Remove` | hw/projects/reference_router/sw/scone/or_utils.c:66-101 | removes one node from the sequence; the head is the new first node or null |
| `NodeList.Length` | hw/projects/reference_router/sw/scone/or_utils.c:103-113 | the number of nodes |

## Left out

- Threads, locks and deadlock: every locked section is one step; early returns that keep a lock are not modelled.
- Sockets, raw I/O, register access, printing, the CLI and web handlers, lwIP: no laws of their own.
- `iface_up` and `iface_down` with neighbours present: their clearing loops do not advance.
- Freed routers still referenced by `prev_router`: `Dijkstra.RoutingDatabase` has no removal.
- Flood.RunIsSafe: assumes fewer than 65536 LSUs per origin, because the 16-bit counter wraps after that.
- FloodConvergence.QuietMeansConverged: assumes that no way without repetitions is longer than 64 hops, because the TTL starts at 64; beyond that what is learned depends on which copy of an LSU arrives first.
- FloodLine.SwappedEndsNeverMeet: takes the owner of each address as given, as do the other lemmas about lines.
- NetworkRoutes.NetworkDelivers: assumes links named from both ends, because a one-sided link is active or not depending on list order (`OneSided`), and that no router has id 0.
- The switch that turns LSU broadcasts off, the area id, packet lengths and the PWOSPF checksum: packets that fail `is_pwospf_packet_valid` for those reasons are not in the model.
- RouteSelection.WrapperIsNearest: assumes finite distances below 65535, because the wrapper field has 16 bits.
- RouteTable.TcamRefinesLookup: assumes that the lowest matching row wins and port 0 reads as empty; the TCAM's RTL is not part of this model.
- RouteTable.Table.AddRoute: on a NetFPGA assumes an interface name with a hardware port, because the source's own assertion fails otherwise; so do `ActivateRoutes` and `MergeDynamic`.
- RouteTable.Table.DelRoute: rebuilds the list rather than unlinking nodes in place, as do the other table walks; the pointer surgery itself is in `NodeList`.
- Removal of single ARP cache entries by the operator, and failures of the send system call.
- ArpQueue.Sender.SendError: the error quotes the whole packet, not its first 28 bytes, and its interface is taken to exist.
- ArpQueue.Sender.ProcessQueue: the clock is read once per sweep.
- Nat.Translator.CreateEntry: takes the random port as given; the uniqueness test compares host with network order and promises nothing.
- Nat.Translator.ProcessInner: no ICMP errors, whose quoted packet the source rewrites as well.
- Nat.Translator.ProcessOuter: no ICMP errors either.
- Operator-added NAT entries and `nat_maintenance_thread`.
- Nat.OutgoingKeepsVerdict: a UDP checksum of 0 is treated as any other, not as "no checksum".
- Checksum.ComputeChecksum: one method for the IP and the ICMP sum, which differ in the position of the field only.
- HardwareMirror.RunMirrors: assumes tables within 32 rows (31 addresses), because the row number is or-ed into the register address.
- AxiStream.AxisLoad: timestamps are checked for their form and not kept, the logarithm of the strobe is exact, hexadecimal numbers with signs or prefixes and numbers with underscores are errors.
- AxiStream.AxisDump: TUSER words are naturals, and the packet's own TUSER list is not consumed.
- Register-define generators, OSNT scripts and the other hardware projects.
