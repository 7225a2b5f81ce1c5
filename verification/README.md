# NetLynx: a verified model of its graph analysis, alerting and diff logic

NetLynx watches a switched network: it polls devices, keeps a topology graph,
warns what a VLAN deletion or a port shutdown would cut off, reports loops,
sends e-mail about outages and scans address ranges. This project models the
parts of it whose behaviour is hard to see from one function body and proves
what they promise, for every input, every run and every reachable state.

Verify everything with `dafny verify dfyconfig.toml` (Dafny 4.11).

## What is modelled

| component | modules |
|---|---|
| walks, distances and the queue-search argument shared by all searches | `Graph`, `Search`, `LeastPath`, `Layers` |
| distances, shortest path, downhill walk, reachability report, labelled path | `Bfs`, `Downhill`, `Topology`, `L2Path`, `LldpAdjacency` |
| VLAN-delete and port-shutdown analysis | `VlanBlast`, `ShutBlast` |
| loop finder: depth-first search, cycle key, report | `DfsForest`, `DfsSteps`, `LoopTheorems`, `LoopCount`, `CycleKey`, `Loops`, `CycleReport`, `LoopReport`, `LiveLoops` |
| loop watch: one alert per loop | `LoopWatch` |
| reachability debouncer: when DEVICE_OFFLINE and DEVICE_ONLINE are logged | `Debounce`, `Alternation`, `Outages`, `Restarts`, `Recovery`, `Poller` |
| e-mail batching and shutdown | `EmailBatch`, `EmailFates`, `EmailRuns`, `EventHook`, `Shutdown` |
| address-table diffs as patches | `MacMoves`, `AccessEvents` |
| CIDR expansion with byte carry | `Addresses`, `ScanTargets`, `CidrBlocks`, `ScanExpansion` |

Loops of the source are loops here, with invariants; objects whose methods
update fields (`LoopFinder`, `Hub`, `Engine`, `EventHook`) are classes whose
methods are tied to functions on values, and the laws are proved about those
functions. Where several goroutines interleave (shutdown), the critical
sections are the atomic steps of a state machine.

## Assumptions

- Device ids in an adjacency list are positive, because 0 ends the parent chain
  of `ShortestPath`; the VLAN analysis also needs a symmetric graph.
  `LldpAdjacency.BuildLLDPDeviceAdj` and `LoopReport.BuildUndirectedFromBlast`
  are proved to build such graphs. The labelled path needs neither.
- What the switch configuration says about VLANs and ports, which addresses may
  be scanned, which MACs belong to the inventory and the text that describes a
  cycle are arbitrary functions.
- Edges of the live topology graph belong to a device and never name that device as
  their own neighbour: the store resolves entries so (`internal/store/topology.go:160`)
  and constrains manual links so
  (`internal/db/migrations/031_manual_topology_links.sql:17`).
- Poll outcomes and all clock readings are inputs. The store is modelled by three
  statements: `EnsureOfflineSince` sets the column if it is null,
  `RefreshOfflineSince` clears it for an online device and otherwise does the same,
  `HasEventSince` is exact (`internal/store/store.go:487-506`, `757-769`). A
  restart loses both streak maps and refreshes `offline_since`
  (`cmd/netlynxd/main.go:81-83`). Polls of one device do not overlap, and its
  category does not change.

## Where the code and its intent differ

- OFFLINE and ONLINE events do not alternate for polls that are merely 10 s
  apart. Three gaps outlast the 30 s lookup skew after a confirmed outage, but a
  catch-up OFFLINE logged at an online poll is followed by an ONLINE one poll
  later and a new outage one poll after that: two gaps. `Outages.AlternationIffGap`
  proves the exact bound, more than 15 s; `Outages.FlapBreaks` is a run at 15 s
  that logs two ONLINE in a row.
- Restarts can break alternation. With polls more than 15 s apart and restarts at
  any moment between them, `Restarts.AlternationIffSafeRestarts` proves that the
  events are sure to alternate if and only if no restart hits a device that is
  online with its reported outage still open, that is, between the first answered
  poll and its confirmation. `Restarts.RestartBreaks` shows that from every such
  state a restart and a new outage log a second OFFLINE in a row;
  `Outages.RestartCanRepeatOffline` is a concrete run. Without such a restart
  every reported outage ends with an ONLINE at the second of two consecutive
  answered polls (`Recovery.OutageEndsAtPair`); after one the outage is forgotten
  and its end is never reported (`Recovery.ForgottenOutage`).
- `ShutCutPath.Redundant` does not mean that a bypass exists. Because the search
  picks one definite shortest path (the first in adjacency order),
  `ShutBlast.CutFlagMeans` can say exactly what it means: a bypass exists and the
  switch lies on the picked path. `ShutBlast.BypassWithoutFlag` has a bypass
  without the flag.
- Taking a batch of e-mail cards and registering its send happen under different
  mutexes. `Shutdown.LostIffInBetween` proves that a card is lost exactly when its
  batch is between the two when the hook closes; `Shutdown.TakenBatchCanBeLost` is
  such a run. With the two joined nothing is lost (`Shutdown.PromptLosesNothing`).
- Replaying the FDB moves gives the new table exactly when every changed MAC has a
  positive port (`MacMoves.PatchGivesCurrent`); `MacMoves.ZeroPortIsMissed` is a
  table pair that fails. The callers cannot produce it: the address-table walk drops
  ports that are not positive (`internal/snmp/fdb.go:76-78`, `91-93`), and for such
  tables `MacMoves.PositiveTablesPatch` has no condition left.
- Replaying the access-port incidents gives the new access table exactly when no
  change was kept quiet (`AccessEvents.IncidentsPatchAccessTable`). The callers do
  produce failing inputs: an inventory MAC that leaves its access port
  (`AccessEvents.InventoryDepartureIsMissed`) and a bound MAC that appears on its
  port (`AccessEvents.KnownArrivalIsMissed`). The third quiet case, a MAC coming
  from a port whose role is none of access, trunk and ignore, is not reachable from
  them: `makeResolvePortRole` (`internal/poller/poller.go:1906-1925`) yields only
  those three.

## Model

| member | source | states |
|---|---|---|
| `Graph.RelaxedBoundsWalks` | internal/investigate/vlan_blast.go:365-374 | Labels that start at 0 and grow by at most one per edge bound the length of every walk; the one argument behind all the queue loops. |
| `Search.Discover` | internal/investigate/vlan_blast.go:368-373 | Labelling a new vertex from the head of the queue keeps the queue ordered by label and the labels within one level. |
| `Search.ExhaustedIsDistanceMap` | internal/investigate/vlan_blast.go:365-375 | When the queue is empty the labels are defined exactly on the reachable vertices and are the distances. |
| `Search.LabelIsDistance` | internal/investigate/vlan_blast.go:404-417 | A search that stops early has true distances as far as it got. |
| `Bfs.BFSDistances` | internal/investigate/vlan_blast.go:357-376 | The returned map is defined exactly on what the root reaches and gives the length of a shortest walk; empty for a root that is not positive. |
| `LeastPath.DiscoverLeast` | internal/investigate/vlan_blast.go:404-417 | The walk recorded for a discovered vertex is, among all shortest walks, the first in adjacency-list order. |
| `LeastPath.LeastUnique` | internal/investigate/vlan_blast.go:384-431 | There is only one such path, so equal searches give equal paths. |
| `Bfs.WalkBack` | internal/investigate/vlan_blast.go:419-430 | Following the parents to the end marker and reversing gives the recorded walk. |
| `Bfs.ReverseSlice` | internal/investigate/vlan_blast.go:427-429 | Swapping the ends inwards reverses the slice. |
| `Bfs.ShortestPath` | internal/investigate/vlan_blast.go:384-431 | The result is empty exactly when no path avoids the excluded device (or the guards refuse); otherwise it is a path without repeated devices, of minimum length, avoiding the device, and the first such in adjacency order. |
| `VlanBlast.HasPathAvoiding` | internal/investigate/vlan_blast.go:379-381 | True exactly when a walk avoiding the device exists. |
| `Layers.LayerEnds` | internal/investigate/vlan_blast.go:452-482 | A depth-limited search ends with exactly the vertices within the limit, at their distances. |
| `Downhill.WalkDownWithVLAN` | internal/investigate/vlan_blast.go:436-483 | Exactly the VLAN-carrying devices other than the start that a downhill walk of at most maxDepth edges reaches without entering the excluded device, each once, with the length of the shortest such walk. |
| `Downhill.ReachabilityNodes` | internal/investigate/topology_path.go:102-151 | Exactly the devices within the depth (32 unless a positive one is asked for, at most 10000), each once, with their distances. |
| `Topology.SearchesAgree` | internal/investigate/topology_path.go:47-58 | The distance map, the length of the shortest path and the hops of the reachability report are the same number, and are defined for the same devices. |
| `Topology.DownWalkDepth` | internal/investigate/vlan_blast.go:433-483 | With true distances every downhill edge leads exactly one step away from the root. |
| `Topology.ReportedDepth` | internal/investigate/vlan_blast.go:433-483 | The depth of a returned device is the difference of the distances, and the root is never returned. |
| `Topology.InheritedRedundancy` | internal/investigate/vlan_blast.go:673-683 | On a symmetric graph a device behind a neighbour reaches the root around Y if and only if the neighbour does. |
| `Topology.CutDeviceOnEveryWalk` | internal/investigate/vlan_blast.go:619-627 | A bypass exists if and only if some walk to the root does not visit Y. |
| `LldpAdjacency.BuildLLDPDeviceAdj` | internal/investigate/vlan_blast.go:257-295 | The built graph is symmetric, has positive ids, no self links and no duplicates, and links two devices exactly when a neighbour entry that is not stale names them; every device lists its neighbours in the order in which entries first name them. |
| `VlanBlast.RootPaths` | internal/investigate/vlan_blast.go:619-627 | The flag and the two paths of a neighbour are right: redundant iff a bypass exists, alternate path non-empty iff redundant. |
| `VlanBlast.DescendantHit` | internal/investigate/vlan_blast.go:669-701 | A descendant's flag, inherited or recomputed, equals the bypass test for that very device. |
| `VlanBlast.DescendantHits` | internal/investigate/vlan_blast.go:658-703 | Every device found behind the neighbour is reported once per VLAN and port. |
| `VlanBlast.LinkHits` | internal/investigate/vlan_blast.go:619-703 | A qualifying link yields its neighbour and everything at risk behind it. |
| `VlanBlast.AnalyzeLink` | internal/investigate/vlan_blast.go:571-704 | One link and one VLAN is reported completely, under its own port, protocol and neighbour, or has its own skip with the reason that applies; it is never reported twice. |
| `VlanBlast.AnalyzeNeighbor` | internal/investigate/vlan_blast.go:545-704 | The same for all VLANs of one neighbour, unresolved neighbours included. |
| `VlanBlast.AnalyzeVLANDeleteBlast` | internal/investigate/vlan_blast.go:486-705 | A neighbour is hit for a VLAN if and only if it is a known device other than Y, the VLAN goes over the link and the neighbour has it, and either the port is marked as downlink, or it is not marked as uplink and the neighbour is not known to be nearer to the root than Y; otherwise, and only then, the link has its own skip with the reason. The direction of a hit follows the mark, else the two distances. Flags and paths are right, everything behind a neighbour is covered, no neighbour or descendant is reported twice, and the affected devices are exactly those hit. |
| `VlanBlast.DirectionPoints` | internal/investigate/vlan_blast.go:195-233 | The direction is what the port's mark says, and without a mark up, down or peer by comparing the two distances, unknown without both; towards the core means marked uplink, or unmarked and nearer to the root, and everything else is a risk. |
| `VlanBlast.HitIffQualifies` | internal/investigate/vlan_blast.go:545-656 | No hit without the stated condition: the hit's port, protocol and neighbour single out its link. |
| `VlanBlast.SkipIffNot` | internal/investigate/vlan_blast.go:545-617 | A link has a skip exactly when the condition fails, and the skip gives the first reason: unresolved, not on the link, not on the neighbour, towards the core. |
| `VlanBlast.HitMeansBypass` | internal/investigate/vlan_blast.go:619-683 | With a known root a hit is redundant iff some walk to the root does not visit Y; the alternate path is one; without the flag Y lies on every walk. |
| `VlanBlast.HopIsDistance` | internal/investigate/vlan_blast.go:669-672 | With true distances the root is never a descendant hit; every descendant hit lies behind a qualifying neighbour that is connected to the root exactly when the device is, and its hop is then one plus the extra distance from the root. |
| `ShutBlast.SamePath` | internal/investigate/shut_blast.go:145-155 | True exactly for equal paths. |
| `ShutBlast.BelowHasPath` | internal/investigate/shut_blast.go:91-101 | Everything found below a neighbour has a path from it that avoids the switch, so the fallback search is never needed. |
| `ShutBlast.HitFor` | internal/investigate/shut_blast.go:97-117 | A downstream hit carries the shortest path from its neighbour around the switch and is redundant iff a bypass to a known root exists. |
| `ShutBlast.CutFor` | internal/investigate/shut_blast.go:78-89 | The two paths of a cut neighbour and its flag. |
| `ShutBlast.DownstreamOf` | internal/investigate/shut_blast.go:91-118 | Everything downhill behind the neighbour is reported, no device twice. |
| `ShutBlast.BuildShutBlast` | internal/investigate/shut_blast.go:54-119 | All downstream hits are right, complete and free of repetition over all neighbours; with a root the cut paths are those of exactly the resolved neighbours in order, without one there are none. |
| `ShutBlast.HopIsPathLength` | internal/investigate/shut_blast.go:97-115 | With true distances on a symmetric graph, Hop is the number of edges of the reported path. |
| `ShutBlast.CutFlagMeans` | internal/investigate/shut_blast.go:78-80 | A cut path is flagged redundant iff a bypass exists and the switch lies on the path the search picked. |
| `ShutBlast.BypassWithoutFlag` | internal/investigate/shut_blast.go:78-80 | A bypass alone does not set the flag. |
| `L2Path.CollectHops` | internal/investigate/l2path.go:254-274 | Going back over the parents gives the path backwards, each hop with the interface index and name of the first link its parent has to it, or none where that index is not positive. |
| `L2Path.ShiftPorts` | internal/investigate/l2path.go:278-285 | Every port moves from the device it leads to onto the device it leaves; the last device has none. |
| `L2Path.BfsDevicePath` | internal/investigate/l2path.go:222-287 | Succeeds exactly when the target is reachable; the hops are a shortest path without repetition, the first in link order, and each leaves by the interface index and name of its device's first link to the next one, or names none where the index is not positive. |
| `L2Path.SameAsShortestPath` | internal/investigate/l2path.go:222-287 | Without its labels it is the path `ShortestPath` finds. |
| `CycleKey.FindMinimum` | internal/investigate/loops.go:458-463 | The first position of the smallest id. |
| `CycleKey.FillBuffers` | internal/investigate/loops.go:464-470 | The two buffers are the rotation that starts at the minimum and the same rotation of the reversed list. |
| `CycleKey.CycleKey` | internal/investigate/loops.go:454-477 | The loops compute the specified key. |
| `CycleKey.RenderInjective` | internal/investigate/loops.go:471-476 | The printed form of an id list determines the list. |
| `CycleKey.LessMeans` | internal/investigate/loops.go:471-476 | One text comes before another when at the first difference it has ended or has the smaller character. |
| `CycleKey.LowRotationUnique` | internal/investigate/loops.go:454-477 | Only one rotation of distinct ids starts with the smallest. |
| `CycleKey.SameLoopSameKey` | internal/investigate/loops.go:454-477 | Rotation and reversal do not change the key. |
| `CycleKey.SameKeySameLoop` | internal/investigate/loops.go:454-477 | Equal keys come from rotations or reversed rotations of one list. |
| `CycleKey.KeyIsCanonical` | internal/investigate/loops.go:454-477 | For distinct ids keys are equal if and only if one list is a rotation or reversed rotation of the other. |
| `DfsForest.FundDistinct` | internal/investigate/loops.go:355-363 | A stack segment closed by one link repeats no device. |
| `DfsForest.FundKeysDiffer` | internal/investigate/loops.go:364-369 | Two different segments have different keys, so the seen-key test never drops a cycle. |
| `DfsSteps.Enter` | internal/investigate/loops.go:349-350 | Visiting a device keeps the search invariant: recorded stacks form a forest and finished devices are linked only to their ancestors or descendants. |
| `DfsSteps.Leave` | internal/investigate/loops.go:351-377 | Leaving a device whose neighbours are all dealt with keeps it too, and nothing it closes is missing. |
| `Loops.LoopFinder.Report` | internal/investigate/loops.go:362-372 | Appends the materialised cycle; its key was new. |
| `Loops.LoopFinder.Dfs` | internal/investigate/loops.go:347-377 | The recursive search visits everything unvisited below the device and reports exactly the cycles closed there. |
| `LoopTheorems.FundIsLoop` | internal/investigate/loops.go:355-372 | Every reported cycle is a simple closed walk of at least three devices. |
| `LoopTheorems.ReportedIffNotBridge` | internal/investigate/loops.go:334-390 | A link lies on a reported cycle if and only if it is not a bridge. |
| `Loops.LoopsAreReported` | internal/investigate/loops.go:334-390 | Every link of any loop of the graph lies on a reported cycle, so every device on any loop appears in one. |
| `Loops.EmptyIffForest` | internal/investigate/loops.go:334-390 | Nothing is reported if and only if the graph has no loop. |
| `LoopCount.ConnectedIffSameRoot` | internal/investigate/loops.go:379-388 | Two devices are connected exactly when the outer loop found them from the same start. |
| `LoopCount.ReportCount` | internal/investigate/loops.go:343-389 | The number of reported cycles is links minus devices plus connected components. |
| `Loops.IndexLinks` | internal/investigate/loops.go:335-341 | The index holds the first link of every linked pair, and only linked pairs. |
| `Loops.MaterializeCycle` | internal/investigate/loops.go:392-452 | Refuses fewer than three devices; otherwise one hop per step, read from the side it starts on. |
| `Loops.FindUndirectedCycles` | internal/investigate/loops.go:334-390 | All of the above for the whole search: simple loops, different keys, bridges and only bridges left out, the exact number, hops over the indexed links. |
| `LoopReport.BuildUndirectedFromBlast` | internal/investigate/loops.go:174-211 | The graph is symmetric and simple with ascending neighbour lists, and links two devices exactly when a usable edge joins them: positive ids, different, none offline. Every usable edge gives a link with each interface index on its own device, and the first link of a pair lies along its first usable edge. |
| `CycleReport.HopsAreReal` | internal/investigate/loops.go:392-452 | The hops of a cycle chain head to tail, each is an orientation of the pair's first link with each interface index on its own device, and both ends are online. |
| `CycleReport.DedupeCycles` | internal/investigate/loops.go:213-228 | Keeps the first cycle of every key; keeps all when keys differ. |
| `CycleReport.SortOrdered` | internal/investigate/loops.go:230-237 | Sorting puts shorter cycles first, equally long ones by text, and loses or repeats none. |
| `CycleReport.FinishReport` | internal/investigate/loops.go:64-72 | Removing duplicates, sorting and naming turn cycles of different keys into exactly the same cycles, in order, each with its right key. |
| `CycleReport.ReportInAnyOrder` | internal/investigate/loops.go:64-72 | The finished list still has every law of the search: simple loops, different keys, bridges and only bridges left out, the exact number. |
| `LoopReport.BuildCachedReport` | internal/investigate/loops.go:61-73 | The report over the cached topology: all laws of the search for the graph of usable edges, ordered, every key right. Each hop of a cycle leads from one device to the next along the first usable edge between them: it leaves by that edge's index on the first device, arrives at its index on the second (none unless positive), whichever way round the edge is stored, and carries its protocols. |
| `LoopReport.CycleDeviceIsUp` | internal/investigate/loops.go:165-185 | A device that is offline or missing from the online map is on no reported cycle. |
| `LiveLoops.BuildUndirectedLLDPGraph` | internal/investigate/loops.go:274-332 | From the neighbour entries: one link per pair of ports, in whatever order the map yields them, each from the first fresh entry with these ports, with the entry's port on the device it belongs to and none on the other; and a simple symmetric graph that links two devices exactly when such an entry between online devices joins them. |
| `LiveLoops.ParallelLinkCyclesFromEdges` | internal/investigate/loops.go:479-556 | Exactly the pairs one of which sees the other on two ports of its own, each once, with one hop for every port either sees the other on, its far port open and its protocol the first one named for the pair; the two ends of one cable do not count as two. |
| `LiveLoops.LoopOrPairKeys` | internal/investigate/loops.go:213-228 | A pair never shares its key with a loop or with another pair. |
| `LiveLoops.BuildLiveReport` | internal/investigate/loops.go:111-122 | The report over the live graph holds exactly the cycles of the search and the parallel pairs, ordered, every key right; removing duplicates removes nothing. Each hop of a cycle follows a fresh entry: the local port is on the device the entry belongs to, on either end of the hop. |
| `LiveLoops.EntryIsFresh` | internal/investigate/loops.go:274-294 | No stale entry and no offline device takes part in a cycle. |
| `LiveLoops.BuildLoopReport` | internal/investigate/loops.go:52-135 | The cached topology is used when there is one, else the live graph, else there is no report; the cycles and their hops are those of the source used, keys differ and every cycle is named right. |
| `CycleReport.KeyForIsCanonical` | internal/investigate/loops.go:262-272 | The public key, with its own form for two devices, still identifies loops exactly. |
| `CycleReport.KeyExamples` | internal/investigate/loops.go:454-477 | The text of three keys: smallest id first, the direction with the lesser text (not the lesser number), and the prefix of a pair. |
| `LoopWatch.Hub.RunOnce` | internal/loopwatch/hub.go:67-123 | One pass sees every reported cycle, remembers its key and alerts for new keys unless seeding; a failed report or a pass already running changes nothing. |
| `LoopWatch.AlertsOnce` | internal/loopwatch/hub.go:94-111 | Over any run of passes over built reports no two alerts are the same loop, whatever start and direction it was found with. |
| `LoopWatch.KnownLoopNeverAlerts` | internal/loopwatch/hub.go:94-111 | A loop reported by an earlier pass, the seed pass included, never alerts later. |
| `LoopWatch.SeedAlertsNothing` | internal/loopwatch/hub.go:105-107 | A seed pass alerts nothing. |
| `LoopWatch.LoopAlertsIffNew` | internal/loopwatch/hub.go:94-111 | A pass alerts for a reported loop if and only if it is no seed pass and no earlier pass reported that loop. |
| `Debounce.StepKeepsSane` | internal/poller/poller.go:361-432 | Over polls and restarts: a pending ONLINE confirmation counts one poll, of a device that is online and whose `offline_since` is held. |
| `Debounce.OnlineNeedsOffline` | internal/poller/poller.go:380-407 | A poll logs DEVICE_ONLINE only after an online poll of the same process and with a DEVICE_OFFLINE in the lookup window. |
| `Debounce.OnlineIsConfirmed` | internal/poller/poller.go:303-314 | In every run, restarts included and for every category, each DEVICE_ONLINE comes at the second of two consecutive online polls and ends a reported outage. |
| `Alternation.PollWhenDown` | internal/poller/poller.go:390-415 | While a reported outage is open the second of two answered polls in a row logs the ONLINE that ends it; any other poll logs nothing and leaves it open. |
| `Alternation.PollWhenUp` | internal/poller/poller.go:417-431 | While none is open a poll logs nothing or the OFFLINE that opens one. |
| `Alternation.PollKeepsLifetime` | internal/poller/poller.go:361-432 | With more than 15 s between polls each poll keeps the lifetime invariant. |
| `Alternation.LifetimeAlternates` | internal/poller/poller.go:352-432 | Over one process lifetime and every sequence of poll results the events alternate, starting with OFFLINE unless a reported outage was open. |
| `Outages.AlternationIffGap` | internal/poller/poller.go:352-432 | Events alternate for every category and every run from a fresh start if and only if polls are more than 15 s apart. |
| `Outages.FlapBreaks` | internal/poller/poller.go:380-398 | A run with 15 s between polls whose events do not alternate. |
| `Outages.OutageReportedOnce` | internal/poller/poller.go:409-426 | Unanswered polls after an answered one log exactly one OFFLINE: at the third for soft and low categories, for the others at the second, or at the first when the ping has just stopped; none when they continue an outage already reported. |
| `Outages.CatchUpExact` | internal/poller/poller.go:318-323 | The first poll after a restart logs OFFLINE if and only if the outage has lasted three minutes and two poll intervals and is not yet reported, whether the device answers or not. |
| `Outages.RestartCanRepeatOffline` | internal/poller/poller.go:417-426 | A restart during the ONLINE confirmation can repeat OFFLINE. |
| `Restarts.RestartKeepsLifetime` | cmd/netlynxd/main.go:81-83 | A restart at any moment between polls keeps what alternation needs, unless an ONLINE awaits its confirmation. |
| `Restarts.RestartBreaks` | internal/poller/poller.go:417-426 | From every state in which an ONLINE awaits its confirmation, a restart and enough unanswered polls log OFFLINE twice in a row. |
| `Restarts.AlternationIffSafeRestarts` | internal/poller/poller.go:352-432 | For every run of polls more than 15 s apart and restarts at any time: the events alternate at every moment, whatever later polls answer, if and only if no restart hits a pending confirmation. |
| `Restarts.OutageGoesOn` | internal/poller/poller.go:409-431 | A step of an outage keeps it unreported or reported once; after a restart exactly a poll at or past the threshold reports it. |
| `Restarts.OutageAcrossRestarts` | internal/poller/poller.go:318-323 | An outage with any number of restarts in it is reported at most once, and is reported if and only if it was before the restart or a later poll, answered or not, comes at or past the threshold. |
| `Recovery.AnsweredPoll` | internal/poller/poller.go:380-407 | What an answered poll logs, exactly: ONLINE when the device was online and its outage is reported, OFFLINE when it was offline unreported for three minutes and two intervals without a running count, else nothing; and when it waits for a second answer. |
| `Recovery.UnansweredPoll` | internal/poller/poller.go:409-431 | What an unanswered poll logs, exactly: OFFLINE when it completes the count of the category, when the ping has just stopped, or when the outage is overdue; nothing else, and nothing while a reported outage is being confirmed over. |
| `Recovery.SecondAnswerEnds` | internal/poller/poller.go:390-400 | Two answered polls after a reported outage log exactly one ONLINE, at the second. |
| `Recovery.UnnoticedEnds` | internal/poller/poller.go:380-400 | Two answered polls after an overdue unreported outage log OFFLINE at the first and ONLINE at the second. |
| `Recovery.OutageEndsAtPair` | internal/poller/poller.go:352-407 | In every run of polls more than 15 s apart and restarts outside confirmations, an open reported outage ends with ONLINE at the second of the first two consecutive answered polls, and nothing is logged before that. |
| `Recovery.ForgottenOutage` | cmd/netlynxd/main.go:81-83 | A restart during the confirmation forgets the outage: answered polls from then on log nothing. |
| `Poller.Engine.EmitDeviceOffline` | internal/poller/poller.go:443-460 | Sets `offline_since` first, then logs the event. |
| `Poller.Engine.NoteOfflinePoll` | internal/poller/poller.go:462-478 | The offline streak starts at one from online, else goes on. |
| `Poller.Engine.NoteOnlinePoll` | internal/poller/poller.go:498-507 | The online streak counts on. |
| `Poller.Engine.EmitOnlineTransition` | internal/poller/poller.go:380-407 | The engine's steps for an answered poll are the device's transition, and no other device changes. |
| `Poller.Engine.EmitOfflineTransition` | internal/poller/poller.go:409-431 | The same for an unanswered poll. |
| `Poller.Engine.RefreshOfflineSince` | internal/store/store.go:493-506 | Clears the column for an online device, sets it if null for an offline one. |
| `Poller.Engine.PollDevice` | internal/poller/poller.go:881-903 | A whole poll of one device, maps and store included, is one step of its state machine and leaves every other device alone. |
| `Poller.Engine.RefreshAllOfflineSince` | internal/store/store.go:508-531 | The loop over all rows refreshes every device, each at its own time, and touches nothing else. |
| `Poller.StartUp` | cmd/netlynxd/main.go:81-83 | A new engine over the kept store, refreshed: every device has made exactly one restart step. |
| `EmailBatch.UpsertHas` | internal/notify/hook.go:321-330 | After inserting, a list holds the new card and every card of other devices. |
| `EmailFates.EnqueueKeeps` | internal/notify/hook.go:293-331 | Accepting a card, with cancelling and overwriting, keeps batches and fates in step. |
| `EmailFates.RunTimerKeeps` | internal/notify/hook.go:340-359 | A timer's function, stale or not, keeps them in step, and no batch is left with a timer that has run. |
| `EmailFates.StopAllKeeps` | internal/notify/hook.go:376-385 | Stopping timers, in time or too late, keeps them in step. |
| `EmailRuns.RunIsRight` | internal/notify/hook.go:293-374 | In every interleaving every batch in the map is non-empty, has one card per device and a timer that has not run; batches hold exactly the pending cards and firings exactly the taken ones. |
| `EmailRuns.EachCardOnce` | internal/notify/hook.go:293-374 | Each card is exactly one of pending (once, in the batch of its kind), taken (once, in one firing), overwritten by a newer card of its kind and device, or, if it is an OFFLINE card, cancelled by a newer ONLINE card of its device after an outage of at most 25 s. |
| `EmailRuns.AcceptedCard` | internal/notify/hook.go:293-338 | In every run, accepting an ONLINE card after an outage of at most 25 s cancels every pending OFFLINE card of that device; after a longer one it cancels nothing; a pending card of the same kind and device is overwritten and no other card is touched. |
| `EmailRuns.CancelledByShortOutage` | internal/notify/hook.go:333-338 | A cancelled card is an OFFLINE card, and what cancelled it an ONLINE card of its device after an outage of at most 25 s. |
| `EmailRuns.AcceptedTimer` | internal/notify/hook.go:293-347 | The first card of a batch arms its timer, later ones and cancellations leave it alone; a new device's card brings its settings, a replacing one keeps those of the batch. |
| `EmailRuns.FatesAreFinal` | internal/notify/hook.go:293-374 | A card that was taken, overwritten or cancelled stays so. |
| `EventHook.EventHook.CancelPendingOffline` | internal/notify/hook.go:304-319 | The in-place filter removes the device's OFFLINE card and drops an empty batch. |
| `EventHook.EventHook.Replace` | internal/notify/hook.go:322-328 | The device's card is replaced where it stands. |
| `EventHook.EventHook.EnqueueEmailBatch` | internal/notify/hook.go:293-331 | The critical section computes the specified new map and timers. |
| `EventHook.EventHook.TakeBatch` | internal/notify/hook.go:349-359 | Whatever batch of the kind is in the map is taken whole, if any. |
| `EventHook.EventHook.StopTimers` | internal/notify/hook.go:376-385 | The first loop of the flush stops the timer of every batch, save those it is too late for, and lists exactly the kinds in the map. |
| `EventHook.EventHook.FlushEmailBatches` | internal/notify/hook.go:376-389 | The flush stops all timers and then takes the batches of the listed kinds one by one. |
| `EventHook.TakeAllEmpties` | internal/notify/hook.go:386-388 | Undisturbed it leaves no batch behind, and each becomes one firing with its items. |
| `Shutdown.StepKeepsOrderly` | internal/notify/hook.go:62-117 | Every move keeps the shutdown invariant: no dispatcher after the first wait, only listed batches during the flush, no batch after it. |
| `Shutdown.ClosedLeavesNothingPending` | internal/notify/hook.go:62-76 | When the hook is closed every accepted card was taken, overwritten or cancelled. |
| `Shutdown.AfterClosed` | internal/notify/hook.go:98-117 | After closing nothing is dispatched or registered any more and no fate changes. |
| `Shutdown.LostIffInBetween` | internal/notify/hook.go:349-374 | However long the run goes on, a card is neither handed to the sender nor superseded if and only if its batch was between taking and registering at the moment of closing. |
| `Shutdown.PromptLosesNothing` | internal/notify/hook.go:349-374 | With taking and registering joined every accepted card is handed over or superseded. |
| `Shutdown.TakenBatchCanBeLost` | internal/notify/hook.go:349-374 | A run in which a card is lost. |
| `MacMoves.NormalizeIfMap` | internal/poller/mac_moves.go:63-73 | Every address that is not blank is kept under its trimmed lower-case form, and nothing else. |
| `MacMoves.NormalIffSameSpelling` | internal/poller/mac_moves.go:66 | Two addresses share a key if and only if they differ only in the case of letters and in blanks around them. |
| `MacMoves.ComputeMacFdbMoves` | internal/poller/mac_moves.go:12-61 | Exactly one move per changed MAC with a positive port, with its old and new port. |
| `MacMoves.PatchGivesCurrent` | internal/poller/mac_moves.go:25-46 | Replaying the moves on the old table gives the new one if and only if every changed MAC has a positive deciding port. |
| `MacMoves.InversePatchGivesPrevious` | internal/poller/mac_moves.go:25-59 | Replaying the inverse moves takes the new table back, under the same condition. |
| `MacMoves.MovesPatch` | internal/poller/mac_moves.go:12-61 | For tables already normalised: the moves patch the old table to the new one and their inverses back, exactly when every change shows a positive port. |
| `MacMoves.PositiveTablesPatch` | internal/poller/mac_moves.go:12-61 | For tables with positive ports only the moves always patch, in both directions. |
| `MacMoves.ZeroPortIsMissed` | internal/poller/mac_moves.go:25-28 | A MAC that changes to port 0 is in no move, so every replay misses it. |
| `AccessEvents.ComputeFdbAccessEvents` | internal/poller/fdb_access_events.go:37-127 | Exactly one incident per change of the access view that the rules do not keep quiet, of the right kind and ports; the rules are written out. |
| `AccessEvents.FamiliarIsNotUnknown` | internal/poller/fdb_access_events.go:46-54 | A MAC of the inventory or known on its port never causes UNKNOWN_MAC. |
| `AccessEvents.PatchedView` | internal/poller/fdb_access_events.go:57-125 | Per address the patched view is the current one unless its change was kept quiet. |
| `AccessEvents.IncidentsPatchAccessTable` | internal/poller/fdb_access_events.go:37-127 | Patching the old access table gives the new one if and only if nothing was kept quiet. |
| `AccessEvents.PlainAddressesArePatched` | internal/poller/fdb_access_events.go:46-54 | For an address neither inventory nor known, coming from a port with an ordinary role, the patch is always right. |
| `AccessEvents.InventoryDepartureIsMissed` | internal/poller/fdb_access_events.go:104-113 | An inventory MAC that leaves its access port stays in the patched table. |
| `AccessEvents.KnownArrivalIsMissed` | internal/poller/fdb_access_events.go:63-67 | A bound MAC that appears on its port is missing from the patched table. |
| `Addresses.IncIP` | internal/netutil/scan_targets.go:98-105 | The in-place carry loop computes the successor. |
| `Addresses.IncIsModular` | internal/netutil/scan_targets.go:98-105 | The successor is plus one modulo the number of addresses of that length. |
| `CidrBlocks.LeavesAtEnd` | internal/netutil/scan_targets.go:53-58 | Stepping leaves the block exactly at its end, even where the last step wraps around; only the block of all addresses is never left. |
| `CidrBlocks.ExpandCidr` | internal/netutil/scan_targets.go:49-65 | The loop ends for every block and offers exactly its hosts in order. |
| `ScanTargets.AddAllMeans` | internal/netutil/scan_targets.go:19-41 | Adding succeeds iff all targets are permitted addresses and at most 256 differ, and then gives each once in order of first appearance; permitted addresses alone can only be too many. |
| `ScanTargets.AddAllFails` | internal/netutil/scan_targets.go:19-41 | The error is that of the first target that is malformed, refused or the 257th different one. |
| `ScanExpansion.ExpandScanTargets` | internal/netutil/scan_targets.go:15-83 | The whole expansion: block, then host list, first problem wins, nothing at all is an error. |
| `ScanExpansion.ExpansionMeans` | internal/netutil/scan_targets.go:15-83 | Succeeds iff the block is readable, there is a target, all are permitted and at most 256 differ; the result is exactly the set of targets without repetition. |
| `ScanExpansion.BlockHolds` | internal/netutil/scan_targets.go:51-61 | The hosts of a block are the addresses with its leading bits, without the lowest and highest from two host bits on. |
| `ScanExpansion.BlockAlone` | internal/netutil/scan_targets.go:49-65 | A block with h host bits and permitted hosts gives 2^h - 2 distinct ascending hosts (2^h for h below 2), and the too-many error iff that exceeds 256. |
| `ScanExpansion.LargestBlock` | internal/netutil/scan_targets.go:10 | Eight host bits (a /24) give 254 hosts, nine (a /23) are too many. |

## Left out

- Names, hosts, VLAN names, summaries and warnings in all results; they do not influence which devices are reported.
- `Downhill.ReachabilityNodes`: the final sort by hop and id and the distance-from-root column are not modelled.
- `LiveLoops.BuildLoopReport`: reading the protocol parameter and the store are inputs; node and edge counts and the source label are not modelled.
- `LiveLoops.ParallelLinkCyclesFromEdges`: the order of the hops of a pair and port names are not modelled.
- `VlanBlast.AnalyzeVLANDeleteBlast`: the sorting of hits, and the FDB clients, management risks and gateways derived from them, are not modelled; the text overrides of a port are already read into three values.
- `ShutBlast.BuildShutBlast`: the warnings built from the result are not modelled.
- `LoopWatch.Hub.RunOnce`: the `busy` guard is read as a pass that does nothing; expiring stale neighbours and delivering the alert are left out.
- `Debounce.StepKeepsSane`: failed store calls, devices without a host and manual changes of the online state between polls are not modelled.
- `Poller.Engine.PollDevice`: the rest of a poll (SNMP, ports, UPS and toner alerts) is not modelled; its outcome is an input.
- `EmailBatch.UpsertHas`: card texts and the notification settings of a batch beyond being carried along are not modelled.
- `Shutdown.LostIffInBetween`: a wait that times out is not modelled; webhook and Telegram messages and immediate e-mails count only as dispatcher work.
- `MacMoves.NormalizeIfMap`: only ASCII letters and white space are folded and trimmed.
- `MacMoves.ComputeMacFdbMoves`: VLAN, time and source labels of a move are not modelled.
- `AccessEvents.ComputeFdbAccessEvents`: how a port gets its role and what makes a MAC unicast are inputs.
- `ScanExpansion.ExpandScanTargets`: parsing and printing addresses and the final string sort are not modelled, nor are IPv4-mapped IPv6 blocks.
- Choosing the topology root, the HTTP layer, the store, the pollers' device protocols, configuration backup, secrets and the user interface.
