# Verification of the iTETRIS platform's core algorithms

The repository bundles a traffic simulator (SUMO), a network simulator (ns-3) and the control system that couples
them (iCS). This project models the algorithms in it whose claims range over every input, every graph or every run,
in one or more Dafny modules each, and proves what they promise. Where the code does not keep a promise for all inputs,
there is a concrete input that breaks it and a theorem about when it is kept; the paragraphs below say how far that
theorem goes.

Verify everything with `dafny verify dfyconfig.toml`.

## Modules

**TlsCoordinator** (`tlsCoordinator.py`). Pairs of traffic lights are taken in order and grouped into coordinated sets
by opening, extending, half-coordinating or merging sets; then each set is re-sorted and one offset per light is read
off. The sets are shown to be the connected components of the graph of processed pairs, whatever the order and the
green offsets. Each set carries one potential through all shifts and merges, and the stable re-sort never lets a pair
be the first to name a light whose offset it did not fix. The offset equation of line 285 holds for every pair that
closes no cycle, except exactly those that have a non-zero `ogreen` and are placed behind a first end: line 104
subtracts where line 110 adds. Whether a light is at a first end depends on the earlier pairs only: it is iff the
first pair that names it does so as `otl` and no pair with that `tl` has merged two sets.

**TestRunner** (`test.py`). Worker threads, two queues, dispatcher, break markers, collector and the interrupt flag,
as interleaved steps. A worker that takes a job to be skipped leaves as well (line 854), so without an interrupt
exactly the jobs up to the P-th skipped one come back, under every interleaving; the collector ends iff no job follows
that one, and all joins return in any case. The smallest run in which it waits for ever is given.

**TypePaths** (`print-introspected-doxygen.cc`). The recursive search over attributes, children and aggregates with
its two stacks lists exactly the simple paths. The edges are exactly those that attributes, children and aggregations
give, and the labels are such that, when no attribute name holds a colon, no `::` in the output is without the `%`
that keeps doxygen from resolving it.

**CamAreas**, **CamSenders**, **CamSync** (`sync-manager.cpp`, `subs-set-cam-area.cpp`). One step of the protocol that
tells the network simulator which stations send awareness messages: the lists of the areas, the general vector of
senders, the stop and start commands; new subscriptions, arrivals and departures. The simulator's senders stay equal
to the vector as long as its commands take effect. The reply to the stop command is not looked at (line 1764): what
happens when it fails is stated exactly. The comment at line 1797 says that rows of departed stations are deleted from
the vector; the code only skips them, so they stay and keep contributing to the maxima of the start command. The model
follows the code. So the stations that send after a step are exactly the present ones inside some area iff no row
before it was that of a departed station. The senders after a step are what the commands make of the senders before it
when they are carried out one by one in the order in which they were sent, by whether the simulator does so.

**ScheduledTables** (`sync-manager.cpp`). The tables of scheduled messages: one row for each message, suppression of
duplicates, expiry after a window, and a size bound for runs of any length. The three kinds of message share one
class; unicast rows are for the next step, topo- and geobroadcast rows for the current one. A row is inserted before
its command is sent, so a message whose command is refused is not sent again, in that step or later, unless it arrives
all the same or the window keeps no row of the step being scheduled (W + lead <= 0, as with the window of -1 before it
is configured).

**NodeIds** (`itetris-node.cpp`, `fixed-node.cpp`, `vehicle-node.cpp`, `tmc-node.cpp`). The shared counter and the set
of requested ids. All ids are distinct iff every requested one was new at its time; nothing in the code checks that.
Without requests each vehicle gets its number among the nodes; otherwise exactly requested numbers are passed over.

**BidiDistricts** (`generateBidiDistricts.py`). The travel-distance search, and the cache of opposite edges whose sets
are shared by reference and grow while later look-ups read them. The result is shown to be that of a pure relation,
independent of edge order and of the cache. With first-seen distances and a last-in-first-out worklist, the search
does not find every edge within reach (an example, which is a road network, is given). It does when all walks by which
it may come to the same edge agree on whether they are below the limit there; this includes limits above the total
length. For road networks, where the neighbours of an edge are the lists of its two end nodes, a weaker condition for
each end suffices. Both conditions are sufficient only: three roads are given on which the first one fails and
everything is found in every order. The first one is also necessary when each edge has a neighbour list of its own, in
any order and with a dead end anywhere, which a road network need not have. Exactly when the search finds everything
on a road network is not characterised. The help text of the `--symmetrical` option (line 39) promises a symmetrical
relation; exactly when it is one is proved, with an example where it is not.

**ShellPipeline** (`shellcmd.py`). A token state machine produces a flat list of commands and operators, and an
interpreter runs it with pipes, `&&`, `||`, `cd` and redirections. Both are related to command trees: parsing the
spelling of a tree gives its list, and running the list gives the tree's exit code and processes. The code of a pipe
is its last command's, as section 2.9.2 of the Shell Command Language of POSIX.1-2017 asks. But `&&` and `||` group to
the right: where an operator ends the run, nothing behind it is looked at, while the lists of section 2.9.3 are
left-associative and an operator that passes a pipe over hands the status on. Behind a pipe a redirected input of the
command itself is ignored, and a `cd` inside a pipe changes the directory of what follows. A second evaluator reads
lists as the standard does; the processes are the same iff none of these three cases is met, and then so is the exit
code. `false && a || b` is the example. A `cd` without a directory or without `&&` behind it is accepted by the parser
and raises exactly when the run reaches it. Arguments and redirections behind a program are read in any order, exactly
when no stream is redirected twice; and the files that are closed are those of the processes started, process by
process.

**PatchSet** (`check-style.py`). Reader and writer of unified differences, on objects that are updated in place; the
round trip holds iff no removed line begins with `-- ` and no added line with `++ `. What the removed line `-- x`
comes back as is given. Text behind a header, as diff tools print it, changes nothing; which line sets are accepted at
all is stated exactly.

**RandomEdges** (`randomTrips.py`) and **Timeline** (`grid.py`). Drawing by cumulative weights, and looking up the
ranges that meet an interval. Each option is shown to be a factor of the weight under its condition.

**Wrappers** holds the option and result types that the others share.
## Model

| member | source | states |
|---|---|---|
| `TlsCoordinator.Coordinate` | sumo-0.30.0/tools/tlsCoordinator.py:138-224 | For pairs in descending key order: the offset map covers exactly the lights of the pairs; each operation, with the end at which the light is located, follows from the earlier pairs alone; every pair that closes no cycle gets the intended equation (line 285) if and only if not (its `otl` is known and at a first end by the earlier pairs, and its `ogreen` is not 0); two lights share a set iff a path of pairs joins them |
| `TlsCoordinator.CoordinateGreenAtZero` | sumo-0.30.0/tools/tlsCoordinator.py:138-224 | With green offsets 0 every pair that closes no cycle ends with offset(tl) = offset(otl) + travel time |
| `TlsCoordinator.PlacerEnd` | sumo-0.30.0/tools/tlsCoordinator.py:91-96 | A light is at a first end iff the first pair that names it does so as `otl` and no earlier pair with that `tl` merged two sets |
| `TlsCoordinator.LocatedEvidence` | sumo-0.30.0/tools/tlsCoordinator.py:85-97 | The end at which a light is located is the one the earlier pairs determine |
| `TlsCoordinator.PlacersExtend` | sumo-0.30.0/tools/tlsCoordinator.py:153-169 | Placing a pair keeps, for every light of a set, which pair is the first of the set to name it |
| `TlsCoordinator.PlacersMerge` | sumo-0.30.0/tools/tlsCoordinator.py:170-189 | A merge puts the placed pair in front of all others that name its `tl`, and changes no other first naming |
| `TlsCoordinator.GreenOffsetExample` | sumo-0.30.0/tools/tlsCoordinator.py:103-108 | A concrete input on which the sign of `ogreen` in line 104 breaks the intended equation |
| `TlsCoordinator.ComputePairOffsets` | sumo-0.30.0/tools/tlsCoordinator.py:138-196 | After all pairs: the sets hold each pair once, share no light, are the components, carry one potential each; there are c1 - c5 of them, and the counters count the operations; no order of the pairs and no green offset is assumed |
| `TlsCoordinator.TalliesCount` | sumo-0.30.0/tools/tlsCoordinator.py:138-196 | Each counter is the number of pairs with that operation |
| `TlsCoordinator.AddPair` | sumo-0.30.0/tools/tlsCoordinator.py:142-189 | One turn of the loop keeps all of that and names the operation the component graph prescribes |
| `TlsCoordinator.HalfIsPlaced` | sumo-0.30.0/tools/tlsCoordinator.py:164-169 | A pair that closes a cycle is placed behind the offset of its `otl` |
| `TlsCoordinator.SetsAreComponents` | sumo-0.30.0/tools/tlsCoordinator.py:138-196 | Two lights are in one set iff they are connected in the graph of processed pairs |
| `TlsCoordinator.ValueIsIdentity` | sumo-0.30.0/tools/tlsCoordinator.py:164-164 | Two sets that are equal as values are the same set, so the comparison by value acts as identity |
| `TlsCoordinator.MergeRemovesIt` | sumo-0.30.0/tools/tlsCoordinator.py:199-202 | Removing by value after a merge removes the set that was merged away and no earlier one |
| `TlsCoordinator.Merge` | sumo-0.30.0/tools/tlsCoordinator.py:199-202 | The shifted pairs are appended to the first set and the first set equal to the second is removed |
| `TlsCoordinator.MergeInto` | sumo-0.30.0/tools/tlsCoordinator.py:171-189 | The whole merge branch: the pair is placed, the second set follows it shifted, one set fewer remains |
| `TlsCoordinator.Locate` | sumo-0.30.0/tools/tlsCoordinator.py:85-97 | The result is the first place, in set and list order, that names the light, with the end; or nothing when no set names it |
| `TlsCoordinator.PlaceAfter` | sumo-0.30.0/tools/tlsCoordinator.py:100-116 | The placed pair gives `tl` the offset travel time minus green behind the located light, plus `ogreen` behind a second end and minus it behind a first end |
| `TlsCoordinator.PlaceBefore` | sumo-0.30.0/tools/tlsCoordinator.py:119-135 | The placed pair gives `otl` the offset that makes the intended equation hold, at both ends |
| `TlsCoordinator.StructureNew` | sumo-0.30.0/tools/tlsCoordinator.py:146-152 | Opening a set keeps the sets a partition of the processed pairs into components |
| `TlsCoordinator.StructureExtend` | sumo-0.30.0/tools/tlsCoordinator.py:153-169 | Placing a pair behind, before or into one set keeps the partition |
| `TlsCoordinator.StructureMerge` | sumo-0.30.0/tools/tlsCoordinator.py:170-189 | Merging two sets keeps the partition |
| `TlsCoordinator.PotentialNew` | sumo-0.30.0/tools/tlsCoordinator.py:146-152 | A new set gets its own potential; the others keep theirs |
| `TlsCoordinator.PotentialExtend` | sumo-0.30.0/tools/tlsCoordinator.py:153-169 | A placed pair extends the potential of its set |
| `TlsCoordinator.PotentialMerge` | sumo-0.30.0/tools/tlsCoordinator.py:180-189 | After the shift by `dt` the merged set carries one potential |
| `TlsCoordinator.FirstNamingFixes` | sumo-0.30.0/tools/tlsCoordinator.py:85-97 | The first pair of a set that names a light is the one that gave it its potential |
| `TlsCoordinator.LocatedOffset` | sumo-0.30.0/tools/tlsCoordinator.py:91-96 | The offset read at the located place is the potential of the light |
| `TlsCoordinator.LightsCovered` | sumo-0.30.0/tools/tlsCoordinator.py:142-144 | A light is in some set iff some processed pair names it |
| `TlsCoordinator.SortSet` | sumo-0.30.0/tools/tlsCoordinator.py:208-209 | The result is the stable descending sort: a permutation with equal keys in their old order |
| `TlsCoordinator.KeyExactly` | sumo-0.30.0/tools/tlsCoordinator.py:208-209 | The sort key: by priority, then by vehicles per travel time, stated without division |
| `TlsCoordinator.FinalizeOffsets` | sumo-0.30.0/tools/tlsCoordinator.py:205-224 | Every set is stably sorted and the map records, set after set, the first offset given to each light |
| `TlsCoordinator.SortedTrusted` | sumo-0.30.0/tools/tlsCoordinator.py:208-223 | After the stable sort no pair is the first to name a light whose offset it did not fix |
| `TlsCoordinator.RecordSetsPhi` | sumo-0.30.0/tools/tlsCoordinator.py:210-223 | If every pair is trusted in that way the recorded map is the potential |
| `TlsCoordinator.OffsetsArePotential` | sumo-0.30.0/tools/tlsCoordinator.py:205-224 | The recorded offsets are the potential on exactly the lights of the processed pairs |
| `TlsCoordinator.PairEquation` | sumo-0.30.0/tools/tlsCoordinator.py:284-289 | In terms of the potential each pair that closes no cycle meets the equation with the green offset the code really uses |
| `TestRunner.RunInv` | ns-3.7/test.py:827-890 | An invariant of queues, workers and collected jobs in every reachable state of every interleaving |
| `TestRunner.OnePlace` | ns-3.7/test.py:827-890 | In every reachable state each job is in exactly one place: undispatched, input queue, one worker, output queue or collected |
| `TestRunner.StepProgress` | ns-3.7/test.py:827-890 | Every step of every thread lowers a measure |
| `TestRunner.RunsAreBounded` | ns-3.7/test.py:1225-1245 | No run, interrupted or not, has more than 5 steps for each dispatched entry and one interrupt |
| `TestRunner.AllWorkersLeave` | ns-3.7/test.py:1386-1387 | When nothing more can happen all workers have left, so every join returns |
| `TestRunner.ServedUnique` | ns-3.7/test.py:850-854 | Characterises the number of jobs that come back: the unique count at which the workers are used up |
| `TestRunner.ServedIsLeast` | ns-3.7/test.py:850-854 | That count ends with the P-th skipped job, or is all jobs when there are fewer than P |
| `TestRunner.ServedAllIff` | ns-3.7/test.py:1244-1245 | All jobs come back iff no job stands behind the P-th skipped one |
| `TestRunner.UninterruptedOutcome` | ns-3.7/test.py:827-890 | In every uninterrupted run, under every interleaving, exactly the jobs up to and including the P-th skipped one come back, each once; the collector finishes iff no job follows that one |
| `TestRunner.CollectorFinishes` | ns-3.7/test.py:1244-1247 | When no job stands behind the last worker every run, also an interrupted one, ends with all jobs collected |
| `TestRunner.CollectorWaitsForever` | ns-3.7/test.py:844-854 | One worker, a job to skip and one behind it: a concrete run after which nothing can happen and the collector still waits |
| `TestRunner.CollectedOnce` | ns-3.7/test.py:1244-1247 | A finished collector has each job once and nothing is left in the output queue or with a worker |
| `TestRunner.ReportedGrows` | ns-3.7/test.py:838-890 | Jobs are collected in the order in which they were reported, in every run |
| `TestRunner.CollectsLast` | ns-3.7/test.py:1218-1245 | Nothing is collected before all jobs and break markers have been dispatched |
| `TestRunner.ThrownBack` | ns-3.7/test.py:844-854 | Behind an interrupt every job a worker looks at, also one to be skipped, is thrown back and the worker stays |
| `TestRunner.Summarize` | ns-3.7/test.py:1240-1269 | The counters are the numbers of results with each status, stated by code, skip and break; they add up with the interrupted jobs to the total, and the exit code (1426-1429) is 0 iff every job was skipped or returned 0 and none was interrupted |
| `TestRunner.TallySum` | ns-3.7/test.py:1254-1269 | The six statuses partition the results |
| `TestRunner.TalliesAre` | ns-3.7/test.py:1249-1269 | The counters are the numbers of results that are neither thrown back nor skipped and have code 0, 1, 2 or another one, and of those that are skipped |
| `TestRunner.CollectorSummary` | ns-3.7/test.py:1240-1269 | For a finished collector of any run: the counters with the interrupted jobs add up to all jobs; passed and skipped are all jobs (exit code 0, 1426-1429) iff every job was collected as skipped or with code 0; without an interrupt none was thrown back |
| `TestRunner.RunAccounted` | ns-3.7/test.py:841-890 | Every reported or collected job was thrown back after an interrupt, skipped, or run with the code it carries |
| `TypePaths.FindAndReplace` | ns-3.7/utils/print-introspected-doxygen.cc:251-261 | The in-place loop terminates on every string and equals left-to-right non-overlapping replacement of "::" by "::%" |
| `TypePaths.Find` | ns-3.7/utils/print-introspected-doxygen.cc:255-259 | The next occurrence at or after a position, or the end |
| `TypePaths.EscapedRoundTrip` | ns-3.7/utils/print-introspected-doxygen.cc:251-261 | Deleting every "%" from the result restores an input that had none |
| `TypePaths.EscapedEverywhere` | ns-3.7/utils/print-introspected-doxygen.cc:229-241 | In the result every "::" is followed by "%" |
| `TypePaths.GatheredSound` | ns-3.7/utils/print-introspected-doxygen.cc:164-249 | Whatever the search appends is the label string of a path that repeats no type and avoids the stack |
| `TypePaths.GatheredComplete` | ns-3.7/utils/print-introspected-doxygen.cc:164-249 | Every such path is appended |
| `TypePaths.ListsSimplePaths` | ns-3.7/utils/print-introspected-doxygen.cc:164-249 | (type, path) is gathered from a root iff path is the label string of a path from the root to the type that repeats no type |
| `TypePaths.EdgesStayRegistered` | ns-3.7/utils/print-introspected-doxygen.cc:173-248 | Attribute, child and aggregate edges lead to registered types |
| `TypePaths.EdgesExactly` | ns-3.7/utils/print-introspected-doxygen.cc:164-251 | An edge is followed iff it is a pointer or an object vector among the attributes, leads to a registered child, or to the other end of an aggregation, with the label each of these has |
| `TypePaths.TypeLabel` | ns-3.7/utils/print-introspected-doxygen.cc:206-208 | The label of a child or aggregate begins with "$%", has a "%" behind each "::", and without its "%" is "$" and the name of the type |
| `TypePaths.ListedMarked` | ns-3.7/utils/print-introspected-doxygen.cc:228-242 | When no attribute name holds a colon, every "::" in a listed path is followed by "%" |
| `TypePaths.RenderJoin` | ns-3.7/utils/print-introspected-doxygen.cc:109-119 | The path of labels one behind the other is the path of the first ones and that of the others |
| `TypePaths.StaticInformation.DoGather` | ns-3.7/utils/print-introspected-doxygen.cc:164-249 | The recursive search terminates, restores both stacks and appends exactly what the specification gathers |
| `TypePaths.StaticInformation.Follow` | ns-3.7/utils/print-introspected-doxygen.cc:180-184 | One pushed, searched and popped edge |
| `TypePaths.StaticInformation.GatherAttributes` | ns-3.7/utils/print-introspected-doxygen.cc:173-199 | The loop over pointer and vector attributes appends what their edges give, in order |
| `TypePaths.StaticInformation.GatherChildren` | ns-3.7/utils/print-introspected-doxygen.cc:200-214 | The loop over registered children, with escaped names |
| `TypePaths.StaticInformation.GatherAggregates` | ns-3.7/utils/print-introspected-doxygen.cc:215-248 | The loop over aggregates in both directions; for a type aggregated with itself the last assignment wins |
| `TypePaths.StaticInformation.Gather` | ns-3.7/utils/print-introspected-doxygen.cc:155-162 | The output is sorted and free of duplicates and is the union of the old output and what the root gives |
| `TypePaths.StaticInformation.GatherAll` | ns-3.7/utils/print-introspected-doxygen.cc:276-280 | After all roots the output is strictly sorted and lists exactly the simple paths over the edges of the type system; when no attribute name holds a colon every "::" in it is followed by "%" |
| `TypePaths.StaticInformation.GetCurrentPath` | ns-3.7/utils/print-introspected-doxygen.cc:109-119 | The labels of the stack, each behind a slash |
| `TypePaths.StaticInformation.HasAlreadyBeenProcessed` | ns-3.7/utils/print-introspected-doxygen.cc:127-138 | True iff the type is on the stack |
| `TypePaths.StaticInformation.RecordAggregationInfo` | ns-3.7/utils/print-introspected-doxygen.cc:93-97 | Appends one aggregation |
| `TypePaths.Sort` | ns-3.7/utils/print-introspected-doxygen.cc:160-160 | Sorted, with the same members |
| `TypePaths.Unique` | ns-3.7/utils/print-introspected-doxygen.cc:161-161 | From a sorted list: strictly sorted, with the same members |
| `TypePaths.ItemOrder` | ns-3.7/utils/print-introspected-doxygen.cc:160-161 | Pairs of type and path are totally ordered |
| `TypePaths.StringLessExactly` | ns-3.7/utils/print-introspected-doxygen.cc:160-161 | Strings are compared at their first difference |
| `CamAreas.LookUpSucceeds` | iCS/src/ics/sync-manager.cpp:1663-1668 | With registered subscriptions the search for the subscription of an area finds it, and it is one that sets an area, so the cast is right |
| `CamAreas.LookUpFirst` | iCS/src/ics/sync-manager.cpp:1663-1668 | The search yields the first subscription of the id |
| `CamSync.FindSubscription` | iCS/src/ics/sync-manager.cpp:1663-1668 | The loop yields the first match, the last subscription when there is no match, none when there are none |
| `CamAreas.Subscription.CheckNodeStatus` | iCS/src/ics/applications_manager/subs-set-cam-area.cpp:300-316 | The four cases of (was in the list, is inside now) |
| `CamAreas.Subscription.AddNodeToVector` | iCS/src/ics/applications_manager/subs-set-cam-area.cpp:251-264 | Appended unless present |
| `CamAreas.Subscription.RemoveNodeFromVector` | iCS/src/ics/applications_manager/subs-set-cam-area.cpp:238-249 | The first occurrence is removed |
| `CamAreas.SettleMembers` | iCS/src/ics/applications_manager/subs-set-cam-area.cpp:238-264 | After either, the list has no duplicates and holds the node iff it is inside, and the others as before |
| `CamSync.SyncManager.VisitArea` | iCS/src/ics/sync-manager.cpp:1678-1711 | One area, one station: the list of the subscription is brought up to date, frequency and payload maxima are raised iff the station is inside |
| `CamSync.SyncManager.VisitAreas` | iCS/src/ics/sync-manager.cpp:1655-1714 | The loop over the areas for one station leaves all lists settled and yields what the areas ask of the station |
| `CamAreas.WantedIsMaximum` | iCS/src/ics/sync-manager.cpp:1648-1711 | Flag, frequency and payload are: inside some area, and the maxima over the areas that hold the station |
| `CamSync.SyncManager.ScheduleNode` | iCS/src/ics/sync-manager.cpp:1716-1755 | The branches on the general vector: restart, leave, enter or nothing |
| `CamAreas.WithRowRow` | iCS/src/ics/applications_manager/subs-set-cam-area.cpp:103-161 | Setting or adding a row changes that station only and keeps the stored node |
| `CamAreas.WithoutRowRow` | iCS/src/ics/applications_manager/subs-set-cam-area.cpp:130-141 | Erasing a row removes that station only |
| `CamSync.SyncManager.ScheduleNodes` | iCS/src/ics/sync-manager.cpp:1642-1758 | The loop over the stations, with the management centre skipped |
| `CamSync.SyncManager.ScheduleCam` | iCS/src/ics/sync-manager.cpp:1634-1786 | The whole step: vector, lists, commands and the reply that decides; the senders are what the commands, carried out one by one in the order in which they were sent, make of the old ones; a start command has the largest payload and frequency of the rows; senders and vector agree when the commands take effect |
| `CamSync.SyncManager.SendCommands` | iCS/src/ics/sync-manager.cpp:1760-1786 | Lists that are not empty are sent; the new senders are the old ones after the effect of each command sent, in their order and by the two replies; a start command has the largest payload and frequency, each of them that of some row |
| `CamSync.CommandsTakeEffect` | iCS/src/ics/sync-manager.cpp:1761-1782 | Carried out in the order in which they are sent, the commands take the stopped stations away first and then add the started ones |
| `CamSync.FindRow` | iCS/src/ics/applications_manager/subs-set-cam-area.cpp:71-80 | The loop finds the first row of a station, or the end |
| `CamSync.Maxima` | iCS/src/ics/applications_manager/subs-set-cam-area.cpp:163-183 | The maxima over the vector |
| `CamSenders.SendersAgree` | iCS/src/ics/sync-manager.cpp:1716-1786 | (senders - stopped) + started = simulator ids of the new vector, for every coherent state |
| `CamSenders.StopIgnored` | iCS/src/ics/sync-manager.cpp:1760-1764 | If the simulator did not carry the stop command out, senders and vector agree afterwards iff no station of the vector left all areas |
| `CamSenders.RoundsRows` | iCS/src/ics/sync-manager.cpp:1642-1758 | The row of each station after the step in closed form; the rows of stations that are not present are unchanged |
| `CamSenders.RoundsLists` | iCS/src/ics/sync-manager.cpp:1716-1754 | Which simulator ids are in the stop and start lists |
| `CamSenders.ListsInOrder` | iCS/src/ics/sync-manager.cpp:1717-1757 | The lists name the stations to be stopped, or started, each once and in the order of the stations |
| `CamSenders.RoundsCoherent` | iCS/src/ics/sync-manager.cpp:1642-1758 | The vector keeps one row for each station, under its own id |
| `CamSenders.PresentRows` | iCS/src/ics/sync-manager.cpp:1642-1758 | A present station other than the centre is in the vector iff it is inside some area, with exactly the maxima |
| `CamAreas.AllVisitedMembers` | iCS/src/ics/sync-manager.cpp:1642-1714 | The list of an area holds, of the present stations, exactly those inside, without duplicates |
| `CamSync.SyncManager.NewSubscriptions` | iCS/src/ics/sync-manager.cpp:952-1015 | A failing application leaves everything as it was; otherwise the requested subscriptions are registered under new ids, with one area of payload 20 for each one that sets an area |
| `CamSync.SyncManager.AskApplications` | iCS/src/ics/sync-manager.cpp:967-977 | The answers are collected in order until one fails; the counter (subs-set-cam-area.cpp:192) grows with each new subscription |
| `CamSync.RegisterKeeps` | iCS/src/ics/sync-manager.cpp:990-1012 | Registering first and creating the area then keeps ids unique and every area with its subscription |
| `CamSync.AreasExactly` | iCS/src/ics/sync-manager.cpp:1007-1011 | There is an area exactly for each subscription that sets one, with payload 20 |
| `CamSync.SyncManager.Depart` | iCS/src/ics/sync-manager.cpp:382-396 | A station that leaves is held by no area afterwards, and the general vector is not touched |
| `CamSync.SyncManager.RemoveNodeInTheArea` | iCS/src/ics/sync-manager.cpp:1157-1182 | The loop over the areas removes the station from each list |
| `CamSenders.DepartedRowStays` | iCS/src/ics/sync-manager.cpp:1797-1809 | The row of a station that has left survives every later step, although the comment at 1797 promises its deletion |
| `CamSenders.VectorExactly` | iCS/src/ics/sync-manager.cpp:1642-1758 | After a step the stations of the vector are exactly the present stations, other than the centre, inside some area, iff no row before it was that of a departed station |
| `CamSenders.SendersExactly` | iCS/src/ics/sync-manager.cpp:1642-1786 | The same for the stations that send in the simulator, when they agreed with the vector and the commands take effect |
| `CamSenders.StartedExactly` | iCS/src/ics/sync-manager.cpp:1717-1757 | A station is in the start list iff it is inside some area and its id has no row or one with other values |
| `CamSenders.StoppedExactly` | iCS/src/ics/sync-manager.cpp:1717-1757 | A station is in the stop list iff its id has a row and it left all areas or is to send with other values |
| `CamSenders.ReusedId` | iCS/src/ics/sync-manager.cpp:1717-1757 | A station under the id of a row that a departed station left, with the same values, is in the vector but not told to send |
| `CamSync.StartValues` | iCS/src/ics/sync-manager.cpp:1774-1782 | The values of a start command are the largest payload and frequency over all rows, each that of some row |
| `CamSync.SyncManager.AddNode` | iCS/src/ics/sync-manager.cpp:411-417 | Any station is appended; under new ids the invariants are kept |
| `ScheduledTables.MessageTable.Schedule` | iCS/src/ics/sync-manager.cpp:2105-2221 | The loop with duplicate suppression: rows, commands and result are those of the specification; an unroutable call (2037-2102) changes nothing |
| `ScheduledTables.ScheduledFills` | iCS/src/ics/sync-manager.cpp:2109-2218 | No second row of a key is ever made; a call succeeds iff no command is refused; the keys added are those up to and including the refused one; earlier rows stay in place |
| `ScheduledTables.CommandsAreRows` | iCS/src/ics/sync-manager.cpp:2143-2210 | One command for each inserted row, in order |
| `ScheduledTables.RefusedIsNotRetried` | iCS/src/ics/sync-manager.cpp:2159-2208 | The row of the first refused command of a call is there afterwards, and stays, and none of the later calls of that step, however many, sends the command again |
| `ScheduledTables.SentAgainOnly` | iCS/src/ics/sync-manager.cpp:2105-2221 | In every run a message, refused or not, is sent a second time only if it arrived in between or W + lead <= 0 |
| `ScheduledTables.SentAgainExactly` | iCS/src/ics/sync-manager.cpp:2634-2655 | A refused first message, a clean-up or a reception, and the same call again: it is sent again iff W + lead <= 0, or iff the reception matches its row |
| `ScheduledTables.CommandsAreNew` | iCS/src/ics/sync-manager.cpp:2126-2143 | A command is sent only for a message of that route and step without a row, and the row is there afterwards |
| `ScheduledTables.CallsOfAStep` | iCS/src/ics/sync-manager.cpp:2109-2218 | When all calls of a step succeed each route has exactly the sequence numbers 0 to its highest frequency minus 1, whatever the order of the calls, and one command per row was sent |
| `ScheduledTables.MessageTable.FindRow` | iCS/src/ics/sync-manager.cpp:2126-2141 | True iff a row with that sender, receiver, time step and sequence number exists |
| `ScheduledTables.MessageTable.Refresh` | iCS/src/ics/sync-manager.cpp:2634-2655 | Exactly the rows with simStep >= timeStep + W go; all that remain satisfy k - W < timeStep <= k + lead |
| `ScheduledTables.MessageTable.Receive` | iCS/src/ics/sync-manager.cpp:1311-1386 | Reception erases rows and keeps the order of the others |
| `ScheduledTables.MessageTable.Erase` | iCS/src/ics/sync-manager.cpp:2637-2644 | Erasing while iterating equals filtering |
| `ScheduledTables.MessageTable.NextStep` | iCS/src/ics/sync-manager.cpp:307-307 | The step now scheduled has no rows yet |
| `ScheduledTables.KeepRows` | iCS/src/ics/sync-manager.cpp:2637-2644 | Filtering keeps exactly the rows not dropped and their uniqueness |
| `ScheduledTables.StaysBounded` | iCS/src/ics/sync-manager.cpp:2109-2218 | Routes and sequence numbers of the rows stay within those of the calls |
| `ScheduledTables.RunKeeps` | iCS/src/ics/sync-manager.cpp:1184-1214 | In every run no message has two rows and no row is for a later step than the one being scheduled |
| `ScheduledTables.ClockCounts` | iCS/src/ics/sync-manager.cpp:307-307 | In every run the clock is the number of steps so far |
| `ScheduledTables.SizeBound` | iCS/src/ics/sync-manager.cpp:1184-1214 | A unique table within a window has at most (window length) x routes x frequency rows |
| `ScheduledTables.RefreshedSize` | iCS/src/ics/sync-manager.cpp:1184-1214 | After any sequence of calls, receptions, clean-ups and steps that ends with a clean-up the table has at most max(0, W + lead) x routes x highest frequency rows; lead is 1 for unicast (2116) and 0 for topo- and geobroadcast (2362, 2521) |
| `NodeIds.DistinctExactly` | iCS/src/ics/itetris-node.cpp:37-46 | For every sequence of creations: all ids are pairwise distinct iff every requested id, the centre's 0 included, was new at its time |
| `NodeIds.VehiclesIncrease` | iCS/src/ics/vehicle-node.cpp:65-81 | Ids that were searched for strictly increase |
| `NodeIds.ZeroOnlyFirst` | iCS/src/ics/vehicle-node.cpp:65-81 | Such an id is at least the number of earlier nodes; it is 0 only for the very first node |
| `NodeIds.VehicleIsNew` | iCS/src/ics/vehicle-node.cpp:69-80 | An id that was searched for is unlike all ids given before |
| `NodeIds.NextFree` | iCS/src/ics/vehicle-node.cpp:71-80 | The search terminates with the least id from the counter on that was not requested |
| `NodeIds.GivenIds` | iCS/src/ics/vehicle-node.cpp:46-81 | Ids given are at most the counter, requested, or the centre's |
| `NodeIds.SearchedNext` | iCS/src/ics/vehicle-node.cpp:65-81 | A searched id is the next number behind the counter that was not requested; exactly requested ones are passed over, and the counter moves to it |
| `NodeIds.CountsOnce` | iCS/src/ics/itetris-node.cpp:44-46 | A node that does not search moves the counter on by one |
| `NodeIds.RequestedSoFar` | iCS/src/ics/fixed-node.cpp:35-46 | The requested ids are those of the fixed nodes and of the vehicles with a predefined id |
| `NodeIds.WithoutRequests` | iCS/src/ics/vehicle-node.cpp:65-81 | Without requests each vehicle gets its number among the nodes, 0, 1, 2 and so on |
| `NodeIds.NodeFactory.NewVehicle` | iCS/src/ics/vehicle-node.cpp:65-81 | The search loop leaves counter, requested ids and id as specified |
| `NodeIds.NodeFactory.NewPredefined` | iCS/src/ics/vehicle-node.cpp:46-63 | A vehicle with a predefined id registers it and counts as a node |
| `NodeIds.NodeFactory.NewFixed` | iCS/src/ics/fixed-node.cpp:35-46 | A fixed station registers its id and counts as a node |
| `NodeIds.NodeFactory.NewCentre` | iCS/src/ics/itetris-node.cpp:37-46 | The centre takes id 0 (tmc-node.cpp), does not register it, and counts as a node |
| `NodeIds.NodeFactory.CountNode` | iCS/src/ics/itetris-node.cpp:44-46 | Every creation advances the shared counter |
| `NodeIds.Collision` | iCS/src/ics/vehicle-node.cpp:46-63 | A concrete run in which two vehicles share an id, because nothing checks a predefined one |
| `BidiDistricts.Travel` | sumo-0.30.0/tools/generateBidiDistricts.py:77-91 | The worklist loop computes the specified search: last entry first, first-seen distances, -1 for the start |
| `BidiDistricts.TravelFinds` | sumo-0.30.0/tools/generateBidiDistricts.py:77-91 | What is found, for every finite network and limit: nothing for a limit of -1 or less; otherwise every found edge is explained by a walk of found edges, and every neighbour pushed at a distance below the limit is found |
| `BidiDistricts.FoundWithinReach` | sumo-0.30.0/tools/generateBidiDistricts.py:77-91 | A found edge ends a walk of distinct edges from the start whose intermediate lengths sum to less than the limit |
| `BidiDistricts.WholeComponent` | sumo-0.30.0/tools/generateBidiDistricts.py:77-91 | With a limit above the total length every edge joined to the start by a walk is found, whatever the order |
| `BidiDistricts.WithinReachButMissed` | sumo-0.30.0/tools/generateBidiDistricts.py:80-91 | A concrete network in which an edge within reach is not found, because of the last-in-first-out order |
| `BidiDistricts.AgreementFinds` | sumo-0.30.0/tools/generateBidiDistricts.py:77-91 | Sufficient, for neighbour lists of any kind and in any order: every edge within reach is found when all walks by which the search may come to an edge agree on whether its neighbours are still below the limit |
| `BidiDistricts.RoadsFind` | sumo-0.30.0/tools/generateBidiDistricts.py:77-91 | Sufficient where, as in lines 88-91, the neighbours of an edge are the lists of its two end nodes, in whatever order these are: everything within reach is found when for each end of each edge all walks to the edge agree, or only all walks by which the search may first come to that end |
| `BidiDistricts.ThreeRoadsFound` | sumo-0.30.0/tools/generateBidiDistricts.py:77-91 | A road, and two parallel roads that continue it, for every order of the lists of the nodes: two walks to one of them disagree, and everything within reach is found; agreement of all walks is not necessary on a road network |
| `BidiDistricts.ForkOnNodes` | sumo-0.30.0/tools/generateBidiDistricts.py:88-91 | The network of the example with the missed edge is a road network: its neighbours are the lists of end nodes |
| `BidiDistricts.FindsAllExactly` | sumo-0.30.0/tools/generateBidiDistricts.py:77-91 | About arbitrary neighbour lists, each in an order of its own, which a road network need not have: all walks agree iff everything within reach is found in every network that lists the same neighbours in any order and has a dead end hung behind any one edge |
| `BidiDistricts.DetourMisses` | sumo-0.30.0/tools/generateBidiDistricts.py:80-91 | About arbitrary neighbour lists, which a road network need not have: where a walk to an edge is too long, an order of each list exists in which the search takes this walk first and misses a dead end behind the edge |
| `BidiDistricts.LargeLimitAgrees` | sumo-0.30.0/tools/generateBidiDistricts.py:77-91 | With a limit above the total length all walks agree |
| `BidiDistricts.ForkDisagrees` | sumo-0.30.0/tools/generateBidiDistricts.py:80-91 | In the network of the example two walks disagree |
| `BidiDistricts.Districts.ComputeAsym` | sumo-0.30.0/tools/generateBidiDistricts.py:65-72 | The memo: a cached set is returned itself, a missing one is computed and stored; nothing else changes |
| `BidiDistricts.Districts.AsymOf` | sumo-0.30.0/tools/generateBidiDistricts.py:66-70 | Intersection of the neighbourhoods of all shape points, plus the edges straight back |
| `BidiDistricts.IntersectAll` | sumo-0.30.0/tools/generateBidiDistricts.py:68-68 | The intersection of all sets |
| `BidiDistricts.UniteAll` | sumo-0.30.0/tools/generateBidiDistricts.py:95-96 | The union of all sets |
| `BidiDistricts.Districts.LookAt` | sumo-0.30.0/tools/generateBidiDistricts.py:98-99 | One look-up: a missing entry is computed, and the candidate is added to the aliased set of the edge iff it holds the edge |
| `BidiDistricts.Districts.Extend` | sumo-0.30.0/tools/generateBidiDistricts.py:94-99 | The loop over the candidates, in any order, leaves the edge's cached set at Asym(e) plus the candidates c with e in Asym(c), and all other known sets as they were |
| `BidiDistricts.LookedAtStep` | sumo-0.30.0/tools/generateBidiDistricts.py:97-99 | Although the sets read may already have grown, a look-up adds only what the pure relation allows |
| `BidiDistricts.ProcessedWhenDone` | sumo-0.30.0/tools/generateBidiDistricts.py:94-99 | After all candidates the cache is the specified one |
| `BidiDistricts.Districts.ProcessEdge` | sumo-0.30.0/tools/generateBidiDistricts.py:76-100 | The district of one edge and the cache after it |
| `BidiDistricts.Districts.ComputeAll` | sumo-0.30.0/tools/generateBidiDistricts.py:75-102 | Every edge gets Travel(e) plus its symmetrical set, independent of the order of the edges and of what the cache held; the cache ends with exactly these sets, so a second run changes nothing. Without the symmetrical option a cached set is taken as it is |
| `BidiDistricts.SymmetricalExactly` | sumo-0.30.0/tools/generateBidiDistricts.py:38-39 | On the edges of the network the relation of the symmetrical option is symmetrical iff every opposite edge has the edge among its own opposites or candidates |
| `BidiDistricts.OneSided` | sumo-0.30.0/tools/generateBidiDistricts.py:43-49 | A concrete network with a 10 long and a 1 long edge in which it is not symmetrical, because the radius is capped at half the length of the shorter edge |
| `ShellPipeline.Parse` | ns-3.7/waf-tools/shellcmd.py:120-200 | The token loop computes the state machine's result, and what it accepts is well formed |
| `ShellPipeline.ParsedWellFormed` | ns-3.7/waf-tools/shellcmd.py:135-200 | In every accepted list commands and operators alternate, and a command writes to a pipe iff its next operator is a pipe |
| `ShellPipeline.FeedAllKeepsGood` | ns-3.7/waf-tools/shellcmd.py:135-198 | The invariant of the token machine over all inputs |
| `ShellPipeline.AssignmentRecognised` | ns-3.7/waf-tools/shellcmd.py:23-23 | A token NAME=value of word characters and non-space characters is an assignment with these parts |
| `ShellPipeline.AssignmentExactly` | ns-3.7/waf-tools/shellcmd.py:23-23 | A token is an assignment iff it is NAME=value, word characters and non-space characters, with at most one newline behind |
| `ShellPipeline.ParseRoundTrip` | ns-3.7/waf-tools/shellcmd.py:120-200 | Parsing the spelling of any command tree, with arguments and redirections in the order in which it has them, gives the node list of the tree |
| `ShellPipeline.WordsInAnyOrder` | ns-3.7/waf-tools/shellcmd.py:153-198 | Behind a program arguments and redirections are read in any order: the arguments in order and exactly the redirections given; it is an error iff a stream is redirected twice |
| `ShellPipeline.FeedWords` | ns-3.7/waf-tools/shellcmd.py:153-198 | The state of the token machine behind any such words |
| `ShellPipeline.SourceExample` | ns-3.7/waf-tools/shellcmd.py:351-351 | The line of the source, token by token, gives its five nodes, with the redirection of the errors kept |
| `ShellPipeline.FeedSymbols` | ns-3.7/waf-tools/shellcmd.py:153-198 | What each redirection sign, operator and file name does to a command |
| `ShellPipeline.FeedCdRefused` | ns-3.7/waf-tools/shellcmd.py:143-187 | A second directory behind `cd`, and assignments in front of it, are errors |
| `ShellPipeline.TreeOf` | ns-3.7/waf-tools/shellcmd.py:120-200 | Every well-formed list whose `cd`s are complete is the list of some tree |
| `ShellPipeline.Run` | ns-3.7/waf-tools/shellcmd.py:213-345 | The interpreter goes through every list as specified; the handles are the files of each process started, process by process; whenever it returns a code each process was waited for once and each of these files except the null device closed once |
| `ShellPipeline.InterpretTree` | ns-3.7/waf-tools/shellcmd.py:213-345 | For the list of a tree the result is the exit code of the tree and the processes started are those of the tree |
| `ShellPipeline.AcceptedRun` | ns-3.7/waf-tools/shellcmd.py:213-345 | For every accepted list: with complete `cd`s the run ends with the exit code of its tree; otherwise it raises iff the tree of the part in front, with a command in the place of the first incomplete `cd`, starts all its processes |
| `ShellPipeline.UpToIncomplete` | ns-3.7/waf-tools/shellcmd.py:224-232 | A run raises at an incomplete `cd` exactly when a command there would be started |
| `ShellPipeline.ParseAndRun` | ns-3.7/waf-tools/shellcmd.py:120-345 | For every accepted token list the run means what the tree of the tokens means, and raises exactly where an incomplete `cd` is reached; the files of all processes started are opened, and closed once when a code is returned |
| `ShellPipeline.StandardExactly` | ns-3.7/waf-tools/shellcmd.py:213-345 | For every accepted list with complete `cd`s and all exit codes: the processes started are those of the left-associative reading of the standard iff the run never stops at an operator behind which one of the other kind follows, never goes through a `cd` inside a pipe and starts no command behind a pipe with a redirected input; then the exit code is the standard one too |
| `ShellPipeline.AlwaysExactly` | ns-3.7/waf-tools/shellcmd.py:213-345 | Which lists start the same processes whatever the exit codes are: those without such a pair of operators behind a command, without `cd` inside a pipe and without redirected input behind one |
| `ShellPipeline.FalseAndOrDiffers` | ns-3.7/waf-tools/shellcmd.py:311-345 | The tokens `false && a OR b` (OR stands for the or-operator): the run ends with 1 after one process, the standard starts `b` and ends with its code |
| `ShellPipeline.ExecPipedCommands` | ns-3.7/waf-tools/shellcmd.py:202-211 | The result is the last command's code, by way of asking whether any failed |
| `ShellPipeline.CloseAll` | ns-3.7/waf-tools/shellcmd.py:300-302 | All files but the null device are closed, in order |
| `ShellPipeline.Start` | ns-3.7/waf-tools/shellcmd.py:241-290 | Starts the command with its arguments, environment, directory and redirections, behind a pipe reading from the previous process; the files opened are those of input, output and errors, in this order, and the null device is recognised by its two names |
| `ShellPipeline.OpenedFor` | ns-3.7/waf-tools/shellcmd.py:241-277 | The files of a process by its fields: input, output, errors; only an output file can be the null device |
| `ShellPipeline.OpenedForEach` | ns-3.7/waf-tools/shellcmd.py:241-277 | The handles of a run hold the files of each process, behind those of the processes before it |
| `ShellPipeline.Join` | ns-3.7/waf-tools/shellcmd.py:224-227 | An absolute directory replaces the current one, another is put behind it with a slash between them |
| `ShellPipeline.FinishPipe` | ns-3.7/waf-tools/shellcmd.py:295-304 | The end of a pipe: all its commands waited for, all its files closed |
| `ShellPipeline.ClosedOnce` | ns-3.7/waf-tools/shellcmd.py:299-318 | Each opened handle is closed exactly once, the null device never |
| `ShellPipeline.AheadPipe` | ns-3.7/waf-tools/shellcmd.py:307-309 | A step over a pipe keeps what remains to be run in agreement with the tree |
| `ShellPipeline.AheadLast` | ns-3.7/waf-tools/shellcmd.py:311-345 | A step over an and- or an or-operator ends the run or goes on as the right-nested tree does |
| `ShellPipeline.AheadChdir` | ns-3.7/waf-tools/shellcmd.py:224-230 | A step over a directory change |
| `PatchSet.RoundTripExactly` | ns-3.7/utils/check-style.py:134-266 | For names and lines without line ends: reading the written lines gives the same patches iff no removed line begins with "-- " and no added line with "++ " |
| `PatchSet.TextRoundTripExactly` | ns-3.7/utils/check-style.py:134-266 | The same through the text of a file, split into lines |
| `PatchSet.ReadWriteRead` | ns-3.7/utils/check-style.py:222-266 | Whatever text a patch set was read from, writing it and reading the text again gives it back |
| `PatchSet.MisreadLine` | ns-3.7/utils/check-style.py:134-266 | What becomes of a patch that removes one line beginning with "-- ": the chunk loses the line and a patch for a file of that name appears |
| `PatchSet.MisreadExample` | ns-3.7/utils/check-style.py:134-266 | The same for the removed line "-- x" |
| `PatchSet.ReadOneLine` | ns-3.7/utils/check-style.py:222-266 | What is read from lines has no line ends inside |
| `PatchSet.HeaderRoundTrip` | ns-3.7/utils/check-style.py:194-196 | A printed header, with any text behind it, matches the pattern of line 225 and gives back all four numbers |
| `PatchSet.HeaderExample` | ns-3.7/utils/check-style.py:194-196 | One header character by character, printed and read with text behind it |
| `PatchSet.DecimalValue` | ns-3.7/utils/check-style.py:195-195 | Printing and reading a number |
| `PatchSet.ClassifyLine` | ns-3.7/utils/check-style.py:157-164 | A printed line is read as that line, or as a file name exactly when it is misread |
| `PatchSet.ClassifyHeader` | ns-3.7/utils/check-style.py:225-225 | A printed header is read as a header, also with any text behind it |
| `PatchSet.ClassifyFiles` | ns-3.7/utils/check-style.py:216-218 | Printed file names are read as such |
| `PatchSet.ClassifyText` | ns-3.7/utils/check-style.py:223-228 | Which lines are read as file names and as lines of a chunk, and with what text |
| `PatchSet.ClassifyStart` | ns-3.7/utils/check-style.py:225-225 | A line is read as a header iff it begins with one, four numbers between its signs; anything may follow |
| `PatchSet.ReadTotal` | ns-3.7/utils/check-style.py:222-266 | Reading puts each body line into exactly one chunk |
| `PatchSet.AllBodies` | ns-3.7/utils/check-style.py:215-220 | Of the printed lines as many are read as body lines as the patches hold iff none is misread |
| `PatchSet.ReadPatches` | ns-3.7/utils/check-style.py:222-266 | Reading the lines of clean patches appends these patches to those read before |
| `PatchSet.ReadClean` | ns-3.7/utils/check-style.py:222-266 | No line that was read is one that would be misread |
| `PatchSet.ParsePatchset` | ns-3.7/utils/check-style.py:222-266 | The loop on objects succeeds iff the specification does, with the same contents |
| `PatchSet.AcceptedExactly` | ns-3.7/utils/check-style.py:231-266 | A patch set is accepted iff each line is of a known kind, a second file name and a header have a file name somewhere before them, and a line of a chunk has a header before it |
| `PatchSet.StepExactly` | ns-3.7/utils/check-style.py:233-265 | Where each kind of line goes, also when the current chunk belongs to an earlier patch |
| `PatchSet.HeadersWithText` | ns-3.7/utils/check-style.py:225-225 | Any text behind the headers of printed patches leaves what is read as it is |
| `PatchSet.PatchReader.ReadLine` | ns-3.7/utils/check-style.py:233-265 | One turn of the loop, its errors included; the current chunk may belong to an earlier patch |
| `PatchSet.PatchReader.StartPatch` | ns-3.7/utils/check-style.py:234-239 | A file name starts a patch and leaves the current chunk |
| `PatchSet.PatchReader.SetDst` | ns-3.7/utils/check-style.py:240-243 | The second file name goes to the current patch object |
| `PatchSet.PatchReader.StartChunk` | ns-3.7/utils/check-style.py:244-248 | A header appends a chunk object to the current patch |
| `PatchSet.PatchReader.AddLine` | ns-3.7/utils/check-style.py:249-265 | A body line goes to the current chunk object, in place |
| `PatchSet.ChunkObject.Write` | ns-3.7/utils/check-style.py:194-198 | Header with the counts of the lines, then the lines |
| `PatchSet.HeaderCounts` | ns-3.7/utils/check-style.py:176-196 | The lengths in a header are the numbers of lines that are not added, and of those that are not removed |
| `PatchSet.ChunkObject.Length` | ns-3.7/utils/check-style.py:176-193 | The number of lines on one side |
| `PatchSet.PatchObject.Write` | ns-3.7/utils/check-style.py:216-220 | Two file names, then the chunks |
| `PatchSet.WritePatchset` | ns-3.7/utils/check-style.py:216-220 | Patches one after the other |
| `PatchSet.Rewrite` | ns-3.7/utils/check-style.py:200-266 | Reading into objects and writing these: the lines written are the printed form of what was read, and lines without line ends inside read back to the same patches |
| `RandomEdges.RandomEdgeGenerator.Get` | sumo-0.30.0/tools/randomTrips.py:154-157 | For every draw in [0, total) the index is in range, the weight positive and the draw in the slot of the edge |
| `RandomEdges.RandomEdgeGenerator.constructor` | sumo-0.30.0/tools/randomTrips.py:142-152 | Running totals in edge order; a usable generator iff the total is not 0 |
| `RandomEdges.SlotsApart` | sumo-0.30.0/tools/randomTrips.py:154-157 | Slots do not overlap and one of weight 0 is empty |
| `RandomEdges.SlotsCover` | sumo-0.30.0/tools/randomTrips.py:154-157 | The slots cover [0, total) |
| `RandomEdges.Bisect` | sumo-0.30.0/tools/randomTrips.py:156-156 | The position behind all entries not above the draw |
| `RandomEdges.Probability` | sumo-0.30.0/tools/randomTrips.py:202-224 | The loop-free computation yields the weight whose factors are stated below |
| `RandomEdges.WeightLength` | sumo-0.30.0/tools/randomTrips.py:212-213 | By choice the length is a factor of the weight |
| `RandomEdges.WeightLanes` | sumo-0.30.0/tools/randomTrips.py:214-215 | By choice the number of lanes is a factor of the weight |
| `RandomEdges.WeightPower` | sumo-0.30.0/tools/randomTrips.py:216-216 | The power of the speed is always a factor of the weight |
| `RandomEdges.WeightFringe` | sumo-0.30.0/tools/randomTrips.py:217-222 | The fringe factor counts iff pedestrians are off and the edge is fast enough and of the preferred kind of fringe |
| `RandomEdges.WeightPlain` | sumo-0.30.0/tools/randomTrips.py:211-223 | Where no option counts the weight is the power of the speed |
| `RandomEdges.WeightPositive` | sumo-0.30.0/tools/randomTrips.py:205-210 | With positive factors the weight is 0 iff the edge is excluded: not allowed, no intermediate point, or the wrong kind of fringe |
| `Timeline.TimelineDataRange.Search` | ns-3.7/utils/grid.py:49-61 | The binary search finds the range that covers the key, or -1 when none does |
| `Timeline.TimelineDataRange.GetRanges` | ns-3.7/utils/grid.py:66-76 | For every interval, also with start > end, the slice between exactly the bounds that the other look-up returns; with start <= end the same promise |
| `Timeline.TimelineDataRange.GetRangesBounds` | ns-3.7/utils/grid.py:77-87 | For every interval the bounds for it; with start <= end they enclose every range that meets it when an end is covered, and no other iff each end not covered lies outside of all ranges |
| `Timeline.SliceExactly` | ns-3.7/utils/grid.py:66-76 | When the slice is exact, as an equivalence in all four cases |
| `Timeline.BoundsOnce` | ns-3.7/utils/grid.py:66-87 | On ordered ranges there is only one pair of bounds for an interval, so both look-ups agree |
| `Timeline.BoundsExist` | ns-3.7/utils/grid.py:77-87 | There are bounds for every interval |
| `Timeline.TimelineDataRange.AddRange` | ns-3.7/utils/grid.py:62-63 | Appends a range |

## Left out

- Sockets, thread launch, process start, files, XML, logging, option parsing and interactive prompts: replies, exit codes and results are parameters of any value.
- Floating-point rounding: offsets, lengths and weights are real numbers; the frequencies of CAM areas are natural numbers because `GetFrequency` truncates (subs-set-cam-area.cpp:233-236).
- Fixed integer widths: ids, counters and time steps do not wrap around.
- Verbose printing in tlsCoordinator.py and shellcmd.py, and the abbreviated command: they do not influence results.
- TlsCoordinator.Coordinate: takes pairs that name two different lights, with positive travel times and in the order main sorts them into (lines 304-310); the two connection fields of a pair are not part of this model.
- Regular expressions: replaced by explicit prefix and character predicates; word splitting of a command string (shlex) is not part of this model.
- ShellPipeline.Run: a file that cannot be opened or a program that cannot be started is not modelled; what a run that raises leaves open is not stated.
- Non-ASCII letters and spaces in the assignment pattern of shellcmd.py.
- Geometry and type queries: whether a station is inside an area, which edges are near a point, which types are registered, are given relations.
- BidiDistricts.FindsAllExactly: the only-if half ranges over neighbour lists that are ordered edge by edge, with a dead end behind one edge; lists shared by all edges at a node do not yield all of these. Exactly when everything within reach is found on a road network is not stated: the order there is constrained by the directions of the edges, and an edge counts with the length of its siblings that were visited first.
- BidiDistricts.DetourMisses: builds such lists, not lists of nodes.
- The radius is not part of the key of the cache in generateBidiDistricts.py; calls with different radii on one cache are not modelled.
- CamSync.SyncManager.AddNode: keeps the invariants under new ids only; the code does not check that, and what one step does under the id of a departed station's row is stated by CamSenders.ReusedId.
- CamSync.SyncManager.ScheduleCam: the rows of the CAM table (lines 1788-1846) and the payloads made by the facilities are not modelled; a failed start command leaves the simulator's senders as they were after the stop.
- Dropping subscriptions: the handlers that drop them compare the static pointer type (subs-set-cam-area.cpp:53-54) and delete nothing, so the collection never shrinks.
- ScheduledTables.MessageTable.Receive: which rows a received message matches is a parameter; grouping of receivers and delivery to applications are not modelled.
- TestRunner.RunInv: the threads are modelled as interleaved steps between two operations on the shared queues and flag; what a job does is its exit code.
- PatchSet.RoundTripExactly: names and lines that hold line ends are not covered, since no file that was read yields them.
- PatchSet: objects for single lines are values, since only `append_to_line` changes one after its creation; remove_trailing_whitespace_changes, which uses it, is left out because it stops at the first exception and has no clean specification.
- RandomEdges.RandomEdgeGenerator.constructor: requires weights that are not negative; the random number is any value of its range.
- Timeline.TimelineDataRange.Search: requires ranges in order that do not overlap; the sort and the search among events are not modelled.
- TypePaths.StaticInformation.GatherAll: the textual output with its hidden types (lines 282 onwards) is not modelled.
- FacilitiesManager, the sample programs, the graphical interfaces and the remaining SUMO tools: wrappers over libraries that are not part of this model.
