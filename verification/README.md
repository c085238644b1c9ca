# Verification of IOTile CoreTools

A Dafny model of the parts of this repository whose behaviour is hardest to see from
reading one function: state machines, worklists, caches and protocols. Each component is
a pair. A specification on values (functions, and lemmas about all inputs or all runs)
says what the code does and what follows from that; classes with the source's own
methods, loops and fields are proved to do exactly what the specification says. To check
everything with Dafny 4.11: `dafny verify dfyconfig.toml`.

## What is modelled

- **Sensor graph** (`Streams`, `Wiring`, `WiringSteps`, `Walks`, `Toposort`, `Ordering`,
  `WiringOrder`, `SmallGraphs`, `CircularGraph`, `MisplacedRoots`, `SensorGraph`):
  wiring of nodes by stream matching, the breadth-first traversal and the input
  worklist, neither of which has a visited set, and the topological sort on top of the
  traversal. Termination is a count of walks; it is exact, so the traversal ends if and
  only if no cycle is reachable. When the sort fails, and when it fails without need, is
  stated for every built graph.
- **Sensor log** (`ReadingLog`, `LogRuns`, `LogOutcomes`, `SelectedReadings`,
  `SensorLog`, `Streamer`, `ReportOutcomes`): walkers that cache an offset and a count
  into a shared log. They refine independent queues as long as what is overwritten
  concerns no walker. That condition on an overwriting push is proved in both
  directions; a corrected adjustment that is always right is given too.
- **Connection manager** (`Connections`, `ConnectionOutcomes`, `Timeouts`,
  `ConnectionManager`): the worker, its action queue and the two dictionaries that share
  records, over every interleaving of client requests, reports, forced disconnects and
  timeouts.
- **J-Link ring queue** (`RingQueue`, `RingRounds`, `DeviceFrames`): the device fills
  and publishes frames and the host polls, interleaved at single bytes of the shared
  memory.
- **Ordered MQTT delivery** (`PacketQueue`, `PacketReset`, `PublisherRestart`,
  `ArrivalOutcomes`, `Mqtt`, `Subscriptions`): sequence numbers per topic, reordering queues, and routing with
  wildcards made on demand.
- **Scripts in fragments** (`Fragments`, `FragmentOutcomes`, `Uploads`, `ScriptDelivery`): cut
  by a device adapter and gathered by the gateway, which gets them through an unordered
  subscription and takes more of them while earlier scripts are being sent to the device.
- **Supervisor** (`Supervision`, `ServiceOutcomes`, `Supervisor`): the service table
  with its bounded, coalescing logs, and its copy in a client, as a simulation with
  events in flight.
- **BLED112** (`Framing`, `PacketBytes`, `Dedupe`, `BroadcastBytes`, `ScriptSending`,
  `ScriptProgress`): cutting a byte stream into packets, the filter for repeated
  broadcasts, and the script sender that queues itself again.
- **Descriptors and text** (`Codes`, `NodeDescriptors`, `NodeText`, `NodeGrammar`,
  `StreamerDescriptors`, `DescriptorBytes`, `StreamText`, `PrintedTexts`): binary and
  printed forms with the exact domains of their round trips.

`Basics`, `Bytes` and `Formats` hold what several of these share. The modules whose names
end in `Outcomes`, `Bytes`, `Frames`, `Readings`, `Texts` or `Grammar` say what the
specification's own functions mean in raw terms: bytes, codes, letters and fields.

## Where the code does not do what its documentation says

The model follows the code. Each of these has a lemma.

- Overwriting old readings leaves a walker in agreement only if it was past all of them
  and none of them was one of its own (`RolloverKeepsSyncIff`, `OverwritingPushIff`); for a
  walker that has read everything, overwriting a reading of its own is an internal error
  (`DrainedWalkerFails`).
- A packet that arrives again while its first copy is held back stops its queue for good
  (`CompleteIff`), and `reset` keeps packets of the time before: one of them is delivered
  instead of a new one as soon as all numbers below it have come (`AfterReset`,
  `OldReplacesNew`, `DeliveredAfterReset`).
- `reset` is only called for topics that are subscribed unordered, where it has no effect
  (`HandedOutAsArrived`), and the queues that are ordered are not reset when a publisher
  connects again and numbers from 0: one that expects number n drops the first n messages
  (`DeliveredAfterRestart`).
- The fragments of a script come through a subscription that is not ordered, so a network that
  swaps or repeats them corrupts the script (`SwappedFragments`, `RepeatedFragment`,
  `ScriptPassedOnIff`); and a send that ends while the next script is coming in clears what
  has come of it (`ClearedByEarlierSend`, `OnlyWholeUploadsArrive`).
- A forced disconnect loses the callback of an operation that is not rpc, open_interface
  or close_interface (`LostExactlyWhen`). The notice of a timeout that waits behind other
  actions fails the next request when they end the expired one and begin another
  (`StaleNotice`, `StaleNoticeAhead`), as when a timeout is noticed twice
  (`SecondNoticeHitsNext`).
- A frame that claims more than 20 bytes, or a failed read, loses the rest of its batch,
  as the read index moves on all the same (`NoneLostOrRepeated`).
- `create_binary_descriptor` and `parse_binary_descriptor` undo each other only on ids in
  range (`TextRoundTrip`, `StreamerRoundTrip`) and, starting from bytes, only when unused
  places are clear and no input is a wildcard or has the combined or the breaks specifier,
  which the text does not say (`NodeText.BytesRoundTrip`, `BreaksSpecifierIsLost`); the
  comment in `streamer_descriptor.py` says 20 bytes where the code takes 14.
- A synchronous individual report consumes a reading and then fails; no other report loses
  one (`TakenIsReported`, `SynchronousLosesReading`).
- A stream whose id does not fit its code is counted under one name and stored under
  another (`PushKeepsSyncIff`).
- Sorting the nodes drops those that no root reaches (`TopologicalOrderSorts`).
- The first input-type input of a new node is not connected to a node already in the graph
  that writes the stream it matches (`WiredExactlyWhen`, `EdgeIffReads`). Sorting then may
  not know of the dependency (`LastYieldIsComplete`), or may know too much and fail on a
  graph without a cycle (`DeadlockIffCircle`, `SortingRejects`).
- The check that roots come first compares levels and numbers, not only dependencies
  (`RootsFirstExactly`), so it refuses graphs that have an order with the roots first
  (`SortingRefuses`, `RefusedWithoutNeed`).

## Conventions

- Clock readings, answers of the network or a port, results of writes, which node fires
  and the order of dictionary iteration are parameters. A port's answers are a script of
  reads with their sizes; a `limit` of 0 is an empty read.
- Nodes of the sensor graph are numbers, in the order in which they were added; their
  records are values in a sequence that the graph object updates.
- In classes a ghost field `view` is the value that the object stands for; `Valid` ties
  every real field to it, and methods say how it changes.
- Callbacks are tokens that fire. Names of services are wrapped in a datatype; only their
  equality matters.

## Model

| member | source | states |
|---|---|---|
| `Streams.DecodeEncode` | iotilesensorgraph/iotile/sg/stream.py:151-172 | a stream with a 4-bit type and an id below 2048 is decoded from its 16-bit code to itself |
| `Streams.EncodeDecode` | iotilesensorgraph/iotile/sg/stream.py:151-172 | every 16-bit number is the code of the stream it is decoded to |
| `Codes.SelectorRoundTrip` | iotilesensorgraph/iotile/sg/stream.py:297-330 | a selector is decoded from its code to itself if and only if its type is below 8 and its id is absent or below 2047 |
| `Codes.SelectorCodes` | iotilesensorgraph/iotile/sg/stream.py:301-330 | encoding after decoding is the identity on all 16-bit numbers |
| `Codes.NoSelectorIsMissing` | iotilesensorgraph/iotile/sg/node_descriptor.py:116-120 | 0xFFFF, which means "no second input", is the code of no selector of a stream type that exists |
| `StreamText.StreamRoundTrip` | iotilesensorgraph/iotile/sg/stream.py:107-149 | parsing the printed form of a stream gives the stream, for every natural id |
| `StreamText.SelectorRoundTrip` | iotilesensorgraph/iotile/sg/stream.py:332-405 | parsing the printed form of a selector gives it back if and only if it is a wildcard, or a single stream with the system-only or user-only specifier; plural type names included |
| `StreamText.SplitJoin` | iotilesensorgraph/iotile/sg/stream.py:121 | splitting at white space undoes joining words by spaces |
| `PrintedTexts.PrintedSelectors` | iotilesensorgraph/iotile/sg/stream.py:382-405 | the printed form of every selector, letter by letter: a single stream as such, and a type with the specifier's name and the plural, which "buffered" has not |
| `PrintedTexts.StreamsRead` | iotilesensorgraph/iotile/sg/stream.py:107-149 | exactly the texts of two words, a type's name and a decimal number, are read as streams, and with "system" before them as system streams |
| `PrintedTexts.NumbersRead` | iotilesensorgraph/iotile/sg/stream.py:137-142 | a number is read from its decimal digits only, and zero from any number of zeros |
| `PrintedTexts.AllRead` | iotilesensorgraph/iotile/sg/stream.py:348-380 | exactly which texts that begin with "all" are read as which selectors, once "node" and "nodes" have been left out |
| `PrintedTexts.SinglesRead` | iotilesensorgraph/iotile/sg/stream.py:348-380 | which other texts are read as which selectors |
| `PrintedTexts.FirstTimeThere` | iotilesensorgraph/iotile/sg/stream.py:351-352 | leaving out a word: what is before its first place stays, and what follows is searched again |
| `PrintedTexts.WhiteSpaceSeparates` | iotilesensorgraph/iotile/sg/stream.py:121 | any white space separates words |
| `PrintedTexts.OneWord` | iotilesensorgraph/iotile/sg/stream.py:121 | and nothing else does |
| `PrintedTexts.TypesByName` | iotilesensorgraph/iotile/sg/stream.py:17-49 | the names of the six stream types, and their plurals |
| `NodeDescriptors.NodeRoundTrip` | iotilesensorgraph/iotile/sg/node_descriptor.py:107-204 | a node with 32-bit references is decoded from its 20 bytes to itself if and only if its stream id is below 2048 and its input ids are below 2047 |
| `NodeDescriptors.NodeBytes` | iotilesensorgraph/iotile/sg/node_descriptor.py:107-204 | the node that accepted bytes stand for is encoded as these bytes with the places that carry no information cleared, so as the same bytes if and only if they were clear |
| `NodeText.BytesRoundTrip` | iotilesensorgraph/iotile/sg/node_descriptor.py:87-204 | bytes that are printed as a description are encoded from that text as the same bytes if and only if the places that carry no information are clear and both inputs are single streams with the user-only or the system-only specifier |
| `NodeText.Reencoded` | iotilesensorgraph/iotile/sg/node_descriptor.py:87-204 | what the text of any accepted fields is encoded as: the fields with unused places cleared and other specifiers reduced to the user one, or nothing when an input is a wildcard |
| `NodeText.BreaksSpecifierIsLost` | iotilesensorgraph/iotile/sg/node_descriptor.py:87-204 | 20 clear bytes with the input code 0x8005 come back with 0x0005 |
| `NodeText.TextRoundTrip` | iotilesensorgraph/iotile/sg/node_descriptor.py:32-204 | the bytes of a description with 32-bit references are printed as the node it describes if and only if its stream ids are in range |
| `NodeText.ReadBack` | iotilesensorgraph/iotile/sg/node_descriptor.py:11-84 | what is printed for a node is parsed as the node it says: refused when an input is a wildcard, and every specifier but the system one is read as the user one |
| `NodeText.DescribedIsReadBack` | iotilesensorgraph/iotile/sg/node_descriptor.py:11-84 | a printed node is parsed as itself if and only if its inputs are single streams with the two printable specifiers and a lone input has the default combiner |
| `NodeGrammar.NodesRead` | iotilesensorgraph/iotile/sg/node_descriptor.py:11-84 | exactly the texts of the grammar are parsed, each as the node that it describes |
| `NodeDescriptors.TriggerCodes` | iotilesensorgraph/iotile/sg/node_descriptor.py:207-266 | the 8-bit trigger codes undo each other, for values, counts and "always" |
| `StreamerDescriptors.StreamerRoundTrip` | iotilesensorgraph/iotile/sg/streamer_descriptor.py:38-84 | a streamer is decoded from its 14 bytes to itself if and only if its selector fits its code, and the index of another streamer is below 128 and only given when not automatic |
| `StreamerDescriptors.BytesRoundTrip` | iotilesensorgraph/iotile/sg/streamer_descriptor.py:38-84 | bytes that are accepted are encoded again as the same bytes if and only if their padding, and the slot of a controller, is zero |
| `StreamerDescriptors.SlotRoundTrip` | iotilesensorgraph/iotile/sg/slot.py:111-156 | a slot is decoded from its 8 bytes to itself |
| `StreamerDescriptors.SlotBytes` | iotilesensorgraph/iotile/sg/slot.py:125-156 | the 8 bytes of an accepted slot are encoded again as the same bytes if and only if their unused places are clear |
| `DescriptorBytes.StreamsByBits` | iotilesensorgraph/iotile/sg/stream.py:151-172 | a stream's code by its bits: type from 12 on, the system flag in 11, the id below |
| `DescriptorBytes.SelectorsByBits` | iotilesensorgraph/iotile/sg/stream.py:297-330 | a selector's code by its bits |
| `DescriptorBytes.NodeLayout` | iotilesensorgraph/iotile/sg/node_descriptor.py:87-150 | every part of an encoded node is at its place among the 20 bytes, with the number that stands for it |
| `DescriptorBytes.NodesNotEncoded` | iotilesensorgraph/iotile/sg/node_descriptor.py:87-150 | a node with ids in range is refused exactly for an unknown function, or else for a reference of more than 32 bits |
| `DescriptorBytes.AcceptedNodes` | iotilesensorgraph/iotile/sg/node_descriptor.py:153-204 | exactly which bytes are accepted as a node, place by place |
| `DescriptorBytes.RefusedNodes` | iotilesensorgraph/iotile/sg/node_descriptor.py:175-204 | which complaint there is about all other bytes |
| `DescriptorBytes.StreamerLayout` | iotilesensorgraph/iotile/sg/streamer_descriptor.py:67-84 | every part of an encoded streamer is at its place among the 14 bytes |
| `DescriptorBytes.StreamersNotEncoded` | iotilesensorgraph/iotile/sg/streamer_descriptor.py:67-84 | a streamer with ids in range is refused exactly when the index of another streamer does not fit a byte |
| `DescriptorBytes.AcceptedStreamers` | iotilesensorgraph/iotile/sg/streamer_descriptor.py:38-64 | exactly which bytes are accepted as a streamer |
| `DescriptorBytes.RefusedStreamers` | iotilesensorgraph/iotile/sg/streamer_descriptor.py:38-64 | which complaint there is about all other bytes |
| `Walks.ExactRounds` | iotilesensorgraph/iotile/sg/graph.py:562-579 | on an acyclic graph the traversal ends after exactly as many rounds as there are walks from the roots, and yields each node exactly once for every walk to it |
| `Walks.RoundCost` | iotilesensorgraph/iotile/sg/graph.py:565-579 | every round lowers the number of walks left to follow by exactly one |
| `Walks.TerminatesIffAcyclic` | iotilesensorgraph/iotile/sg/graph.py:562-579 | the traversal without a visited set ends if and only if no cycle can be reached from the roots |
| `Walks.CycleNeverEmpties` | iotilesensorgraph/iotile/sg/graph.py:562-579 | with a node on a cycle in it, the queue is never empty again |
| `Walks.VisitedIffReachable` | iotilesensorgraph/iotile/sg/graph.py:562-579 | a finished traversal has yielded exactly the reachable nodes |
| `Walks.LastVisitsFollowEdges` | iotilesensorgraph/iotile/sg/graph.py:565-579 | the last time a node is yielded comes after the last time each of its predecessors is |
| `Walks.PathsInOrder` | iotilesensorgraph/iotile/sg/graph.py:562-579 | the end of a walk from the roots is visited before that of every later walk, where shorter walks come first and equally long ones in the order of the positions of their root and connections |
| `Walks.VisitsInOrder` | iotilesensorgraph/iotile/sg/graph.py:562-579 | conversely, of any two visits the earlier one is the end of a walk that comes earlier in this order |
| `Walks.WorklistEmpties` | iotilesensorgraph/iotile/sg/graph.py:460-476 | whatever fires, the worklist of an acyclic graph empties within as many rounds as there are walks, and no node is checked more often than there are walks to it |
| `Walks.AllFiringTraverses` | iotilesensorgraph/iotile/sg/graph.py:460-476 | when every checked node fires, the worklist makes the rounds of the full traversal |
| `Walks.CheckedExactly` | iotilesensorgraph/iotile/sg/graph.py:460-476 | whatever fires, in a finished run the nodes checked are the starting list followed by the outputs of the checks that fired, in their order; so each node is checked exactly as often as it is in these, and only the starting list when nothing fires |
| `Wiring.Multiplicity` | iotilesensorgraph/iotile/sg/graph.py:93-123 | how often b is listed in a's outputs, for every graph built by adding nodes in any order |
| `Wiring.WiredExactlyWhen` | iotilesensorgraph/iotile/sg/graph.py:93-123 | b is listed once for every matching input, whichever was added first, if and only if not (a came first and b's first input-type input matches a's stream) |
| `Wiring.EdgeIffReads` | iotilesensorgraph/iotile/sg/graph.py:93-123 | in every graph built by adding nodes the edges are exactly the pairs of distinct nodes of which the second reads the first, except when the first was there before and is read through the first input-type input only |
| `Wiring.HiddenWritesInput` | iotilesensorgraph/iotile/sg/graph.py:93-113 | such an exception has a first node that writes an input stream and a second one that is a root |
| `WiringOrder.RootsExactly` | iotilesensorgraph/iotile/sg/graph.py:93-113 | the roots are exactly the nodes with an input of input type, in the order in which they were added |
| `WiringOrder.OutputsInOrder` | iotilesensorgraph/iotile/sg/graph.py:93-123 | each node's outputs are listed in the order in which the nodes they go to were added, so that how often each is listed says all |
| `WiringSteps.SearchConnects` | iotilesensorgraph/iotile/sg/graph.py:101-110 | looking up an input connects it to every matching node once, and fails exactly when one of these is full |
| `SensorGraphs.SensorGraph.AddNode` | iotilesensorgraph/iotile/sg/graph.py:74-131 | succeeds exactly when the limits are kept, all buffered inputs have a source and the function is known, and then a graph built from nodes is the one built from one node more; otherwise the graph is unchanged at the maximum of nodes, or else gains an unlisted node, which may be a root, and connections to it only |
| `SensorGraphs.SensorGraph.ConnectOutput` | iotilesensorgraph/iotile/sg/node.py:273-286 | adds an output unless the maximum is reached |
| `SensorGraphs.SensorGraph.ConnectInput` | iotilesensorgraph/iotile/sg/graph.py:93-113 | one input: it becomes a root input or is connected to all its sources |
| `SensorGraphs.SensorGraph.ConnectTargets` | iotilesensorgraph/iotile/sg/graph.py:115-123 | the new node's outputs are the existing nodes that read it, once for every matching input, unless these are too many |
| `SensorGraphs.SensorGraph.IterateBfs` | iotilesensorgraph/iotile/sg/graph.py:551-579 | yields the visits of the traversal with, for each, the inputs found among the nodes seen so far and the outputs |
| `SensorGraphs.SensorGraph.InputsOf` | iotilesensorgraph/iotile/sg/graph.py:568-573 | the inputs list that is yielded for one visit |
| `SensorGraphs.SensorGraph.ProcessInput` | iotilesensorgraph/iotile/sg/graph.py:460-476 | the nodes checked for one input, in order, until the worklist is empty: all roots and then the outputs of the nodes that fired, and of no others |
| `SensorGraphs.SensorGraph.FindDependencies` | iotilesensorgraph/iotile/sg/graph.py:592-599 | the table of dependencies that the last visits leave |
| `SensorGraphs.SensorGraph.SortNodes` | iotilesensorgraph/iotile/sg/graph.py:581-609 | fails as circular exactly when the library finds a deadlock, which on a graph built by adding nodes means a circle of nodes that are each before the next; otherwise the node list becomes the reachable nodes, each once, in the order of levels, with every edge forward, and the check on roots passes exactly when every root is earlier than every other node |
| `Ordering.CollectFinds` | iotilesensorgraph/iotile/sg/graph.py:568-573 | the inputs list holds exactly the matching nodes seen so far, each once |
| `Ordering.NeedsAreBefore` | iotilesensorgraph/iotile/sg/graph.py:562-599 | the dependencies of a reachable node are exactly the other reachable nodes that it reads and that are connected to it or visited before its last visit |
| `Ordering.LastYieldIsComplete` | iotilesensorgraph/iotile/sg/graph.py:562-599 | the last time a node is yielded its inputs list holds all other reachable nodes whose stream it reads if and only if those not connected to it have been visited before |
| `Ordering.SeenFirstIff` | iotilesensorgraph/iotile/sg/graph.py:562-579 | a node is visited before the last visit of another one if and only if some walk to it comes before some walk to the other: by length, then by the positions of root and connections |
| `Ordering.DeadlockIffCircle` | iotilesensorgraph/iotile/sg/graph.py:595-603 | the dependencies of a built graph have a deadlock if and only if nodes are before each other in a circle |
| `Ordering.CircleHasHidden` | iotilesensorgraph/iotile/sg/graph.py:595-603 | every such circle has a node that reads an earlier added one through its root input only, and is visited for the last time before it |
| `CircularGraph.SortingRejects` | iotilesensorgraph/iotile/sg/graph.py:581-609 | a graph of three nodes without a cycle of connections that sorting rejects as circular: its connections, traversal order and deadlock |
| `MisplacedRoots.SortingRefuses` | iotilesensorgraph/iotile/sg/graph.py:606-609 | a graph of three nodes that is wired completely and has an order with the roots first, but every order that the sort can emit fails the check on roots |
| `Ordering.DependenciesSortable` | iotilesensorgraph/iotile/sg/graph.py:595-603 | if all reachable nodes that read each other are connected, as they are when no node writes an input stream, the dependencies are complete and have no deadlock |
| `Ordering.TopologicalOrderSorts` | iotilesensorgraph/iotile/sg/graph.py:601-604 | any topological order of the dependencies of a built graph is a permutation of the reachable nodes with every edge, and every node before another, forward |
| `Ordering.RootsFirstExactly` | iotilesensorgraph/iotile/sg/graph.py:606-609 | the check that roots come first passes if and only if every root is earlier than every other node, by level and then by number |
| `Ordering.IndependentRootsComeFirst` | iotilesensorgraph/iotile/sg/graph.py:606-609 | the same for a built graph; so the check passes if no root reads another reachable node |
| `Ordering.RootsCanLeadIff` | iotilesensorgraph/iotile/sg/graph.py:606-609 | some topological order has all roots first if and only if there is one at all and no root needs a node that is no root |
| `Ordering.RefusedWithoutNeed` | iotilesensorgraph/iotile/sg/graph.py:606-609 | for a built graph that can be sorted: an order with the roots first exists exactly when no root has a node before it that is no root, and the check accepts only such graphs, but of these only those where every root is on a lower level or numbered lower |
| `Toposort.Flatten` | iotilesensorgraph/iotile/sg/graph.py:603 | the library's sort: a topological order, level by level and increasing within each level, or none exactly when items wait for each other in a circle |
| `Toposort.OrderHasNoDeadlock` | iotilesensorgraph/iotile/sg/graph.py:603 | where there is a topological order, no set of items waits for itself |
| `ReadingLog.ScanFindsFirst` | iotilesensorgraph/iotile/sg/walker.py:105-118 | the loop of pop ends at the first matching reading at or past the offset, or at the end |
| `ReadingLog.PopTakesFirst` | iotilesensorgraph/iotile/sg/walker.py:105-118 | on a walker in agreement with the log, pop hands out the first waiting reading and leaves the others; peek shows the same one |
| `ReadingLog.PopOfAnyWalker` | iotilesensorgraph/iotile/sg/walker.py:105-118 | pop on any walker that counts something, in agreement or not: the first matching reading from its offset on, or the end without counting, where a negative offset goes through the end of the area and then all of it |
| `ReadingLog.PopOfLostWalker` | iotilesensorgraph/iotile/sg/walker.py:105-118 | pop on a walker that counts nothing, or stands too far before the first reading, changes nothing |
| `ReadingLog.AddedKeepsSync` | iotilesensorgraph/iotile/sg/walker.py:240-250 | an added reading keeps a walker in agreement and is waiting for it if it matches |
| `ReadingLog.RolloverKeepsSyncIff` | iotilesensorgraph/iotile/sg/walker.py:252-267 | erasing the k oldest readings keeps a walker in agreement if and only if its offset is at least k and no erased reading matches it |
| `ReadingLog.DrainedWalkerFails` | iotilesensorgraph/iotile/sg/walker.py:252-267 | a walker with nothing waiting fails as soon as a reading that it matches is erased |
| `ReadingLog.ClampedRolloverKeepsSync` | iotilesensorgraph/iotile/sg/walker.py:252-267 | clamping the offset at 0 and counting only erased readings at or past it keeps every walker in agreement |
| `ReadingLog.RestoreSavedOffset` | iotilesensorgraph/iotile/sg/walker.py:85-98 | restoring a saved offset puts a walker back exactly, unless the offset was the end of the area, which is refused |
| `ReadingLog.SeekExactly` | iotilesensorgraph/iotile/sg/walker.py:120-179 | what seeking does with every offset, past the end, too far back, negative or inside: position, count and result |
| `ReadingLog.SeekIdExactly` | iotilesensorgraph/iotile/sg/walker.py:120-198 | an id is looked for from the oldest reading on, and without a reading of it nothing changes |
| `ReadingLog.SeekKeepsSyncIff` | iotilesensorgraph/iotile/sg/walker.py:120-179 | seeking leaves a walker in agreement with the log if and only if the offset is that of a reading, or past the end with the walker in agreement before |
| `ReadingLog.SeekIdFindsReading` | iotilesensorgraph/iotile/sg/walker.py:120-198 | seeking the id of a reading that no earlier one shares makes it the next reading, if the walker matches it |
| `LogRuns.WalkersAreQueues` | iotilesensorgraph/iotile/sg/sensor_log.py:322-380 | as long as no overwritten reading concerns a walker of its area, any number of walkers behaves in any run of pushes, pops, peeks, skips and creations like independent queues that lose nothing, with the same results |
| `LogRuns.FreshLogRefines` | iotilesensorgraph/iotile/sg/sensor_log.py:55-72 | an empty log stands for no queues |
| `LogRuns.OverwritingPushIff` | iotilesensorgraph/iotile/sg/sensor_log.py:361-380 | a push into a full area leaves all walkers in agreement if and only if every walker on the area is past all erased readings and matches none of them |
| `LogRuns.EraseAllEach` | iotilesensorgraph/iotile/sg/sensor_log.py:361-380 | erasing tells every walker of the area about every erased reading, and fails exactly when one is found out of step |
| `LogRuns.PushKeepsSyncIff` | iotilesensorgraph/iotile/sg/sensor_log.py:330-359 | a push that overwrites nothing leaves a walker in agreement if and only if the walker matches both the stream and what its 16-bit code stands for, or neither |
| `LogRuns.WideIdLosesSync` | iotilesensorgraph/iotile/sg/sensor_log.py:330-359 | so stream id 2048 takes every walker on it out of agreement |
| `LogOutcomes.PushedWithRoom` | iotilesensorgraph/iotile/sg/sensor_log.py:330-359 | a push that finds room stores the reading at the end of its area, and exactly the walkers that match it count one more |
| `LogOutcomes.PushRefused` | iotilesensorgraph/iotile/sg/sensor_log.py:330-359 | which pushes are refused with nothing changed, and how |
| `LogOutcomes.PushedOverOldest` | iotilesensorgraph/iotile/sg/sensor_log.py:330-380 | a push that overwrites: what is stored and what each walker becomes; or where a walker is found out of step, with the oldest readings gone all the same and the walkers as erasing left them when it stopped |
| `LogOutcomes.FailedEraseAll` | iotilesensorgraph/iotile/sg/sensor_log.py:361-380 | when erasing fails, which walkers have been told about which readings, and that the one out of step has been moved back without being counted down |
| `SelectedReadings.SelectedCodes` | iotilesensorgraph/iotile/sg/stream.py:407-430 | the 16-bit codes that a selector selects: by type and id, or by type and bit 11, where "all" without a specifier also has the system stream 1024 |
| `SelectedReadings.TypesByCode` | iotilesensorgraph/iotile/sg/stream.py:64-77 | buffered, output and input streams and selectors by their type codes 0, 5 and 3 |
| `SelectedReadings.PushedAreWaiting` | iotilesensorgraph/iotile/sg/sensor_log.py:314-359 | what waits for a walker after any pushes that find room is what waited before and then exactly the pushed readings with selected codes, in order |
| `SelectedReadings.NewWaits` | iotilesensorgraph/iotile/sg/sensor_log.py:207-242 | a new walker waits for the stored readings with selected codes, or for none |
| `SelectedReadings.PopWaits` | iotilesensorgraph/iotile/sg/walker.py:105-118 | a pop hands out the first reading that waits, and fails only when none does |
| `SensorLogs.StorageEngine.CountMatching` | iotilesensorgraph/iotile/sg/engine/in_memory.py:61-88 | counts the matching readings from an offset on: none past the end, and from a negative offset those of the end and then all; fails on other selectors and offsets too far back |
| `SensorLogs.StorageEngine.Push` | iotilesensorgraph/iotile/sg/engine/in_memory.py:138-157 | stores in the area of the stream unless that is full |
| `SensorLogs.StorageEngine.Popn` | iotilesensorgraph/iotile/sg/engine/in_memory.py:183-212 | removes and returns the oldest readings, or fails |
| `SensorLogs.BufferedStreamWalker.Pop` | iotilesensorgraph/iotile/sg/walker.py:105-118 | hands out the first matching reading at or past the offset, moves behind it and counts down; fails unchanged with a count of 0 |
| `SensorLogs.BufferedStreamWalker.Peek` | iotilesensorgraph/iotile/sg/walker.py:212-226 | shows the reading that pop would hand out, without a change |
| `SensorLogs.BufferedStreamWalker.SkipAll` | iotilesensorgraph/iotile/sg/walker.py:228-238 | the walker stands at the end with nothing waiting |
| `SensorLogs.BufferedStreamWalker.SeekOffset` | iotilesensorgraph/iotile/sg/walker.py:120-179 | moves and recounts, fails past the last reading, and fails moved too far before the first one |
| `SensorLogs.BufferedStreamWalker.SeekId` | iotilesensorgraph/iotile/sg/walker.py:120-198 | moves to the first reading with the id and recounts, or fails |
| `SensorLogs.BufferedStreamWalker.NotifyAdded` | iotilesensorgraph/iotile/sg/walker.py:240-250 | counts a matching reading |
| `SensorLogs.BufferedStreamWalker.NotifyRollover` | iotilesensorgraph/iotile/sg/walker.py:252-267 | moves back, counts down for a matching reading, and fails when nothing was counted |
| `SensorLogs.SensorLog.CreateWalker` | iotilesensorgraph/iotile/sg/sensor_log.py:207-242 | a new walker at the end or at the start of its area; for a selector of other streams, none on the log |
| `SensorLogs.SensorLog.EraseBuffer` | iotilesensorgraph/iotile/sg/sensor_log.py:361-380 | removes the oldest readings of one area and tells its walkers about each, up to the first that is out of step |
| `SensorLogs.SensorLog.Push` | iotilesensorgraph/iotile/sg/sensor_log.py:314-359 | stores a buffered reading and tells its walkers; a full area is overwritten where that is allowed, or the push fails in one of three ways |
| `SensorLogs.SensorLog.Clear` | iotilesensorgraph/iotile/sg/sensor_log.py:297-312 | no readings, and all walkers at the end |
| `Streamers.HashedListReport` | iotilesensorgraph/iotile/sg/streamer.py:189-209 | a hashed list of at most m bytes holds the first min((m - 44) / 16, count) waiting readings in order, fits, reports their largest id and takes exactly them off the walker |
| `Streamers.DrainTakesFirst` | iotilesensorgraph/iotile/sg/streamer.py:193-203 | popping until a pop fails takes the first waiting readings in order |
| `Streamers.TakenIsReported` | iotilesensorgraph/iotile/sg/streamer.py:140-209 | for every format, type, size and key: the readings in the report and those still waiting are the ones that waited before if and only if it is not a synchronous individual report with something waiting |
| `Streamers.SynchronousLosesReading` | iotilesensorgraph/iotile/sg/streamer.py:176-187 | a synchronous individual report takes a reading off the walker and then fails |
| `ReportOutcomes.Refused` | iotilesensorgraph/iotile/sg/streamer.py:140-209 | which of several missing things a report fails for, for every format, with nothing taken off the walker |
| `ReportOutcomes.IndividualReport` | iotilesensorgraph/iotile/sg/streamer.py:176-187 | an individual report holds the first waiting reading, tells its id, and takes it off the walker |
| `ReportOutcomes.HashedReport` | iotilesensorgraph/iotile/sg/streamer.py:189-209 | a hashed list takes 44 bytes and 16 for each reading: it holds as many of the first waiting readings as fit and tells the largest id among them |
| `Streamers.DataStreamer.BuildReport` | iotilesensorgraph/iotile/sg/streamer.py:140-209 | gives the report that is due with its readings and largest id and leaves the walker behind them, or fails in the order of the checks |
| `Connections.AlwaysConsistent` | transport_plugins/native_ble/iotile_transport_native_ble/connection_manager.py:72-76 | in every reachable state the two tables are two indexes of the same records, and a record owes a callback exactly when it is connecting, in progress or disconnecting |
| `Connections.MovesAlongPath` | transport_plugins/native_ble/iotile_transport_native_ble/connection_manager.py:380-451 | handling an action moves the connection it is about along the documented path, or out by force, and changes no other connection |
| `Connections.EachCallbackInOnePlace` | transport_plugins/native_ble/iotile_transport_native_ble/connection_manager.py:380-451 | in any run, the callback of each request begun is in exactly one place: queued, owed by one record, called or lost; it is never called twice |
| `Connections.LostExactlyWhen` | transport_plugins/native_ble/iotile_transport_native_ble/connection_manager.py:491-524 | a callback is lost exactly when its connection is forced out during an operation that is not rpc, open_interface or close_interface |
| `Connections.OnlyUncancelableLost` | transport_plugins/native_ble/iotile_transport_native_ble/connection_manager.py:491-524 | every callback lost in a run belonged to such an operation |
| `Connections.CallbacksBelong` | transport_plugins/native_ble/iotile_transport_native_ble/connection_manager.py:337-358 | in any run every record, queued request and lost callback belongs to the request begun with it, which named this connection by one of its two keys, and for an operation this name |
| `Connections.LostRequests` | transport_plugins/native_ble/iotile_transport_native_ble/connection_manager.py:491-524 | every lost callback was given with an operation begun under a name other than the three cancelable ones |
| `Connections.ReportsAreTrue` | transport_plugins/native_ble/iotile_transport_native_ble/connection_manager.py:413-451 | a connection attempt is reported successful exactly when the connection stays, a disconnection exactly when it is gone, an operation exactly when it was finished with success |
| `ConnectionOutcomes.FinishedConnection` | transport_plugins/native_ble/iotile_transport_native_ble/connection_manager.py:413-451 | a connecting connection that finishes is told the result; both tables are the same but for it, which is idle or gone |
| `ConnectionOutcomes.FinishedDisconnection` | transport_plugins/native_ble/iotile_transport_native_ble/connection_manager.py:567-609 | a disconnecting one is told the result and is gone, or idle again |
| `ConnectionOutcomes.FinishedOperation` | transport_plugins/native_ble/iotile_transport_native_ble/connection_manager.py:673-703 | an operation in progress is told the result and the connection is idle |
| `ConnectionOutcomes.UntimelyFinish` | transport_plugins/native_ble/iotile_transport_native_ble/connection_manager.py:413-703 | a report that ends what is not going on changes nothing |
| `ConnectionOutcomes.UnknownReported` | transport_plugins/native_ble/iotile_transport_native_ble/connection_manager.py:413-703 | so does a report about a connection that is not there |
| `ConnectionOutcomes.UnknownRefused` | transport_plugins/native_ble/iotile_transport_native_ble/connection_manager.py:526-652 | a request about a connection that is not there is told false |
| `ConnectionOutcomes.ForcedOut` | transport_plugins/native_ble/iotile_transport_native_ble/connection_manager.py:491-524 | a forced out connection is gone from both tables; what its callback is told, or that it is lost, by its state and operation |
| `ConnectionOutcomes.BegunConnection` | transport_plugins/native_ble/iotile_transport_native_ble/connection_manager.py:380-411 | a connection begins when both of its ids are free, and is told false otherwise |
| `ConnectionOutcomes.BegunDisconnection` | transport_plugins/native_ble/iotile_transport_native_ble/connection_manager.py:526-545 | a disconnection begins on an idle connection, and is told false otherwise |
| `ConnectionOutcomes.BegunOperation` | transport_plugins/native_ble/iotile_transport_native_ble/connection_manager.py:634-652 | an operation begins on an idle connection, and is told false otherwise |
| `ConnectionOutcomes.Registered` | transport_plugins/native_ble/iotile_transport_native_ble/connection_manager.py:312-335 | a connection is registered as idle when both of its ids are free |
| `ConnectionOutcomes.Queued` | transport_plugins/native_ble/iotile_transport_native_ble/connection_manager.py:337-378 | what clients ask and adapters report goes to the end of the queue |
| `ConnectionOutcomes.OldestFirst` | transport_plugins/native_ble/iotile_transport_native_ble/connection_manager.py:110-136 | the worker takes the oldest action |
| `ConnectionOutcomes.NoticedInOrder` | transport_plugins/native_ble/iotile_transport_native_ble/connection_manager.py:294-310 | connections get their notices in the order in which they are looked at |
| `ConnectionOutcomes.AnsweredOnce` | transport_plugins/native_ble/iotile_transport_native_ble/connection_manager.py:110-136 | in any run, when the worker comes to a report that ends what a connection owes a callback for, that callback is called for the first and only time, with what the report says |
| `ConnectionOutcomes.OneConnectionNoticed` | transport_plugins/native_ble/iotile_transport_native_ble/connection_manager.py:294-310 | what notice an expired connection gets, by its state and operation |
| `Timeouts.StaleNotice` | transport_plugins/native_ble/iotile_transport_native_ble/connection_manager.py:110-310 | whatever happens after a timeout of request t is noticed, the notice is handled right behind the actions that were queued; it then fails another request u if and only if, through those actions, t ended and u began on the same connection as the same kind of request and has not ended |
| `Timeouts.StaleNoticeAhead` | transport_plugins/native_ble/iotile_transport_native_ble/connection_manager.py:110-310 | unless a connection is registered from outside meanwhile, the notice fails u if and only if handling what is queued before it, as it stands when the notice is queued, leaves u going on |
| `Timeouts.SecondNoticeHitsNext` | transport_plugins/native_ble/iotile_transport_native_ble/connection_manager.py:110-310 | it does happen: with other actions queued, a client that begins the next rpc between two looks of the worker at an expired one gets that next rpc failed |
| `ConnectionManagers.ConnectionManager.BeginConnection` | transport_plugins/native_ble/iotile_transport_native_ble/connection_manager.py:337-358 | queues the request |
| `ConnectionManagers.ConnectionManager.BeginDisconnection` | transport_plugins/native_ble/iotile_transport_native_ble/connection_manager.py:471-489 | queues the request |
| `ConnectionManagers.ConnectionManager.BeginOperation` | transport_plugins/native_ble/iotile_transport_native_ble/connection_manager.py:611-632 | queues the request |
| `ConnectionManagers.ConnectionManager.ReportEnd` | transport_plugins/native_ble/iotile_transport_native_ble/connection_manager.py:360-378 | queues a finish or an unexpected disconnect |
| `ConnectionManagers.ConnectionManager.HandleBeginConnection` | transport_plugins/native_ble/iotile_transport_native_ble/connection_manager.py:380-411 | refuses when either id is in use; else stores one connecting record under both ids, which owes the callback |
| `ConnectionManagers.ConnectionManager.HandleFinishConnection` | transport_plugins/native_ble/iotile_transport_native_ble/connection_manager.py:413-451 | does nothing unless connecting; success leaves the record idle, failure removes it, and the owed callback is told so |
| `ConnectionManagers.ConnectionManager.HandleForceDisconnect` | transport_plugins/native_ble/iotile_transport_native_ble/connection_manager.py:491-524 | removes the connection; the owed callback fails while connecting or in a cancelable operation, succeeds while disconnecting, and is lost otherwise |
| `ConnectionManagers.ConnectionManager.HandleBeginDisconnection` | transport_plugins/native_ble/iotile_transport_native_ble/connection_manager.py:526-545 | refuses unless idle; else the record is disconnecting and owes the callback |
| `ConnectionManagers.ConnectionManager.HandleFinishDisconnection` | transport_plugins/native_ble/iotile_transport_native_ble/connection_manager.py:567-609 | does nothing unless disconnecting; success removes the record, failure makes it idle again, and the owed callback is told so |
| `ConnectionManagers.ConnectionManager.HandleBeginOperation` | transport_plugins/native_ble/iotile_transport_native_ble/connection_manager.py:634-652 | refuses unless idle; else the record is in progress under the operation's name and owes the callback |
| `ConnectionManagers.ConnectionManager.HandleFinishOperation` | transport_plugins/native_ble/iotile_transport_native_ble/connection_manager.py:673-703 | does nothing unless in progress; else the record is idle and the owed callback gets the result |
| `ConnectionManagers.ConnectionManager.DoWork` | transport_plugins/native_ble/iotile_transport_native_ble/connection_manager.py:110-136 | takes the oldest action off the queue and handles it |
| `ConnectionManagers.ConnectionManager.AddConnection` | transport_plugins/native_ble/iotile_transport_native_ble/connection_manager.py:312-335 | registers an idle connection unless one of its ids is taken |
| `ConnectionManagers.ConnectionManager.CheckTimeouts` | transport_plugins/native_ble/iotile_transport_native_ble/connection_manager.py:294-310 | queues a failed finish for every expired connection in the order of the table |
| `RingQueue.FrameIsSlot` | transport_plugins/jlink/iotile_transport_jlink/jlink_background.py:459-489 | wrapped or not, byte j of the flattened frame i is byte j of slot (read + i) modulo the size |
| `RingQueue.NoneLostOrRepeated` | transport_plugins/jlink/iotile_transport_jlink/jlink_background.py:498-529 | however device and host interleave, down to single bytes, the frames taken from the ring and those still in it are the frames sent, in order; all taken frames were looked at if and only if no read failed and none was overlong |
| `RingQueue.SinksGetWhatWasSent` | transport_plugins/jlink/iotile_transport_jlink/jlink_background.py:481-496 | with both interfaces open and no failure, the trace and the report parser get exactly the payload of the frames sent, as far as taken |
| `DeviceFrames.HandedByHeader` | transport_plugins/jlink/iotile_transport_jlink/jlink_background.py:481-496 | where the bytes after a header go, and how many: the trace with bit 6, else the report parser with bit 7, if open |
| `DeviceFrames.OverlongStops` | transport_plugins/jlink/iotile_transport_jlink/jlink_background.py:481-496 | a frame that claims more than 20 bytes is not handed out, nor is any after it |
| `DeviceFrames.MessagesComeOut` | transport_plugins/jlink/iotile_transport_jlink/jlink_background.py:481-529 | frames that a device makes of messages come out as the joined payloads of the trace messages and of the other stream messages, up to the one to which the host has polled |
| `RingRounds.MessageSent` | transport_plugins/jlink/iotile_transport_jlink/jlink_background.py:459-489 | unless the queue is full, writing a frame byte by byte and moving the index sends it |
| `RingRounds.FullRefuses` | transport_plugins/jlink/iotile_transport_jlink/jlink_background.py:459-489 | when the queue is full nothing is sent |
| `RingRounds.OtherSteps` | transport_plugins/jlink/iotile_transport_jlink/jlink_background.py:498-529 | an empty queue is not read; interfaces open and close at any time |
| `RingRounds.PollTakesAll` | transport_plugins/jlink/iotile_transport_jlink/jlink_background.py:498-529 | a whole poll takes all waiting frames, hands them out in order and leaves the queue empty |
| `RingRounds.FailedReadLoses` | transport_plugins/jlink/iotile_transport_jlink/jlink_background.py:498-529 | a failed read loses what was waiting up to the index that the host saw, and no more |
| `RingQueue.PublishKeeps` | transport_plugins/jlink/iotile_transport_jlink/jlink_background.py:510-529 | the device may publish frames between any two reads of the host |
| `RingQueue.ReadKeeps` | transport_plugins/jlink/iotile_transport_jlink/jlink_background.py:474-479 | every byte that the host reads of a waiting frame is current |
| `RingQueue.HandOutKeeps` | transport_plugins/jlink/iotile_transport_jlink/jlink_background.py:481-496 | the frames up to the first overlong one are handed out, in order |
| `RingQueue.CutOfBytes` | transport_plugins/jlink/iotile_transport_jlink/structures.py:76-81 | the joined blocks cut into frames are the slots of the ring |
| `RingRounds.MemoryLayout` | transport_plugins/jlink/iotile_transport_jlink/structures.py:70-82 | where indices, size and frames are in the memory, byte by byte |
| `RingQueue.AsyncJLink.ReadFrames` | transport_plugins/jlink/iotile_transport_jlink/jlink_background.py:459-479 | reads the frames in one block, or in two when they wrap around |
| `RingQueue.AsyncJLink.ReadQueueFrames` | transport_plugins/jlink/iotile_transport_jlink/jlink_background.py:459-496 | hands out the live frames in order; fails exactly when one is overlong |
| `RingQueue.AsyncJLink.HandFrame` | transport_plugins/jlink/iotile_transport_jlink/jlink_background.py:481-496 | gives the payload to the trace or else to the report parser, if open |
| `RingQueue.AsyncJLink.PollQueueStatus` | transport_plugins/jlink/iotile_transport_jlink/jlink_background.py:498-529 | an uninterrupted poll empties the ring, and hands its frames out if the memory can be read |
| `PacketQueues.SortIsStable` | transport_plugins/awsiot/iotile_transport_awsiot/packet_queue.py:58-59 | the sort is ordered and keeps the order of equal numbers |
| `PacketQueues.DeliveredInStep` | transport_plugins/awsiot/iotile_transport_awsiot/packet_queue.py:48-76 | whatever arrives, the numbers delivered since the last reset are consecutive and end just before the expected one |
| `PacketQueues.CompleteIff` | transport_plugins/awsiot/iotile_transport_awsiot/packet_queue.py:48-70 | when all numbers from the first arrival up to a bound arrive, all are delivered if and only if none but the last is repeated while a smaller one is missing |
| `PacketQueues.InOrderExactlyOnce` | transport_plugins/awsiot/iotile_transport_awsiot/packet_queue.py:48-70 | when each number comes once and the first comes first, delivery is exactly the sent order |
| `PacketQueues.FlowingOrBlocked` | transport_plugins/awsiot/iotile_transport_awsiot/packet_queue.py:48-70 | the queue either holds exactly what is ahead of the expected number, or is stuck at an early repetition for good |
| `PacketQueues.FirstAfterReset` | transport_plugins/awsiot/iotile_transport_awsiot/packet_queue.py:72-76 | after a reset an old packet is delivered before the new one, unless nothing with a smaller or equal number is held |
| `PacketReset.AfterReset` | transport_plugins/awsiot/iotile_transport_awsiot/packet_queue.py:48-76 | after a reset with packets still held, any new arrivals are delivered as if nothing were held if and only if a number below the first held one has not come or one is repeated early; otherwise that old packet is delivered among them |
| `PacketReset.SilentIsShort` | transport_plugins/awsiot/iotile_transport_awsiot/packet_queue.py:48-70 | this condition on the arrivals says that they do not bring an empty queue up to the first held number |
| `PacketReset.OldReplacesNew` | transport_plugins/awsiot/iotile_transport_awsiot/packet_queue.py:48-76 | with packet 2 held from before, new packets 0, 1 and 2 are delivered as new 0, new 1 and old 2 |
| `ArrivalOutcomes.ArrivedExactly` | transport_plugins/awsiot/iotile_transport_awsiot/packet_queue.py:33-72 | what one arrival makes of a queue: dropped with a number in the past, else put in its place, and delivered are as many of the first held packets as follow each other from the expected number on |
| `ArrivalOutcomes.RunAfterReset` | transport_plugins/awsiot/iotile_transport_awsiot/packet_queue.py:74-76 | after any run, a reset forgets the expected number only: what comes after it is delivered as by a queue that holds what was held and has delivered nothing |
| `ArrivalOutcomes.DeliveredAfterAnyReset` | transport_plugins/awsiot/iotile_transport_awsiot/packet_queue.py:48-76 | in any run, packets held at a reset make no difference to what is delivered after it if and only if the new arrivals do not bring an empty queue up to the first of them |
| `PacketQueues.AlwaysSorted` | transport_plugins/awsiot/iotile_transport_awsiot/packet_queue.py:58-59 | what is held back is always ordered |
| `PacketQueues.PacketQueue.Receive` | transport_plugins/awsiot/iotile_transport_awsiot/packet_queue.py:33-70 | drops a past number, else puts the packet in order and delivers while the first held is the expected one; without reordering it delivers at once |
| `PacketQueues.PacketQueue.Reset` | transport_plugins/awsiot/iotile_transport_awsiot/packet_queue.py:72-76 | forgets the expected number only |
| `PacketQueues.PacketQueue.SortHeld` | transport_plugins/awsiot/iotile_transport_awsiot/packet_queue.py:59 | sorts what is held back by number, stably |
| `Mqtt.TopicSequencer.NextId` | transport_plugins/awsiot/iotile_transport_awsiot/topic_sequencer.py:16-35 | 0 at first, then one more each time, per topic |
| `Mqtt.NumberedPerTopic` | transport_plugins/awsiot/iotile_transport_awsiot/mqtt_client.py:124-165 | what is published on a topic goes out numbered from 0 on, whatever is published on others |
| `Mqtt.TopicsAreIndependent` | transport_plugins/awsiot/iotile_transport_awsiot/mqtt_client.py:222-261 | the queue of a topic is what it would be without the events of other topics |
| `Mqtt.ChannelTakes` | transport_plugins/awsiot/iotile_transport_awsiot/mqtt_client.py:247-261 | a subscription, exact or by wildcard, feeds exactly the topic's packets to one ordered queue, whatever that already holds |
| `Mqtt.DeliveredAsPublished` | transport_plugins/awsiot/iotile_transport_awsiot/mqtt_client.py:138-163 | what a subscriber gets on a topic is a prefix of what was published; all of it if and only if all came and none but the last was repeated while held back |
| `Mqtt.DeliveredAfterReset` | transport_plugins/awsiot/iotile_transport_awsiot/mqtt_client.py:194-206 | for an ordered topic that is reset: what is delivered from then on is a prefix of what is published from then on when no old packet gets in between, which is exactly known from the arrivals and what was held; else an old packet is delivered among it |
| `Mqtt.HandedOutAsArrived` | transport_plugins/awsiot/iotile_transport_awsiot/packet_queue.py:48-51 | an unordered subscription, exact or by wildcard, hands out the packets of a topic exactly as they arrive, and resets have no effect on it |
| `PublisherRestart.SentAfterReconnect` | transport_plugins/awsiot/iotile_transport_awsiot/mqtt_client.py:110 | what is published after connecting again goes out numbered as if nothing had been published before |
| `PublisherRestart.DropsBelow` | transport_plugins/awsiot/iotile_transport_awsiot/packet_queue.py:48-76 | a queue that expects number n does with any packets what it does with those of them from n on |
| `PublisherRestart.DeliveredAfterRestart` | transport_plugins/awsiot/iotile_transport_awsiot/mqtt_client.py:110-261 | after a publisher restarts, an ordered queue that was not reset and expects n behaves as if the messages below n had not been sent; holding nothing, it delivers a prefix of those from n on, and all of them exactly when none but the last is repeated while held back; when they arrive in order exactly the first n are lost |
| `Mqtt.AlwaysOrdered` | transport_plugins/awsiot/iotile_transport_awsiot/mqtt_client.py:222-261 | in any run of a client all its queues hold their packets in order |
| `Subscriptions.FirstWildcard` | transport_plugins/awsiot/iotile_transport_awsiot/mqtt_client.py:238-261 | of the wildcards that cover a topic the one subscribed first counts |
| `Subscriptions.Subscribing` | transport_plugins/awsiot/iotile_transport_awsiot/mqtt_client.py:165-220 | what subscribing, unsubscribing and resetting change, and that they change nothing else |
| `Subscriptions.Receiving` | transport_plugins/awsiot/iotile_transport_awsiot/mqtt_client.py:222-261 | a message goes to its topic's queue and to no other; without one, to a new queue for the first wildcard that covers the topic; and nowhere when none does |
| `Mqtt.OrderedClient.OnReceive` | transport_plugins/awsiot/iotile_transport_awsiot/mqtt_client.py:222-261 | routes a message to the topic's queue, making it from the first matching wildcard if needed |
| `Mqtt.OrderedClient.SubscribeTopic` | transport_plugins/awsiot/iotile_transport_awsiot/mqtt_client.py:186-187 | a fresh queue for the topic |
| `Mqtt.OrderedClient.ResetTopic` | transport_plugins/awsiot/iotile_transport_awsiot/mqtt_client.py:194-206 | resets the queue of a known topic |
| `Mqtt.OrderedClient.UnsubscribeTopic` | transport_plugins/awsiot/iotile_transport_awsiot/mqtt_client.py:208-220 | forgets the queue; unknown topics are reported |
| `Supervision.LogIsLastRuns` | iotilegateway/iotilegateway/supervisor/states.py:192-220 | the bounded log is the last five runs of equal lines ever posted, each with its length and the level of its first line; the headline is the last run |
| `Supervision.RunsCountAll` | iotilegateway/iotilegateway/supervisor/states.py:192-200 | the lengths of all runs add up to the number of lines posted |
| `Supervision.PostIsTidy` | iotilegateway/iotilegateway/supervisor/states.py:192-200 | neighbouring messages have different texts |
| `Supervision.RebuildIsSame` | iotilegateway/iotilegateway/supervisor/client.py:187-188 | posting the stored messages again with their counts gives the same log |
| `Supervision.SnapshotAgrees` | iotilegateway/iotilegateway/supervisor/client.py:168-192 | a copy of a quiescent server agrees with it, with ids by registration order |
| `Supervision.StepAgrees` | iotilegateway/iotilegateway/supervisor/client.py:411-491 | an operation and the event it causes keep server and client in agreement |
| `Supervision.AlwaysInSync` | iotilegateway/iotilegateway/supervisor/service_manager.py:73-134 | after a snapshot, in any run with events in flight, the client agrees with the server whenever all events have arrived |
| `ServiceOutcomes.MessagePosted` | iotilegateway/iotilegateway/supervisor/service_manager.py:214-227 | the log after a message, by the last text and the length, and what is told; nothing for an unknown service |
| `ServiceOutcomes.HeadlineChanged` | iotilegateway/iotilegateway/supervisor/service_manager.py:229-244 | the headline after it is set, by the one before, and what is told |
| `ServiceOutcomes.ServiceRegistered` | iotilegateway/iotilegateway/supervisor/service_manager.py:103-134 | a new service is the last one, in state 4 (unknown), without headline and messages |
| `ServiceOutcomes.StateUpdated` | iotilegateway/iotilegateway/supervisor/service_manager.py:73-101 | a state from 0 to 4 is stored for a known service, and told if it is new |
| `ServiceOutcomes.ToldOfMessage` | iotilegateway/iotilegateway/supervisor/client.py:411-491 | what a message makes of a client's copy: the same change as on the server, and of no other field |
| `ServiceOutcomes.ToldOfHeadline` | iotilegateway/iotilegateway/supervisor/client.py:411-491 | the same for a headline |
| `ServiceOutcomes.ToldOfState` | iotilegateway/iotilegateway/supervisor/client.py:411-491 | the same for a state, if it is known |
| `ServiceOutcomes.ToldOfService` | iotilegateway/iotilegateway/supervisor/client.py:429-447 | a new service gets the next number, in state 4, without headline and messages |
| `ServiceOutcomes.FlightInOrder` | iotilegateway/iotilegateway/supervisor/service_manager.py:73-134 | events reach a client in the order in which the operations caused them |
| `Supervisors.ServiceState.PostMessage` | iotilegateway/iotilegateway/supervisor/states.py:177-200 | counts a repetition or appends to the log of at most five; returns the stored message |
| `Supervisors.ServiceState.SetHeadline` | iotilegateway/iotilegateway/supervisor/states.py:202-220 | counts a repetition or replaces the headline |
| `Supervisors.ServiceManager.UpdateState` | iotilegateway/iotilegateway/supervisor/service_manager.py:73-101 | changes the state and tells it, only if it is new; refuses unknown names and states |
| `Supervisors.ServiceManager.AddService` | iotilegateway/iotilegateway/supervisor/service_manager.py:103-134 | registers a service unless the name is taken, and tells it unless asked not to |
| `Supervisors.ServiceManager.AddExpected` | iotilegateway/iotilegateway/supervisor/service_manager.py:26-35 | registers the expected services without telling, up to the first name that is taken |
| `Supervision.UntoldServiceIsMissing` | iotilegateway/iotilegateway/supervisor/service_manager.py:103-134 | clients that agreed still agree after an untold registration if and only if it was refused |
| `Supervisors.ServiceManager.SendMessage` | iotilegateway/iotilegateway/supervisor/service_manager.py:214-227 | posts and tells the stored message |
| `Supervisors.ServiceManager.SetHeadline` | iotilegateway/iotilegateway/supervisor/service_manager.py:229-244 | sets and tells the stored headline |
| `Supervisors.SupervisorClient.OnEvent` | iotilegateway/iotilegateway/supervisor/client.py:411-491 | applies an event to the copy; events about unknown services are ignored, and a change to an unknown state fails |
| `Supervisors.SupervisorClient.OnServiceAdded` | iotilegateway/iotilegateway/supervisor/client.py:429-447 | a new service gets the next number |
| `Supervisors.SupervisorClient.CopyService` | iotilegateway/iotilegateway/supervisor/client.py:178-190 | builds the copy of one service |
| `Supervisors.SupervisorClient.SyncServices` | iotilegateway/iotilegateway/supervisor/client.py:168-192 | rebuilds all services of the server with their positions as ids |
| `Framing.NothingLost` | transport_plugins/bled112/iotile_transport_bled112/async_packet.py:64-102 | in any run of reads, with stops and failures, the packets seen, the unfinished one and the unread bytes are the input, and the queue holds the packets that pass the filter, but for the last one when a stop comes between the filter and the queue |
| `Framing.ReadsAsParsed` | transport_plugins/bled112/iotile_transport_bled112/async_packet.py:66-98 | when all was read, the packets are those that the byte stream means, however it was split |
| `Framing.PacketsComeOut` | transport_plugins/bled112/iotile_transport_bled112/async_packet.py:66-98 | a stream of framed packets comes out as exactly these packets |
| `Framing.ParseJoined` | transport_plugins/bled112/iotile_transport_bled112/bled112.py:34-40 | parsing undoes joining framed packets |
| `Framing.OnlyRepetitionsDropped` | transport_plugins/bled112/iotile_transport_bled112/async_packet.py:89-98 | with the filter on, only repetitions of the packet last forwarded are missing |
| `PacketBytes.LengthInHeader` | transport_plugins/bled112/iotile_transport_bled112/bled112.py:34-40 | when bytes are a whole packet or a beginning of one, by the first two of them |
| `PacketBytes.MessagesComeOut` | transport_plugins/bled112/iotile_transport_bled112/async_packet.py:66-98 | packets made of any flags and payloads up to 1023 bytes come out as they were made, however the port splits their bytes |
| `PacketBytes.ReadMoves` | transport_plugins/bled112/iotile_transport_bled112/async_packet.py:66-86 | a read moves exactly the next bytes: as many as are missing, but no more than the port gives or has |
| `PacketBytes.BrokenRead` | transport_plugins/bled112/iotile_transport_bled112/async_packet.py:66-86 | a port that fails ends the reader, with a packet that says so |
| `PacketBytes.PacketSettled` | transport_plugins/bled112/iotile_transport_bled112/async_packet.py:86-98 | what becomes of a whole packet: queued, dropped, or not sent because the reader was told to stop |
| `Framing.PacketReader.Read` | transport_plugins/bled112/iotile_transport_bled112/async_packet.py:66-86 | one read of the port takes at most the missing bytes, queues the failure packet when the port fails, and notes a stop |
| `Framing.PacketReader.ReaderThread` | transport_plugins/bled112/iotile_transport_bled112/async_packet.py:57-102 | the nested loops leave queue, unread bytes and status exactly as the run of all reads does |
| `Framing.PacketReader.Process` | transport_plugins/bled112/iotile_transport_bled112/async_packet.py:89-98 | queues a whole packet unless the filter drops it or the reader was stopped meanwhile |
| `Dedupe.DroppedRepeatsForwarded` | transport_plugins/bled112/iotile_transport_bled112/broadcast_v2_dedupe.py:43-100 | a packet is only dropped if it repeats, from byte 22 on, the packet of its sender and stream that was forwarded last, at most the interval before, across evictions; never more than 500 memories |
| `Dedupe.DroppedExactlyWhen` | transport_plugins/bled112/iotile_transport_bled112/broadcast_v2_dedupe.py:43-100 | a broadcast is dropped if and only if fewer than 500 memories were made since that of its key and it repeats the packet last forwarded for the key within the interval |
| `Dedupe.RemembersLastMade` | transport_plugins/bled112/iotile_transport_bled112/broadcast_v2_dedupe.py:43-71 | in any run the keys remembered are the last 500 for which a memory was made |
| `Dedupe.AllRemembered` | transport_plugins/bled112/iotile_transport_bled112/broadcast_v2_dedupe.py:57-71 | as long as at most 500 keys were seen, all of them are remembered |
| `Dedupe.AlwaysFaithful` | transport_plugins/bled112/iotile_transport_bled112/broadcast_v2_dedupe.py:43-71 | each memory is that of the packet forwarded last for its key, and keys are distinct |
| `BroadcastBytes.BytesThatCount` | transport_plugins/bled112/iotile_transport_bled112/broadcast_v2_dedupe.py:46-55 | broadcasts, senders with streams, and contents by the indices of their bytes: 46 bytes with given values at 2 to 6, 22 to 26 and 36 to 38, and 22 to the end |
| `BroadcastBytes.DroppedBytes` | transport_plugins/bled112/iotile_transport_bled112/broadcast_v2_dedupe.py:43-100 | a dropped packet is a broadcast equal from byte 22 on to the one last forwarded with the same bytes 22 to 26 and 36 to 38, within the interval |
| `BroadcastBytes.NewBytesPass` | transport_plugins/bled112/iotile_transport_bled112/broadcast_v2_dedupe.py:43-100 | so one that differs in any byte from 22 on always passes |
| `BroadcastBytes.RepetitionDropped` | transport_plugins/bled112/iotile_transport_bled112/broadcast_v2_dedupe.py:43-100 | and a repetition in time is dropped as long as at most 500 keys were seen |
| `Dedupe.BroadcastV2Deduper.AllowPacket` | transport_plugins/bled112/iotile_transport_bled112/broadcast_v2_dedupe.py:92-100 | passes a packet that is new or late, and then remembers it |
| `Dedupe.BroadcastV2DeduperCollection.AllowPacket` | transport_plugins/bled112/iotile_transport_bled112/broadcast_v2_dedupe.py:43-64 | lets other packets pass; finds or makes the memory of a broadcast's key and asks it |
| `Dedupe.BroadcastV2DeduperCollection.EvictOldestDeduper` | transport_plugins/bled112/iotile_transport_bled112/broadcast_v2_dedupe.py:66-71 | forgets the memory that was made first |
| `Fragments.ChunksCover` | transport_plugins/awsiot/iotile_transport_awsiot/device_adapter.py:162-171 | the fragments reach the end of the script, and none is superfluous |
| `FragmentOutcomes.CutExactly` | transport_plugins/awsiot/iotile_transport_awsiot/device_adapter.py:162-177 | a script is cut into the least number of fragments, and at least one; the bytes, index and count of each |
| `FragmentOutcomes.FragmentTaken` | transport_plugins/awsiot/iotile_transport_awsiot/gateway_agent.py:324-340 | what one fragment makes of what has been gathered, whatever its index and count |
| `FragmentOutcomes.SendEnds` | transport_plugins/awsiot/iotile_transport_awsiot/gateway_agent.py:339-345 | a send that ends clears what has been gathered, unless it raised an error |
| `Fragments.ScriptSender.SendScript` | transport_plugins/awsiot/iotile_transport_awsiot/device_adapter.py:162-177 | publishes the fragments of a script in order, numbered from 0 with their total |
| `Fragments.ScriptReceiver.ReceiveFragment` | transport_plugins/awsiot/iotile_transport_awsiot/gateway_agent.py:324-340 | starts anew at fragment 0, appends, and passes the script on at the last fragment, where it waits for the device |
| `Fragments.ScriptReceiver.FinishSend` | transport_plugins/awsiot/iotile_transport_awsiot/gateway_agent.py:339-345 | when the device has answered, clears what has been gathered by then; keeps it when sending raised an error |
| `Fragments.PassedOn` | transport_plugins/awsiot/iotile_transport_awsiot/gateway_agent.py:324-345 | however fragments come and sends end, each last fragment passes on exactly one script: what came since the last fragment 0, or since a send that ended later |
| `Fragments.PassedOnIff` | transport_plugins/awsiot/iotile_transport_awsiot/gateway_agent.py:324-345 | so these scripts and no others are passed on if and only if that many last fragments come and what has been collected at each is the script in its place |
| `Fragments.ScriptPassedOnIff` | transport_plugins/awsiot/iotile_transport_awsiot/gateway_agent.py:324-345 | the fragments of a script come in any order, any of them repeated or missing, and sends end at any time: exactly the script is passed on if and only if its last fragment comes once and what came since the last fragment 0, or since a send that ended later, carries all the chunks in order |
| `Fragments.ArrivalsPassedOnIff` | transport_plugins/awsiot/iotile_transport_awsiot/gateway_agent.py:324-340 | the same by positions when no send ends meanwhile: from the last fragment 0 up to the only last fragment come all the chunks, each once and in order |
| `Fragments.SwappedFragments` | transport_plugins/awsiot/iotile_transport_awsiot/gateway_agent.py:324-340 | fragments 0, 2 and 1 of three bytes pass on the first and the third |
| `Fragments.RepeatedFragment` | transport_plugins/awsiot/iotile_transport_awsiot/gateway_agent.py:324-345 | fragments 0, 1 and 1 again of x, y pass on x, y and then y, or x, y, y while the first is still being sent |
| `Uploads.UploadArrives` | transport_plugins/awsiot/iotile_transport_awsiot/gateway_agent.py:324-345 | the fragments of a script come in order: it is passed on, once, if and only if no send ends without an error between its first and its last fragment, whatever was left of an abandoned upload |
| `Uploads.UploadAloneArrives` | transport_plugins/awsiot/iotile_transport_awsiot/gateway_agent.py:324-345 | so an upload that begins when nothing is being sent always arrives |
| `Uploads.OnlyWholeUploadsArrive` | transport_plugins/awsiot/iotile_transport_awsiot/gateway_agent.py:324-345 | of any uploads one after the other, each broken off anywhere or not at all, exactly the whole ones are passed on, in order, if and only if no send ends without an error between the first and the last fragment of a whole one |
| `Uploads.ClearedByEarlierSend` | transport_plugins/awsiot/iotile_transport_awsiot/gateway_agent.py:339-342 | script a is being sent when the first fragment of b0, b1 comes and ends before the second: a and b1 are passed on |
| `ScriptDelivery.ScriptArrivesIff` | transport_plugins/awsiot/iotile_transport_awsiot/gateway_agent.py:116-345 | a script sent on the topic of the gateway's unordered subscription, over a network that loses, repeats and reorders: it is passed on, and nothing else, exactly under the condition of `ScriptPassedOnIff` on what arrives |
| `ScriptDelivery.ScriptsArrive` | transport_plugins/awsiot/iotile_transport_awsiot/gateway_agent.py:116-345 | scripts sent on this topic, some broken off, over any network: exactly the whole ones are passed on, in order, under the condition of `PassedOnIff`, which for a network that keeps the packets of the topic as they were sent is that of `OnlyWholeUploadsArrive` |
| `ScriptDelivery.OrderedScriptsArrive` | transport_plugins/awsiot/iotile_transport_awsiot/packet_queue.py:48-76 | with an ordered subscription, which the gateway does not make, a network may also reorder and repeat packets |
| `ScriptSending.EveryScriptAccountedFor` | transport_plugins/bled112/iotile_transport_bled112/bled112_cmd.py:520-544 | in any run with other scripts in between, a script is either waiting to go on exactly where its writes stopped, or was reported once: as done with exactly its bytes written, or as failed |
| `ScriptSending.BackPressureOnlyDelays` | transport_plugins/bled112/iotile_transport_bled112/bled112_cmd.py:530-544 | in any run with other scripts and any number of rejections, a script is reported done exactly when as many of its own writes were taken as it has pieces, and while it is queued it goes on after these |
| `ScriptSending.OneGoesOn` | transport_plugins/bled112/iotile_transport_bled112/bled112_cmd.py:530-544 | a handled command goes on behind the others or ends its script |
| `ScriptProgress.OldestIsHandled` | transport_plugins/bled112/iotile_transport_bled112/bled112_cmd.py:520-544 | the oldest command is handled: the next 20 bytes of its script or what is left, and what is queued and reported after that, for each answer of the device |
| `ScriptProgress.SubmittedWaits` | transport_plugins/bled112/iotile_transport_bled112/bled112_cmd.py:34-80 | a script that is submitted waits behind the other commands |
| `ScriptProgress.QueueEmpties` | transport_plugins/bled112/iotile_transport_bled112/bled112_cmd.py:34-80 | as long as no write fails, the queue becomes empty exactly when as many writes have been taken as all scripts in it need, however many are rejected |
| `ScriptSending.CommandProcessor.SendNext` | transport_plugins/bled112/iotile_transport_bled112/bled112_cmd.py:520-544 | writes one piece of at most 20 bytes; queues the same position again on a rejection and the next one on success; reports at the end or on a failure |
| `ScriptSending.CommandProcessor.Process` | transport_plugins/bled112/iotile_transport_bled112/bled112_cmd.py:34-80 | takes commands off the queue in order, and calls the callback of those that end |

## Left out

- SensorGraphs.SensorGraph.AddNode: of the connections that a failed call leaves, only where they can lead is stated, not how many there are.
- SensorGraphs.SensorGraph.ProcessInput: which nodes fire and produce results is a parameter; triggers, processing functions, the pushes into the log and functions that raise are not modelled.
- SensorGraphs.SensorGraph.SortNodes: adding nodes after sorting is not covered, as the list then no longer follows the order of adding.
- CircularGraph.SortingRejects: one graph; `DeadlockIffCircle` has all of them.
- MisplacedRoots.SortingRefuses: one graph; `RefusedWithoutNeed` has all of them.
- LogRuns.WalkersAreQueues: the condition on overwritten readings is on the walkers' offsets; `OverwritingPushIff` says that without it a walker is out of step or the push fails.
- SensorLogs.SensorLog.Push: monitors, virtual walkers and last values, which it also updates, are not modelled.
- SensorLogs.SensorLog.Clear: virtual walkers and last values, which it also resets, are not modelled.
- ConnectionManagers.ConnectionManager.DoWork: arguments of callbacks, contexts, synchronous requests, the stop action and failing on keys of other types are not modelled.
- ConnectionManagers.ConnectionManager.CheckTimeouts: which connections have expired, and the order of the table, are parameters.
- Connections.MovesAlongPath: the AWS IoT manager has the same actions, states and tables and keeps the callback in the record instead of the action; it is not modelled a second time.
- RingQueue.AsyncJLink.PollQueueStatus: a queue of size 0, which the code polls without moving the index, and reads of the indices that fail are not modelled; the device's half is the usual producer that keeps one slot free, as its code is not part of this repository.
- RingQueue.NoneLostOrRepeated: the clearing of the queue, which writes both indices while the device may publish, is not modelled.
- Mqtt.OrderedClient.OnReceive: the topics that a wildcard matches are a set, and the JSON text of a message is given decoded or not; the regular expression and the JSON format are not modelled. Callbacks do not raise or call back.
- Mqtt.OrderedClient.UnsubscribeTopic: the error for an unknown topic is a result.
- Supervision.AlwaysInSync: heartbeats, message ids, times and headline counts are not copied by the client and not compared; snapshots of a server that changes meanwhile are not covered.
- Supervisors.SupervisorClient.SyncServices: the single requests of a snapshot are one value, as the server does not change.
- Framing.PacketReader.ReaderThread: a stop is given with the read after which it is noticed.
- Dedupe.DroppedRepeatsForwarded: clock values are real numbers, without rounding.
- Fragments.ScriptReceiver.ReceiveFragment: base64, keys and progress reports are left out. The empty list that a new connection starts with is the empty script; a connection that is closed and made again is a new one.
- Mqtt.DeliveredAfterReset: about users of the client that reset an ordered topic; this repository resets only topics that it subscribes unordered.
- PublisherRestart.DeliveredAfterRestart: for a queue that still holds packets from before the restart, only what it takes and drops is stated; `AfterReset` has the case of a queue that is reset as well.
- ScriptSending.CommandProcessor.SendNext: other commands of the processor, the pause before a repetition and progress reports are left out.
- NodeText.TextRoundTrip: the text is a sequence of tokens; how characters are cut into tokens, hexadecimal numbers and names glued together without blanks are not modelled. Only stream types with a printable name are accepted, as printing others fails.
- PrintedTexts.NumbersRead: decimal numbers only, as for `StreamRoundTrip`.
- PrintedTexts.StreamsRead: decimal numbers only, likewise.
- NodeGrammar.NodesRead: on tokens and decimal numbers, as for `TextRoundTrip`.
- StreamText.StreamRoundTrip: parsing takes decimal numbers only; hexadecimal, octal and binary notation and underscores are not modelled. White space is blank, tab and line ends.
- Streamers.DataStreamer.BuildReport: report encoding, signatures and report times are left out.
- Virtual, counter and invalid walkers, monitors, the last values and dumps of whole logs: their state is a queue, a counter or a map with nothing shared.
- `check_streamers`, RPC tables of the service manager, checksums, configuration, recipes and cloud code: easy or not part of these protocols.
