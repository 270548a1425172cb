# A verified model of directed-route InfiniBand discovery

The repository discovers an InfiniBand fabric with directed-route subnet management packets: a client
that can only ask "which node, which port, which state is at the end of this path of port numbers?"
builds a picture of the nodes, their ports and the cables between them. It also holds a simulator that
answers such packets for a fabric it knows.

This project models both sides and the bytes between them, and proves what the picture has to do with
the fabric.

| module | what it models |
|---|---|
| `Prelude` | machine integers, options, results, powers of two |
| `Bitfield` | the MSB-first bitfield accessors, on bits, and their nine-byte window arithmetic |
| `PortInfo` | the 54-field PortInfo attribute as a store of fields over 64 bytes |
| `MadLayout` | the packed structures and the requests built from them |
| `Simulator` | the fabric, its cabling, the path walk and the replies |
| `RoundTrip` | a query from its bytes to its answer's bytes and back |
| `Topology` | the client's picture: nodes, ports, links, registry, work list, paths |
| `Search` | the measure of termination, and why the picture stays true |
| `ShortestPaths` | why breadth-first search finds everything, by shortest paths, and links it |
| `PortTable` | decoding of attributes, port tables and LIDs |
| `Fabrics` | fabrics wired with `connect_ports` meet the hypotheses, and a channel that loses nothing |
| `StandardFabric` | `build_standard_fabric`, whose cabling is not symmetric |
| `Arrival`, `NvLink` | what one step of either traversal keeps |
| `Explored` | what the traversals keep whoever answers: where records come from, what became of each port, hop counts |
| `RingExplored` | the same of the NVLink traversal, and the links around the switches it expands |
| `Discovery` | the client `Fabric` and its two traversals |
| `Examples` | fabrics on which discovery leaves a node out or gives up |
| `Transaction` | transaction ids, retries, matching of replies |
| `AsyncDiscovery` | the asynchronous client: three tasks and a map of outstanding requests |

## Main results

* `Discovery.Fabric.SeqDiscover`. Whoever answers, and whatever is lost, discovery ends with a consistent
  registry whose records are made of answers alone. It gives up only over an answer about the agent's own
  node; otherwise no port is left alone without a cause. The neighbour behind each live port of the agent's
  node is known, or a query about it failed. Each live port of any other switch is linked, or its path has no
  room for a hop, or a query about the node behind it failed, or that node does not tell of the port it was
  entered by. Every query carries the hop count of its path, and the counters add up: each request that went
  out was answered, met a receive with nothing to give, or is counted in `mad_timeouts`, those about ports
  twice. If answers are true or missing, every record is true in its GUID, type, entry port, states and LIDs,
  and if cabling is symmetric and GUIDs are distinct every link is true, links are symmetric, and no step
  undoes a link. If moreover every query is answered, it succeeds exactly when the agent's own node can be
  recorded, and the nodes found are exactly those some route leads to within the 64-byte path, each by a path
  no route undercuts. A route runs over live cabled ports, through switches, and over nodes a client can
  record: those whose type and whose ports' states are among the codes it knows. So everything within reach is
  found if and only if all of it can be recorded (`ShortestPaths.ReadableFound`;
  `Examples.NeighbourUnreadable` is a fabric where it cannot). A live port of a switch searched is linked
  exactly when its cable ends at a port its node tells the client about: one numbered up to `nports`, or port
  0 of a switch that answers for port 1.
* `Discovery.Fabric.SeqDiscoverNvlink` has the same truth of records and links, even when it gives up, which
  it does only over an answer. Whoever answers, each switch one hop out and each switch first met over a ring
  port is expanded: its ring ports are followed and its other live ports probed, so that each is linked or
  left for one of the causes above. When every query is answered its records are complete, every live port
  around such a switch is linked if the path has room and the cable ends at a port its node tells of
  (`RingExplored.AllLinkedAround`), and one turn fails if and only if the port followed was not linked, its
  path had fewer than 63 hops by `get_hop_count`, and its cable ends at a port its node does not tell of
  (`VisitNvlink`); `Examples.RingPortGivesUp` is such a turn.
* What remains as a hypothesis: that the fabric is symmetric and its GUIDs distinct, for links and for
  completeness; that replies are genuine, for truth; and that the channel is prompt (no send fails, and every
  query with an answer gets its reply during its call), for completeness. `Fabrics.BuiltIsDiscoverable` shows
  that wiring new ports one cable at a time gives such a fabric, `Fabrics.AskAll` that a requester over a port
  that answers in order is genuine and prompt. The repository's own `build_standard_fabric` connects ports it
  has connected before, and its cabling is not symmetric (`StandardFabric.BuildStandardFabric`): of a
  discovery of it the truth of records is proved, not that of links.
* `Transaction.Requester.Transact`. Over a channel that drops, delays, duplicates, reorders and rewrites the
  upper half of transaction ids, any answer accepted is the true answer to the very query asked, as long as no
  reply outlives 2^32 - 1 requests; and over a prompt channel nothing that could be answered stays open. Each
  wait that ends in a counted timeout lasts its timeout, doubled from wait to wait, and no longer if receives
  keep their deadline. The discovery client asks through it, so the records of both traversals are true
  whenever `requester.genuine` holds at their end: no hypothesis on answers is left.
* `RoundTrip.RequestBytes` and `RoundTrip.QueryRoundTrip`. Every byte of a query is given; the bytes, walked
  and answered by the simulator, come back as the true attribute, with path and transaction id kept, or not at
  all, exactly when there is no true answer.
* `PortInfo.BytesRefineStore`, `PortInfo.GetLastWritten` and `PortInfo.PairLastWritten`. The 64 bytes refine a
  map from field to value under any sequence of setter calls, and each getter returns the last value written
  to its field; for the one pair of fields that share a bit, exactly when the last write to either of the two
  agrees in that bit.
* `AsyncDiscovery.Agent.Run` and `AsyncDiscovery.Session`. In any interleaving of the three tasks, while ids
  last every request is outstanding, matched once, or expired; responses never outnumber requests; each GUID
  is visited once, and asked once for its description and for each of its ports; requests stay within a budget
  of 1 and 1 + 2 for each port queried of each node visited, at most 513 a node; and the handlers fail exactly
  when a PortInfo reply for a switch comes over a path with no room left. Over genuine replies no hypothesis
  on what they echo is needed, no more nodes are visited than there are, and if each answers a request issued
  before it came, ids do last on a fabric of at most 8372255 nodes: at most 1 + 513 requests for each of its
  nodes are sent.

## How the source is modelled

* `Arc`, `Weak` and `Rc` references are indices: a port is named by its node's place in a list and its own
  place in that node's port list, so a port's parent is part of its name and `upgrade` fails exactly when an
  index is out of range. `Consistent` and `Valid` say no index is.
* The fields of the discovery client are split between two classes: `Discovery.Fabric`, which builds the
  picture, and `Transaction.Requester`, through which it asks. The requester keeps a history of what was asked
  and what was taken for an answer; true, missing and complete answers are properties of that history.
* What the channel does is arbitrary: the outcome of each send and of each receive, and how long a receive
  takes, are functions of its number. Every receive takes at least a nanosecond.
* A query is a path, an attribute and a modifier. The `hop_cnt` header byte is written into requests, and the
  history keeps it with each query; neither the simulator nor the client reads it. It is the number of hops of
  the path; but with the agent on a switch, whose `get_hop_count` leaves out the first hop, it is one less,
  except that `first_hop_discovery_ib` gives 1 to every path of one hop (`Explored.HopsFor`).
* Out-of-range bit offsets and widths panic in the source, so they are preconditions. The simulator's
  descriptions have at most 64 bytes, as its copy into the attribute area demands.
* Machine widths are explicit: transaction ids and backoff wrap at 32 bits, accumulators at 128 bits, port
  numbers and hop counts are bytes.

Where the code and its comments part, the code is followed. The NVLink traversal fills a set of visited GUIDs
that it never reads. The simulator answers PortInfo for port 0 as port 1. A reply's status is never looked at,
so that the channel delivers only genuine replies is what `genuine` stands for. The asynchronous client takes
port state 3 for Init, which is Armed; Init is 2. The comments of `build_standard_fabric` give spine ports 1
to 33 and a non-blocking fabric; its loops connect most of the ports they use more than once.

## Model

| member | source | states |
|---|---|---|
| Bitfield.GetBitfield | src/mad/helpers.rs:1-34 | for every buffer, offset and width 1..64 in range, the value of exactly bits [off, off + w), most significant first, nine-byte straddle included |
| Bitfield.SetBitfield | src/mad/helpers.rs:36-79 | the buffer becomes the one whose bits are unchanged but for [off, off + w), which hold the low bits of the value |
| Bitfield.Gather | src/mad/helpers.rs:9-12 | the 128-bit accumulator holds the window's big-endian number: nothing is shifted out |
| Bitfield.Scatter | src/mad/helpers.rs:75-78 | the window, and no byte outside it, becomes the big-endian image of the number |
| Bitfield.BitsOfWithField | src/mad/helpers.rs:59-61 | bit by bit, what a write leaves in the buffer |
| Bitfield.GetSet | src/mad/helpers.rs:1-79 | reading back a written field gives the value modulo 2^w |
| Bitfield.SetGet | src/mad/helpers.rs:1-79 | writing back what was read changes no byte |
| Bitfield.SetSet | src/mad/helpers.rs:36-79 | the last of two writes to a field wins |
| Bitfield.GetOther | src/mad/helpers.rs:1-79 | a write leaves every field that shares no bit with it as it was |
| Bitfield.SetCommutes | src/mad/helpers.rs:36-79 | writes to fields that share no bit commute |
| PortInfo.FieldsDisjoint | src/mad/port.rs:50-169 | of the 54 fields only partition_top and enhanced_qos_arbiter_enabled share a bit |
| PortInfo.SetIsAssign | src/mad/port.rs:4-14 | for every field, a setter call acts on what the getters see as one assignment to a store |
| PortInfo.BytesRefineStore | src/mad/port.rs:49-169 | over any sequence of setter calls the 64 bytes refine the store of fields |
| PortInfo.GetLastWritten | src/mad/port.rs:49-169 | after any sequence of setter calls a getter of a field outside the aliased pair returns the last value written to it, cut to its width |
| PortInfo.PairAfter | src/mad/port.rs:135-142 | and the aliased pair holds the last partition_top but for the shared bit, which is that of the last write to either |
| PortInfo.PairLastWritten | src/mad/port.rs:135-142 | a getter of the pair returns the last value written to its field if and only if the last write to either of the two agrees with it in the shared bit |
| PortInfo.AliasedPairLosesWrite | src/mad/port.rs:135-142 | clearing partition_top clears enhanced_qos_arbiter_enabled |
| PortInfo.KeepsOther | src/mad/port.rs:135-142 | a setter keeps another field exactly when the two are not the aliased pair or the shared bit does not change |
| PortInfo.PortInfoBuffer.FromBytes | src/mad/port.rs:34-47 | a buffer holding the first 64 bytes, or none exactly when there are fewer |
| PortInfo.PortInfoBuffer.Setter | src/mad/port.rs:10-12 | the in-place setter changes the buffer as the specification says, for every field |
| PortInfo.PortInfoBuffer.Getter | src/mad/port.rs:6-8 | the getter returns the field, and the cast to its integer type drops nothing |
| PortInfo.ClientFields | src/mad/port.rs:49-169 | the LID is bytes 16 and 17, the port number byte 28, the two states the low half of byte 32 and the high half of byte 33 |
| MadLayout.NodeInfoRoundTrip | src/mad/node.rs:25-50 | from_bytes undoes to_bytes for every node_info |
| MadLayout.NodeInfoWriteBack | src/mad/node.rs:25-50 | parsing any 64 bytes or more and serialising gives back the first 64 |
| MadLayout.DrSmpWriteBack | src/mad/dr_smp.rs:16-41 | parsing any 232 bytes or more and serialising gives back the first 232 |
| MadLayout.IbMadWriteBack | src/mad/types.rs:21-46 | parsing any 256 bytes or more and serialising gives back the first 256 |
| MadLayout.IbUserMadWriteBack | src/mad/types.rs:61-85 | parsing any 320 bytes or more and serialising gives back the first 320 |
| MadLayout.NodeInfoSlices | src/mad/node.rs:7-50 | which bytes of a serialised node_info hold which field |
| MadLayout.IbMadSlices | src/mad/types.rs:5-46 | which bytes of a serialised MAD hold which field |
| MadLayout.IbUserMadSlices | src/mad/types.rs:48-85 | which bytes of a serialised user MAD hold which field |
| MadLayout.WireAttrIds | src/sim/mod.rs:490-549 | the attribute ids a sender swaps are the three constants a receiver compares with |
| Simulator.InvolutionIsSymmetric | src/sim/mod.rs:41-47 | port objects that refer to each other make a cabling seen alike from both ends |
| Simulator.LinkUpKeeps | src/sim/mod.rs:50-58 | connecting keeps every PortInfo field it does not set, the LID and port number among them |
| Simulator.LinkUpStates | src/sim/mod.rs:50-56 | a connected port reports Active and LinkUp, and speed and width 1 |
| Simulator.ConnectKeepsInvolution | src/sim/mod.rs:41-47 | connecting keeps the cabling an involution exactly when both ports were free |
| Simulator.SimFabric.ConnectPorts | src/sim/mod.rs:41-58 | exactly the two ports change: their states and their mutual references |
| Simulator.SimFabric.Walk | src/sim/mod.rs:334-471 | the walk ends where the path's hops lead from the agent's port, or fails with NotFound exactly when they lead nowhere |
| Simulator.HopResolves | src/sim/mod.rs:406-470 | one hop of the walk is one hop of the path's meaning, and a dead end is final |
| Simulator.SimFabric.ProcessDirectedRoute | src/sim/mod.rs:291-603 | from the bytes read to the bytes written, for every class but that of the performance counters; UnexpectedEof exactly on a short read, NotFound exactly when the path leads nowhere or the port asked about is not there, silence for the other classes and attributes |
| RoundTrip.ReplyData | src/sim/mod.rs:247-257 | whatever the request, the reply's data differs from it only in the attribute area |
| RoundTrip.ParsedRequest | src/discovery/lib.rs:153-184 | versions, class, method, hop pointer and hop count, path, attribute, modifier and id a receiver reads from a built request are those it was built with |
| RoundTrip.RequestBytes | src/discovery/lib.rs:84-184 | every byte of a built request: the agent, timeout and retries, the address block, the MAD header with the hop count in byte 7, the permissive LIDs, zeros for the attribute, the path |
| RoundTrip.QueryRoundTrip | src/discovery/lib.rs:347-380 | a built query comes back as the true answer at its attribute area with path and id kept, or not at all, exactly when there is none |
| RoundTrip.DescriptionRecovered | src/discovery/lib.rs:406-417 | any NUL-free description of at most 64 bytes is recovered |
| RoundTrip.DescToFirstNul | src/discovery/lib.rs:410-417 | of any 64 bytes the description is what comes before the first NUL, or all of them |
| Topology.CodesRead | src/enums.rs:1-75 | a number is converted to an enumeration's value exactly if it is that value's discriminant |
| Topology.DecodedFields | src/discovery/lib.rs:461-482 | the record of a PortInfo answer byte by byte, and InvalidData exactly if a state has no code |
| Topology.EncodeOk | src/discovery/ib.rs:183-193 | hops written from index 0 or 1 followed by zeros are the hops the walk reads |
| Topology.FirstHopOk | src/discovery/ib.rs:183-193 | the first hop goes to index 0 on a switch and index 1 elsewhere, and is one hop |
| Topology.ExtendPath | src/discovery/ib.rs:50-55 | writing a port at get_hop_count + 1 appends exactly that hop, for either kind of root |
| Topology.FindNumber | src/discovery/ib.rs:113-116 | the first port with the number, or none when no port has it |
| Search.ExpansionIsLighter | src/discovery/ib.rs:84-95 | the sum of 256^(64 - hop count) drops when an entry is replaced by at most 255 entries one hop further out, at either end of the list |
| Search.RegisterKeepsConsistent | src/discovery/lib.rs:339-344 | a new node keeps the registry an exact index by GUID with every reference inside it |
| Search.LinkKeepsConsistent | src/discovery/ib.rs:117-120 | so does a link |
| Search.SameNode | src/discovery/lib.rs:298-305 | one true node is registered at most once |
| Search.HomeByGuid | src/discovery/ib.rs:72-73 | with distinct GUIDs, the node found by GUID is the one the path leads to |
| Search.FarEndIsFree | src/discovery/ib.rs:41-48 | the two ends of a true cable are linked to each other or both free |
| Arrival.LinkingKeepsLinks | src/discovery/ib.rs:110-120 | linking along a true cable overwrites no link with a different one |
| Search.LinkKeepsSound | src/discovery/ib.rs:110-120 | linking along a true cable keeps links a symmetric matching contained in the cabling |
| Search.RegisterKeepsSound | src/discovery/lib.rs:341-342 | registering a true record keeps the picture true |
| ShortestPaths.SeedsHasAll | src/discovery/ib.rs:82-95 | no live port of a new switch other than port 0 is left off the work list |
| ShortestPaths.SeedsFew | src/discovery/ib.rs:84-95 | at most 255 entries are pushed for one switch |
| ShortestPaths.PushKeepsOnTrack | src/discovery/ib.rs:206-217 | entries one hop further out keep the list in order of length and the search complete |
| ShortestPaths.RegisterKeepsOnTrack | src/discovery/ib.rs:75-97 | registering a node and pushing its ports keeps the search complete, its paths shortest and the list two levels deep |
| ShortestPaths.LinkKeepsOnTrack | src/discovery/ib.rs:110-120 | linking keeps it so |
| ShortestPaths.DropKeepsOnTrack | src/discovery/ib.rs:35-68 | so does forgetting an entry whose neighbour is known and linked |
| ShortestPaths.RouteEndsKnown | src/discovery/ib.rs:35-130 | with the list empty, every route within the path limit ends at a node known by no longer a path |
| ShortestPaths.NoShorterRoute | src/discovery/ib.rs:35-130 | no route to a known node is shorter than its dr_path |
| ShortestPaths.AllFound | src/discovery/ib.rs:35-130 | with the list empty exactly the nodes some route leads to are found, by shortest paths and with complete records, and a due port is linked if and only if its cable lands at a port its node tells of |
| ShortestPaths.ExactlyFound | src/discovery/ib.rs:35-130 | a node is known if and only if some route within the path limit ends at it |
| ShortestPaths.ReadableFound | src/discovery/lib.rs:461-482 | all that live cabled ports lead to within the limit is found if and only if all of it can be recorded |
| Examples.NeighbourUnreadable | src/discovery/lib.rs:461-482 | the failing input: a neighbour whose port reports a physical state no client knows cannot be recorded, so some way leads to a node no route leads to |
| ShortestPaths.LinkedLands | src/discovery/ib.rs:110-129 | a linked port's cable ends at such a port |
| Arrival.EntryPortKnown | src/discovery/ib.rs:113-116 | the port a node was entered by is in its table if and only if the cable lands |
| Explored.RecordIsHeard | src/discovery/lib.rs:307-345 | whoever answers, a record's GUID, type, numbers, description, ports and LID each come from an answer at its path, or a port from a timeout |
| Explored.JoinSettled | src/discovery/ib.rs:110-129 | after linking, the port followed is linked, or the node behind it does not tell of the port it was entered by |
| Explored.SearchedNext | src/discovery/ib.rs:35-130 | one turn: of the live ports of switches none is lost from the list but for a cause |
| Explored.HopAnswered | src/discovery/ib.rs:172-218 | one neighbour asked about: it is known, or a query about it failed |
| Explored.HopsDeeper | src/discovery/lib.rs:80-82 | get_hop_count is the hop count of a path: its hops, one less with the agent on a switch |
| Explored.AccountedNext | src/discovery/ib.rs:35-130 | the turn keeps all of what is said of a run whoever answers |
| PortTable.AttachKeepsTable | src/discovery/lib.rs:608-659 | one more port keeps numbers ascending without gaps and every record that of an answer or a placeholder |
| PortTable.AttachKeepsLids | src/discovery/lib.rs:503-541 | one more port keeps the LID rule: a switch's LID on all its ports, placeholders included, else the local port's LID on the node |
| PortTable.ReportedIsTrue | src/discovery/lib.rs:461-482 | states and LID recorded from true answers are the port's own, or a placeholder's, but for the LID of an external port of a switch, which may be the switch's |
| PortTable.LiveIsEligible | src/discovery/lib.rs:461-482 | so a port recorded live is one the fabric has, live |
| PortTable.ReportedIsExact | src/discovery/lib.rs:608-656 | with every query answered, a port the fabric has is recorded as it is, with the same exception |
| PortTable.ExactNumbers | src/discovery/lib.rs:586-659 | and the table has exactly the numbers 1 to nports, and 0 on a switch that answers for its port 1 |
| PortTable.TrueNodeInfo | src/discovery/lib.rs:374-380 | a true NodeInfo answer describes the node the path leads to and the port it is entered by |
| PortTable.TrueDesc | src/discovery/lib.rs:410-420 | a true NodeDesc answer decodes to that node's description |
| PortTable.TrueRecord | src/discovery/lib.rs:307-345 | a record made from true answers is true: GUID, type, description, entry port, every port's states and LID, and the node's LID, which port 0 or the entry port reported, or which is 0 |
| PortTable.ExactRecord | src/discovery/lib.rs:307-345 | with every query answered it is complete: the node can be recorded, the table has all its ports as they are, and the LID is the one the rule gives |
| PortTable.ExactLid | src/discovery/lib.rs:503-541 | with every query answered the node's LID is that of port 0 of a switch if it has one, or else of the port it was entered by |
| PortTable.RecordedIsReadable | src/discovery/lib.rs:423-483 | with every query answered, a node recorded is one whose codes are all known |
| PortTable.NoPortFails | src/discovery/lib.rs:564-662 | and of such a node no port fails |
| Fabrics.NewPortReports | src/sim/mod.rs:710-734 | a new port reports its number and LID, is down and polling, and has no cable |
| Fabrics.NewPortSpeeds | src/sim/mod.rs:710-734 | it supports, enables and has speed and width 1 |
| Fabrics.ConnectKeepsDiscoverable | src/sim/mod.rs:41-58 | connecting free ports keeps all that discovery asks of a fabric |
| Fabrics.BuiltIsDiscoverable | src/sim/mod.rs:41-58 | any fabric wired from new ports by connecting free ones is what the discovery results ask for, every node of it can be recorded, and the agent is where it was |
| Fabrics.AskAll | src/discovery/lib.rs:199-282 | over a port that answers in order a requester is genuine and prompt, and its whole history is true and complete |
| Fabrics.SomePortReplies | src/sim/mod.rs:490-603 | any queries the fabric can answer have such a port |
| StandardFabric.BuildStandardFabric | src/sim/mod.rs:75-199 | the fabric it leaves is neither symmetric nor an involution: port 33 of the first leaf leads to port 2 of the first spine, which leads to port 33 of the second leaf |
| StandardFabric.Uplinks | src/sim/mod.rs:130-166 | the rounds of one leaf, and what they leave of the two ports |
| Discovery.Fabric.FetchNodeInfo | src/discovery/lib.rs:347-380 | one query, decoded, or its error |
| Discovery.Fabric.FetchPortInfo | src/discovery/lib.rs:423-483 | one query, decoded, its error, or InvalidData for an unknown state |
| Discovery.Fabric.CountPortInfo | src/discovery/lib.rs:586-656 | and what is counted of it: a timeout once more, a refusal of a port other than 0 as an error |
| Discovery.Fabric.PopulateNodePorts | src/discovery/lib.rs:564-662 | each port asked about once; ascending numbers, 0 only on switches, no gap but for refused queries, records as answered, the LID rule; errors only other than timeout and invalid input |
| Discovery.Fabric.DiscoverNode | src/discovery/lib.rs:291-345 | the path is asked about first; a known GUID returns its node, changes nothing and asks nothing more, a new one adds exactly one record, made of answers; it fails only if a query did, and then adds none |
| Discovery.Fabric.Record | src/discovery/lib.rs:307-345 | the registration of a new GUID: the same |
| Discovery.Fabric.PushEligible | src/discovery/ib.rs:82-96 | exactly the live ports other than 0, in order, at the back |
| Discovery.Fabric.FirstHopDiscoveryIb | src/discovery/ib.rs:156-221 | the agent's node and its neighbours, and a list from which everything else will be found; whoever answers, each neighbour is known or could not be recorded, and the live ports of those that are switches are on the list; fails only with InvalidData and over an answer, and without loss exactly when the agent's node cannot be recorded |
| Discovery.Fabric.FirstHopPort | src/discovery/ib.rs:172-218 | one neighbour: what it keeps of all that |
| Discovery.Fabric.LinkToRemote | src/discovery/ib.rs:110-129 | links the two ports, exactly when the neighbour's table has the port it was entered by |
| Discovery.Fabric.Visit | src/discovery/ib.rs:35-130 | one turn of the loop: an entry that is linked or has no room is dropped unasked; otherwise the node behind it is asked about first, and its port ends linked or with a cause, whoever answers; the rest of the list is kept, a new switch's live ports are pushed, hop counts are those of the paths; lighter list, nodes and links kept, and consistency, truth and completeness |
| Discovery.Fabric.Probe | src/discovery/ib.rs:57-130 | the query behind one port: the same |
| Discovery.Fabric.Follow | src/discovery/ib.rs:70-130 | what follows from its answer: the same |
| Discovery.Fabric.Neighbour | src/discovery/ib.rs:70-108 | the node behind the port, known by its GUID and then not asked again, or discovered, and what it adds to the list; it fails only if a query did |
| Discovery.Fabric.Join | src/discovery/ib.rs:110-130 | after linking, the entry is done with, and every link made before is still there |
| Discovery.Fabric.Categorise | src/discovery/ib.rs:132-139 | switches and hcas list the registry's switches and other nodes, in order |
| Discovery.Partition | src/discovery/ib.rs:132-139 | every node is in exactly one of the two lists |
| Discovery.Fabric.SeqDiscover | src/discovery/ib.rs:18-154 | termination and registry whoever answers, records made of answers, every live port of a switch searched linked or left for a cause, hop counts; truth of records under loss in any fabric, and of links in a plain one, in particular over any genuine channel; without loss, in particular over a genuine and prompt channel to a plain fabric, success exactly when the agent's node can be recorded, and then all that routes lead to and no more, by shortest paths, with exact links |
| Discovery.Fabric.SearchAll | src/discovery/ib.rs:35-130 | its main loop: what it keeps of all that, until the list is empty |
| Discovery.Fabric.Clear | src/discovery/ib.rs:19-29 | nothing found or counted before is left |
| Discovery.Fabric.Reckon | src/discovery/ib.rs:18-154 | over a run, every request that went out was answered, met a receive with nothing to give, or is counted in mad_timeouts, those about ports twice; mad_errors is the failed sends and receives and the refused ports |
| Discovery.Fabric.PushRing | src/discovery/nvlink.rs:120-129 | exactly the live ring ports, last port first, at the front |
| Discovery.Fabric.PortsToProbe | src/discovery/nvlink.rs:275-294 | exactly the live unlinked ports that are neither port 0 nor ring ports, in order |
| Discovery.Fabric.FindOrReach | src/discovery/nvlink.rs:83-143 | the node at the end of the path and the port it is entered by, new exactly when its GUID was not known; it fails only if a query did |
| Discovery.Fabric.LinkNvlink | src/discovery/nvlink.rs:145-167 | links the two ports, exactly when the neighbour's table has the port it was entered by |
| Discovery.Fabric.ProbePort | src/discovery/nvlink.rs:296-338 | one probe keeps nodes, links and truth; whoever answers, the port ends linked or with a cause; without loss, it is linked if the path has room and its cable lands |
| Discovery.Fabric.DiscoverConnectedNodesNvlink | src/discovery/nvlink.rs:269-341 | so do all probes of a switch, after which each of its live ports but port 0 and the ring ports is linked or has a cause; without loss every probed port whose cable lands is linked |
| Discovery.Fabric.ExpandNvlink | src/discovery/nvlink.rs:111-130 | a new switch's ring ports go to the front after its other ports were probed: it has been expanded |
| Discovery.Fabric.VisitNvlink | src/discovery/nvlink.rs:40-168 | one turn of the loop: an entry that is linked or has no room is dropped unasked, otherwise the node behind it is asked about first; whoever answers the rest of the list is kept, the port ends linked or with a cause, the turn fails only over an answer, and a switch met over a ring port is expanded; lighter list, nodes, links and truth kept; without loss the port is linked when its cable lands, and the turn fails if and only if the port was unlinked, its path had room and its cable ends at a port its node does not tell of |
| Discovery.Fabric.ProbeNvlink | src/discovery/nvlink.rs:66-167 | the query behind one port: the same, and it fails if and only if the cable so ends |
| NvLink.LandsFound | src/discovery/nvlink.rs:145-167 | the port a node was entered by is in its table if and only if the cable lands |
| RingExplored.PushedExpanded | src/discovery/nvlink.rs:111-130 | with its ring ports on the list and its other live ports settled, a switch is expanded |
| RingExplored.ProbedSettled | src/discovery/nvlink.rs:275-294 | the ports not probed were linked before, so once the others are settled all are |
| RingExplored.RingNext | src/discovery/nvlink.rs:40-168 | one turn keeps what is said of expanded switches whoever answers |
| RingExplored.NoFailure | src/discovery/lib.rs:291-345 | when every query is answered, none about a node a client can record fails |
| RingExplored.NoMisnaming | src/discovery/nvlink.rs:145-167 | nor does a node whose cable lands name a port it does not tell of |
| RingExplored.AllLinkedAround | src/discovery/nvlink.rs:20-341 | so at the end every live port of a switch one hop out, or first met over a ring port, is linked if its path has room and its cable lands |
| Examples.RingCableStrays | src/discovery/nvlink.rs:145-167 | the failing input: after the first hop from an adapter to a switch whose ring port 73 is cabled to an adapter's port number 2, the picture is true and complete and the entry for port 73 is one that fails |
| Examples.RingPortGivesUp | src/discovery/nvlink.rs:40-168 | on that picture the turn ends in InvalidData once every query is answered |
| Discovery.Fabric.FirstHopDiscoveryNvlink | src/discovery/nvlink.rs:194-265 | the agent's node and its neighbours, consistent and true; whoever answers, the node behind each of its ports is known, and expanded if it is a switch, or it could not be recorded; fails only with InvalidData and over an answer, and without loss exactly when the agent's node cannot be recorded |
| Discovery.Fabric.FirstHopPortNvlink | src/discovery/nvlink.rs:211-262 | one neighbour: known, and expanded if it is a switch, or it could not be recorded, whoever answers; nodes, links and truth kept, complete records without loss |
| Discovery.Fabric.SeqDiscoverNvlink | src/discovery/nvlink.rs:20-192 | termination, consistency and no failing parent reference whoever answers, records made of answers, the switches one hop out and those met over ring ports expanded with every live port linked or left for a cause, hop counts, giving up only over an answer; truth of records in any fabric and of links in a plain one, even when it gives up, in particular over any genuine channel; without loss complete records, every live port around expanded switches linked whose cable lands, and giving up only when the agent's node cannot be recorded or a port it knows has a cable that ends at a port its node does not tell of |
| Discovery.Fabric.SearchRing | src/discovery/nvlink.rs:40-168 | its main loop: what it keeps of all that, until the list is empty or a turn fails |
| Transaction.TidsDistinct | src/discovery/lib.rs:186-197 | any 2^32 - 1 consecutive ids are pairwise distinct |
| Transaction.TidsRepeat | src/discovery/lib.rs:186-197 | and then they repeat |
| Transaction.TidAt | src/discovery/lib.rs:186-197 | ids are never 0 and fit 32 bits, from any 64-bit counter |
| Transaction.Requester.NextTid | src/discovery/lib.rs:186-197 | returns the first id of the sequence and moves the counter to the rest of it |
| Transaction.ReplyCarriesAnswer | src/discovery/lib.rs:246-250 | a genuine reply, whatever the upper half of its id, carries the true answer and the request's id |
| Transaction.BackoffExact | src/discovery/lib.rs:275 | the doubled timeout is exact if and only if it fits 32 bits |
| Transaction.Requester.AwaitReply | src/discovery/lib.rs:232-274 | ends; returns the first reply with the id; without one, a timeout is counted exactly when no receive had nothing to give, and then the whole timeout has passed; counts every failed receive; receives at least once if there is time; waits no longer than the timeout when receives keep their deadline |
| Transaction.Requester.Attempt | src/discovery/lib.rs:208-275 | one send, and no receive if it fails; only the first attempt counts as a MAD sent |
| Transaction.Requester.SendAndMatchWithRetries | src/discovery/lib.rs:199-282 | at most retries + 1 sends, the first matching reply or the fatal send error or TimedOut after all of them, mads_sent up by one once the first is out, every failure counted, mad_timeouts up by one for each request that went out and ended neither in a reply nor in a receive with nothing to give; each wait so counted lasts at least the timeout doubled from wait to wait, so n of them last at least timeout * (2^n - 1), and total waiting is at most timeout * (2^(retries + 1) - 1) |
| Transaction.Requester.Transact | src/discovery/lib.rs:358-374 | any answer accepted is the true answer to this query; it takes the first reply with its id; the whole history is true or missing while replies are genuine, and complete while the channel is prompt too |
| Transaction.Requester.ResultIsTrue | src/discovery/lib.rs:246-282 | over genuine replies what one call hears is true or missing, and over a prompt channel it is the answer |
| Transaction.Requester.AcceptedIsCurrent | src/discovery/lib.rs:246-250 | no other recent request has the id, so the reply is to the current one |
| AsyncDiscovery.GenuineReplyEchoes | examples/async_discovery.rs:876-888 | a reply the fabric makes carries its request's attribute, path and id, and the true answer |
| AsyncDiscovery.GenuineRunEchoes | examples/async_discovery.rs:884-908 | while ids last, every reply of a run over genuine replies echoes the request it is matched with, and a full path was asked for if one came back |
| AsyncDiscovery.GenuineGuids | examples/async_discovery.rs:606-640 | over genuine replies, while ids last, every GUID visited is one of the fabric's |
| AsyncDiscovery.HeardMore | examples/async_discovery.rs:720-743 | every GUID visited came in a NodeInfo reply that was matched |
| AsyncDiscovery.FewAsked | examples/async_discovery.rs:908-987 | one reply causes at most 257 requests |
| AsyncDiscovery.BurstAsks | examples/async_discovery.rs:720-743 | each query that such a burst should hold is in it once, and no other is |
| AsyncDiscovery.LearnedPorts | examples/async_discovery.rs:606-640 | a node's first NodeInfo answer opens its table with exactly its ports, a later one leaves it alone |
| AsyncDiscovery.PortInfoStored | examples/async_discovery.rs:775-835 | the answer is stored at the port asked of a switch, at port 1 of the agent's adapter and of other nodes, at port 0 of a node not known yet, nowhere at other adapters, and no other port changes |
| AsyncDiscovery.PathThrough | examples/async_discovery.rs:783-835 | and the search goes on there: through a switch and the agent's adapter by the port asked, else over the same path |
| AsyncDiscovery.UpMeans | examples/async_discovery.rs:760-769 | it goes on exactly if the port is Armed or Active, and up physically |
| AsyncDiscovery.SentPortOnWire | examples/async_discovery.rs:771-777 | the port asked is the one in the request's bytes |
| AsyncDiscovery.RequestHops | examples/async_discovery.rs:1032-1080 | the hop count byte of each request is the number of hops of its path |
| AsyncDiscovery.LinkedPortsAre | examples/async_discovery.rs:301-318 | the two ports exist and refer to each other, and no other port comes, goes or changes |
| AsyncDiscovery.PortsElsewhere | examples/async_discovery.rs:641-689 | a NodeInfo answer touches no port of another node but the one its request left through |
| AsyncDiscovery.BudgetIssue | examples/async_discovery.rs:720-743 | a PortInfo request of a visited node adds 2 to the budget, no other request changes it |
| AsyncDiscovery.BudgetBound | examples/async_discovery.rs:720-743 | the budget is at most 1 + 513 for each GUID visited |
| AsyncDiscovery.FullPathPanics | examples/async_discovery.rs:817-820 | the failing input: an echoed PortInfo reply for a known switch over a path of 63 hops |
| AsyncDiscovery.SwitchPathGrows | examples/async_discovery.rs:817-820 | off a switch the path grows by the port asked about, if and only if that is not port 0 |
| AsyncDiscovery.ConservedIssue | examples/async_discovery.rs:1055-1078 | a new request takes an id never used, outstanding, matched or expired |
| AsyncDiscovery.ConservedMatch | examples/async_discovery.rs:887 | matching moves one id from outstanding to matched, so a duplicate finds none |
| AsyncDiscovery.ConservedExpire | examples/async_discovery.rs:1010-1020 | expiry moves ids from outstanding to expired |
| AsyncDiscovery.Agent.constructor | examples/async_discovery.rs:460-479 | one request outstanding, nothing visited, all invariants hold |
| AsyncDiscovery.Agent.BuildAndStoreSmp | examples/async_discovery.rs:1032-1080 | logs, stores and sends exactly one request under the next id; all invariants kept within the budget |
| AsyncDiscovery.Agent.RecvNodeInfo | examples/async_discovery.rs:606-744 | the node, its link, and for a GUID not visited before exactly one burst: one request for NodeDesc, one for each port from 1 to nports, one for port 0 unless the node is an adapter, and no other |
| AsyncDiscovery.Agent.RecvPortInfo | examples/async_discovery.rs:746-869 | stores the answer and asks who is behind the port exactly when it is up and the search goes on there |
| AsyncDiscovery.Agent.PanicsOnlyWhenFull | examples/async_discovery.rs:584-599 | for replies that echo the attribute asked, no unwrap fails, and indexing fails exactly at a switch at the end of a full path |
| AsyncDiscovery.Agent.Handle | examples/async_discovery.rs:908-987 | the handler for the attribute, its effect on nodes and requests, and exactly when it panics |
| AsyncDiscovery.Agent.Expire | examples/async_discovery.rs:1005-1020 | exactly the requests older than the deadline go |
| AsyncDiscovery.Agent.ProcessResponse | examples/async_discovery.rs:871-1030 | matched, unmatched and timed-out results, what they ask and visit, and exactly when they panic; with an echoed attribute a match visits a new GUID or lowers the weighted count of outstanding requests |
| AsyncDiscovery.Agent.Turn | examples/async_discovery.rs:482-509 | one turn of the main loop keeps the invariants, or a matched reply did not echo or its path was full |
| AsyncDiscovery.Agent.Run | examples/async_discovery.rs:482-509 | over any interleaving, with the exit tested only before the main task waits: conservation and at-most-once while ids last, responses at most requests, one visit a GUID, at most 256 ports queried a node, requests within the budget and 1 + 513 a node, nothing lost at exit |
| AsyncDiscovery.Agent.StillLast | examples/async_discovery.rs:482-509 | over replies to requests issued before them, from a fabric small enough, one more turn stays within 1 + 513 requests for each node of the fabric |
| AsyncDiscovery.Agent.GenuineRun | examples/async_discovery.rs:482-509 | over genuine replies, while ids last, the budget holds with no hypothesis on echoes, and no more nodes are visited than the fabric has |
| AsyncDiscovery.Session | examples/async_discovery.rs:444-574 | from the start, responses counted never exceed requests counted; over genuine replies requests are at most 1 + 513 for each node of the fabric, and nothing panics unless a path of 63 hops was asked for; on a fabric small enough ids never run out |

## Left out

- Discovery.Fabric.SeqDiscoverNvlink: does not state which nodes are found, because the code promises none: a switch first met over a port that is not a ring port is never expanded, so what is found depends on the visiting order.
- Discovery.Fabric.SeqDiscover: states links and completeness for symmetric fabrics with distinct GUIDs only, because the code takes the port an answer names for the other end of the cable; and it does not state that cables between the agent's node and a neighbour that is not a switch are linked, because the code does not follow them.
- Transaction.Backoff: models the 32-bit backoff as wrapping, as in an optimised build; a build with overflow checks panics where it would wrap.
- AsyncDiscovery.Agent.Run: does not state that asynchronous links are true cables; a query for switch port 0 leaves the path unextended, so they are true only under further assumptions.
- AsyncDiscovery.Agent.ProcessResponse: treats a handler as one step and channel capacities as unbounded, and leaves out messages of other kinds, which no task sends.
- PortTable.TrueDesc: keeps a description as its bytes; the lossy decoding of invalid UTF-8 is not modelled.
- The `ib_mad_addr` block of a user MAD is 44 bytes nobody looks into.
- `ni_timings` and `dr_paths` of the discovery client, and what `mads_sent` adds up to over a whole traversal.
- `recv_smp`, `format_path`, dumps and logging: they add nothing to the properties.
- Lock poisoning, sockets, threads, sleeps and random delays.
- Device discovery and I/O in `src/ca.rs`, `src/lib.rs` and `src/mad/mod.rs`: sends and receives are arbitrary outcomes here.
- Simulator.SimFabric.ProcessDirectedRoute: claims nothing of requests of class 0x4, the performance counters, which with `src/mad/perf.rs` are not part of this model.
- The simulator's `lid` cache and its lists of switches and adapters, which no reply depends on.
