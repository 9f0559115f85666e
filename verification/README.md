# A verified model of nylon

nylon is a mesh VPN. Its routers run a variant of the Babel routing protocol (RFC 8966), carry
packets over UDP or over a transport that looks like TCP on the wire, and forward them through a
WireGuard-derived device. This project models the parts of nylon whose correctness depends on
several functions together, and proves what they promise for every input, every batch and every
run.

## How it is organised

| part | modules |
|---|---|
| Babel router | `Metric`, `RouterState`, `RouteSelection`, `RouterOps`, `RouterLaws`, `RouterPromises`, `Router`, `RouterSafety`, `BabelNetwork`, `RouterActions`, `RouterRuns`, `ForgottenSource` |
| shared types and constants | `Basics`, `FakeTcpCarrier` |
| fake-TCP receive path | `FakeTcpFrames`, `FakeTcpReceive`, `FakeTcpBatch`, `FakeTcpExpand`, `FakeTcpReceiver` |
| fake-TCP handshake and sequence numbers | `FakeTcpFlow`, `FakeTcpTable`, `FakeTcpPair`, `FakeTcpHandshake` |
| carrier format and header rewriting | `OnesComplement`, `Checksum`, `CarrierFormat`, `CarrierRewrite`, `CarrierDelivery` |
| allowed-IP trie | `AllowedIpsTrie`, `AllowedIpsOps`, `AllowedIpsTable`, `AllowedIps` |
| graph language | `GraphOrder`, `GraphSpec`, `GraphTopo`, `Graph` |
| UDP segmentation offload | `GsoCoalesce`, `GsoSplit` |
| exit tunnel and hop limits | `ExitPackets`, `ExitTunnel`, `ExitElement`, `HopLimit` |
| traffic control | `TrafficSpec`, `TrafficControl` |
| node ids, replay filter, rate limiter | `NodeIds`, `Replay`, `TokenBucket` |

Code that changes state is modelled by classes and methods with loops, arrays and maps; each such
method is proved against a function or relation on values, and the theorems are about those. The
router, for example, is the class `Router.RouterNode`; `Router.RouterNode.ComputeRoutes` is proved
to turn the state `s` into `Compute(s, now)`, and everything in `RouterSafety`, `BabelNetwork` and
`RouterRuns` is about `Compute` and the other step functions. What such a step does is also said
without its function, as a relation between the states before and after it: `RouterLaws.Computes`
for a computation, the predicates of `RouterPromises` for the other operations, `FakeTcpFlow.Obeys`
for a flow and `TrafficSpec.Ruled` for a packet. The methods promise both. Time, link costs, fresh initial
sequence numbers, datagrams read from a socket and the outcome of foreign calls are parameters.

## The main results

* In every state of every run of a network of routers, with updates lost, delayed, duplicated and
  reordered and links changing, no routes towards one source form a loop
  (`BabelNetwork.NoForwardingLoop`), as long as the origin keeps its own sequence numbers within
  one half of the number space (`RouterActions.OriginKeepsLoopsOut`) and no distance is forgotten
  that others rely on.
* At every router the dataplane forwards exactly as routes are selected
  (`RouterRuns.RunKeepsDataplane`), and a lost route is held until every reachable neighbour has
  acknowledged its retraction (`RouterRuns.DropNeedsEveryAck`).
* Every route computation selects as appendix A.3 of RFC 8966 says, with own prefixes and held
  routes in its way: which offer is taken, when a better one is not, and what the neighbours are
  told (`RouterLaws.Selects`, `RouterLaws.Announces`). A retraction or an expired advertisement ends
  the routes over it (`RouterPromises.RetractionEndsRoute`, `RouterPromises.InTime`).
* The fake-TCP receive path hands out exactly the packets that arrived, in order and byte for
  byte, although it compacts and expands them within the caller's buffers
  (`FakeTcpReceiver.Receiver.ReceiveIP`).
* Between two fake-TCP parties no side ever acknowledges bytes that were not sent
  (`FakeTcpPair.NeverAcknowledgesUnsent`), every run in which a side has a flow can go on until both
  are established (`FakeTcpHandshake.CanEstablish`), and a payload that is framed, marshalled, rewritten to
  TCP and back, and read is the same payload (`CarrierDelivery.PayloadArrives`).
* The trie, the replay ring, the unrolled checksum and the graph expander compute what the longest
  prefix match of a table, a set of counters, the plain RFC 1071 sum and the full expansion of
  groups say.
* Segmentation offload and the exit tunnel give back what was put in; traffic control frees or
  stages each buffer of a batch exactly as often as it came (`TrafficControl.Device.TcBatch`), and
  each packet is ruled by the first filter, from the last installed down, that does not pass it
  (`TrafficSpec.FinalRules`); a token bucket keeps to its rate for every address
  (`TokenBucket.AddressBound`) and accepts all packets of a new one exactly if they keep to it
  (`TokenBucket.NewAddressServed`).

## Where the code promises less than one might expect

Each of these is stated as an exact condition.

* A source is dropped from the source table when nothing refers to it locally. This keeps the
  invariant behind loop freedom if and only if nobody relies on the dropped distance any more
  (`BabelNetwork.ForgettingKeepsInv`). Where somebody does, loop freedom itself fails: for any two
  routers and any link cost there is a run, with all sequence numbers equal, that ends with both
  routing towards the same source over each other (`ForgottenSource.ForgettingMakesLoop`).
* Re-advertising a route keeps the advertisement it was learned from feasible exactly if the hop
  made the metric larger; a free hop and a saturated metric do not
  (`RouterState.FeasibleAfterAdvance`, `RouterState.SaturatedHopUnfeasible`,
  `RouterSafety.EntryOrigin`).
* Sequence numbers half the number space apart compare neither way (`Metric.SeqnoOrder`), so the
  source table may then keep an entry that is worse than the update sent (`RouterState.Advance`).
* A held route is released by counting acknowledgements, not by matching them to neighbours
  (`RouterSafety.ReleaseCounts`); one that acknowledged and then became unreachable counts for one
  that did not acknowledge (`RouterSafety.ReleasedByAnother`).
* A held route stays a blackhole although its own neighbour offers it again, finite and feasible, as
  long as a cheaper offer whose average is no smaller is there (`RouterLaws.HeldYieldsToBetter`).
* A side of a fake-TCP flow that waits for the last packet of the handshake is established by data
  only at the very beginning of the stream (`FakeTcpHandshake.EstablishedExactlyBy`), and its
  repeated packets are not answered once the other side has sent data
  (`FakeTcpHandshake.LateSynAckIgnored`). So if all packets in flight are lost, the handshake
  recovers unless one side is established and has sent data (`FakeTcpHandshake.CanRecover`); then
  the other is never established, until 2^32 bytes have been sent (`FakeTcpHandshake.StaysBehind`).
* A group with an empty name makes a graph without cycles fail as cyclic
  (`Graph.UnnamedGroupRejected`, `Graph.ParseGraph`).
* Segmentation offload loses datagrams exactly if an empty buffer is grouped behind others
  (`GsoCoalesce.CoalesceMessages`), such as one behind a buffer of one byte
  (`GsoCoalesce.EmptyMergedIsLost`). A recorded segment size larger than the message makes the
  first piece longer than the message (`GsoSplit.SegsAreCut`).

## Model

| member | source | states |
|---|---|---|
| Metric.AddMetric | core/utils.go:9-15 | a sum of metrics is infinite exactly if one of them is, so saturation never turns a finite route into a retraction |
| Metric.AddMetricLaws | core/utils.go:9-15 | saturating addition is commutative and associative: the order in which link, hop, transit and advertised costs are added does not matter |
| Metric.HopStrictlyLarger | core/utils.go:9-15 | a hop makes a finite metric strictly larger if and only if it costs something and the metric is not saturated |
| Metric.SeqnoOrder | core/utils.go:17-30 | serial comparison is asymmetric and total except for numbers exactly 2^15 apart, where both are greater and neither is less |
| Metric.SeqnoWindow | core/utils.go:17-30 | inside any half of the number space the serial comparisons are the ordinary ones on positions counted from its start (section 3.2.1 of RFC 8966) |
| RouterState.Advance | core/router_algo.go:27-57 | only the entry of the advertised source changes, it never gets worse, and it is no worse than the update unless the two sequence numbers are 2^15 apart |
| RouterState.FeasibleAfterAdvance | core/router_algo.go:27-80 | after re-advertising at a total, the feasible advertisement it was learned from is still feasible if and only if the total is larger |
| RouterState.SaturatedHopUnfeasible | core/router_algo.go:27-80 | at the saturated metric, re-advertising over any hop makes the advertisement the route was learned from unfeasible |
| Router.RouterNode.UpdateFeasibility | core/router_algo.go:27-57 | the method carries out the source-table step whose monotonicity the step function promises |
| Router.RouterNode.CheckFeasibility | core/router_algo.go:59-80 | answers yes exactly for retractions, unknown sources, newer sequence numbers, and equal ones with a smaller metric |
| Router.RouterNode.TableInsertRoute | core/router.go:116-147 | the forward table gets the next hop, as a blackhole exactly for an infinite route; the exit table has the prefix exactly if the route is finite and ends here; other prefixes stay |
| RouteSelection.BestOfNone | core/router_algo.go:507-572 | there is a best candidate exactly if some neighbour has a reachable, finite, feasible route |
| RouteSelection.BestOfIsBest | core/router_algo.go:507-572 | the candidate kept by the scan is an eligible one with the least metric, and the first with it in neighbour order |
| RouteSelection.CurrentOf | core/router_algo.go:568-570 | the remembered current candidate is an eligible route with the next hop and source of the selected one, and is missing only if there is none |
| Router.RouterNode.StartTable | core/router_algo.go:442-472 | the new table starts with the held routes made infinite and with all own prefixes, an own prefix taking precedence |
| Router.RouterNode.CollectCandidates | core/router_algo.go:507-572 | one pass over all neighbours smooths every eligible stored metric and finds, per prefix, the best candidate and the candidate that is selected now |
| Router.RouterNode.SelectRoutes | core/router_algo.go:578-617 | in whatever order prefixes are visited: without a candidate an entry stays; a candidate takes the place of the entry, or of the route selected now, exactly if it is the same route or has both the smaller metric and the smaller average; with neither it is taken |
| Router.RouterNode.PublishChanges | core/router_algo.go:628-646 | whatever the order of the scan, exactly the prefixes whose next hop or finiteness changed go to the dataplane and exactly those with a major change are announced and advance the source table |
| Router.RouterNode.RetractLost | core/router_algo.go:649-665 | every finite route without a finite successor is put back infinite with no acknowledgements, blackholed and retracted; nothing else changes |
| Router.RouterNode.ComputeRoutes | core/router_algo.go:393-668 | the loops over maps that interleave installation, source updates and announcements have the combined effect of one step function of the old state, and that step selects, announces and averages as `RouterLaws.Computes` says of the two states |
| Router.RouterNode.PushTable | core/router_algo.go:82-100 | every selected route is queued for exactly the addressed neighbours, the distance of every finite one is lowered to it if it is better, and no other update, distance or field changes |
| Router.RouterNode.ChooseRelay | core/router_algo.go:217-256 | a relay is found exactly if some reachable neighbour other than the requester has a finite route, and it is one with a feasible route if there is one |
| Router.RouterNode.HandleSeqnoRequest | core/router_algo.go:177-261 | a request for a newer number of this node makes that its own number, and its own route carries it and is queued for every neighbour if nothing can undercut it; any other request queues the selected route for the requester exactly if it is finite and of another origin or not older, and changes nothing else; it is passed on if and only if it asks another node for more, has hops left and another reachable neighbour has a finite route, and then over a feasible route if there is one |
| Router.RouterNode.HandleAckRetract | core/router_algo.go:263-278 | an acknowledgement counts once per neighbour and only for a blackhole, which then goes exactly if nothing replaces it and it ended here, expired, or has as many acknowledgements as there are reachable neighbours; otherwise it keeps them and the new one |
| Router.RouterNode.HandleNeighbourUpdate | core/router_algo.go:281-381 | afterwards an update to a stored route is stored unless it is finite, not newer and not smaller than the kept distance, and for the selected route; one to an unknown prefix is stored exactly if it is finite and feasible; finite ones start their time anew, retractions do not and are always acknowledged; all else stays; the number after the known one is requested exactly for an unfeasible update to a stored route that is the selected one or would beat it |
| Router.RouterNode.RunGC | core/router_algo.go:102-165 | stored routes out of time turn infinite with a new time, or go if they were infinite, and others stay; own prefixes out of time go; sources stay exactly if a stored, selected or own route uses them; no finite route is left over an advertisement out of time |
| RouterLaws.LeavesForBetter | core/router_algo.go:578-617 | a selected route that is still on offer is left for the cheapest offer if and only if that has both the smaller metric and the smaller average (appendix A.3 of RFC 8966) |
| RouterLaws.TakesCheapest | core/router_algo.go:601-604 | without own, held or offered current route the cheapest offer is selected, the first of several |
| RouterLaws.NothingOffered | core/router_algo.go:649-667 | without any offer a finite route that is not held becomes its retraction and an infinite one goes |
| RouterLaws.StaysHeldUnoffered | core/router_algo.go:442-447 | a held route without any offer stays infinite and keeps its acknowledgements if it had become so before |
| RouterLaws.HeldComesBack | core/router_algo.go:605-608 | a held route becomes finite at once if the cheapest offer is the route itself |
| RouterLaws.HeldYields | core/router_algo.go:586-616 | it is replaced by another route if and only if the average of the cheapest offer is below infinity |
| RouterLaws.HeldYieldsToBetter | core/router_algo.go:586-616 | if the route itself is on offer too but another is cheaper, it is replaced if and only if the average of that one is smaller, and else stays infinite |
| RouterLaws.OwnStays | core/router_algo.go:449-472 | an own prefix that nobody offers is selected with its own number, cost and expiry |
| RouterLaws.OwnGivesWay | core/router_algo.go:449-617 | an own prefix is displaced if and only if the cheapest offer is below its cost, now and on average |
| RouterLaws.OwnOffered | core/router_algo.go:605-608 | if the cheapest offer is the own route itself, over the announced client, it is taken with its offered metric |
| RouterLaws.OwnAgainstItself | core/router_algo.go:586-616 | if such an offer is not the cheapest, its average counts for the own prefix as long as it is the selected route |
| RouterLaws.Selects | core/router_algo.go:393-617 | the laws above cover every prefix of every valid state: for each there is no offer or a cheapest one, and the new entry is the one they name |
| RouterLaws.CheapestExists | core/router_algo.go:565-567 | if there is an offer, there is a cheapest one |
| RouterLaws.AveragesMove | core/router_algo.go:545-549 | the average of an offer starts at its cost and moves towards it by the smoothing share; of other routes it stays, and so does all else that is stored |
| RouterLaws.AverageBetween | core/router_algo.go:545-549 | with a share between 0 and 1 the new average lies between the old one and the cost |
| RouterLaws.Announces | core/router_algo.go:628-665 | for every neighbour and prefix: a retraction is queued if a finite route ended, the new entry if it is new or has another origin, another number or a finite metric beyond the threshold, and nothing otherwise |
| RouterPromises.UpdateStored | core/router_algo.go:281-381 | what the table of neighbours holds after any update from any neighbour, entry by entry |
| RouterPromises.StarvesIs | core/router_algo.go:330-360 | the request for a newer number goes out exactly if the unfeasible update is for the selected route, or link, hop, transit and advertised metric of a reachable neighbour are below it |
| RouterPromises.RetractionEndsRoute | core/router_algo.go:373-379 | after a retraction and the next computation no finite route to the prefix leads over the neighbour that retracted, unless an own prefix is announced there |
| RouterPromises.OwnSelected | core/router_algo.go:449-617 | an own prefix that no offer undercuts, and that no neighbour stands for, is selected |
| RouterPromises.NewSeqnoAnnounced | core/router_algo.go:637-645 | a new number of a finite selected route is queued for every neighbour |
| RouterPromises.RequestRenews | core/router_algo.go:198-209 | after a request for a newer number of this node, that is its number, others stay, and an own route that nothing can undercut carries it and is queued for every neighbour |
| RouterPromises.RepliedAnswers | core/router_algo.go:190-194 | the requester is sent the selected route exactly if it is finite and of another origin or not older, after its distance was lowered |
| RouterPromises.AckCounted | core/router_algo.go:263-278 | exactly which acknowledgements count and when the last one ends the blackhole |
| RouterPromises.PushPushes | core/router_algo.go:82-100 | for every neighbour, prefix and source, what a table push queues and lowers |
| RouterPromises.InTime | core/router_algo.go:102-138 | after expiry and recomputation every finite route is own and in time, or over a reachable neighbour whose finite advertisement is in time |
| RouterPromises.CollectCollects | core/router_algo.go:102-165 | the whole effect of garbage collection on stored routes, own prefixes, sources and routes |
| RouterSafety.EntryOrigin | core/router_algo.go:507-646 | after every computation a finite entry is an own prefix or costs exactly link, hop, transit and advertised metric over a reachable neighbour's feasible advertisement, which stays feasible exactly if the entry was not published at the advertised metric |
| RouterSafety.CostlyHopStaysFeasible | core/router_algo.go:507-646 | if link, hop and transit cost of each neighbour are not all zero and the metric is not saturated, the advertisement a finite entry was chosen from is feasible against the updated source table |
| RouterSafety.PushKeepsSupport | core/router_algo.go:82-100 | a table push keeps feasible every advertisement that a selected route was chosen from |
| RouterSafety.ReplyKeepsSupport | core/router_algo.go:190-194 | a reply to a sequence-number request keeps it feasible too |
| RouterSafety.ComputeKeepsDataplane | core/router_algo.go:628-667 | incremental installation keeps the forward and exit tables in agreement with the selected routes although unchanged prefixes are not reinstalled |
| RouterSafety.ForwardsAsSelected | core/router.go:116-147 | a prefix is forwarded live to a next hop if and only if its selected route is finite via that next hop |
| RouterSafety.LostRouteIsHeld | core/router_algo.go:649-667 | a finite route never vanishes in one computation: it stays finite or becomes an infinite entry with no acknowledgement |
| RouterSafety.DroppedWhen | core/router_algo.go:383-391 | an infinite entry disappears if and only if it has no own or learned replacement and it ended here, expired, or got as many acknowledgements as there are connected neighbours |
| RouterSafety.ConnectedCounts | core/router_algo.go:396-404 | the counter of connected neighbours is the number of different reachable neighbours |
| RouterSafety.ReleaseCounts | core/router_algo.go:383-391 | the count is reached if and only if the reachable neighbours that did not acknowledge are no more than the acknowledgements from others |
| RouterSafety.ReleasedByAnother | core/router_algo.go:383-391 | with one reachable neighbour that has not acknowledged and one unreachable neighbour that has, a held route is dropped before its time |
| RouterSafety.DroppedOnlyWhenAllAcked | core/router_algo.go:383-391 | if only reachable neighbours acknowledged, a held route dropped early without replacement was acknowledged by exactly the reachable neighbours |
| RouterSafety.ComputeKeepsAcks | core/router_algo.go:442-447 | a computation keeps acknowledgements distinct and from reachable neighbours |
| RouterSafety.AckRetractKeepsAcks | core/router_algo.go:263-278 | so does handling an acknowledgement from a reachable neighbour |
| BabelNetwork.HeightOrders | core/router_algo.go:59-80 | inside the window, better and no worse distances are the order of one integer |
| BabelNetwork.ForgettingKeepsInv | core/router_algo.go:143-164 | dropping unreferenced sources keeps the network invariant if and only if no finite advertisement of the dropped distance is queued, on the wire or stored, and no route leads over this router |
| BabelNetwork.StepKeepsInv | core/router_algo.go:27-668 | every step of every router keeps: finite adverts queued, in flight or stored are no better than their sender's distance, and the distance falls strictly along selected next hops |
| BabelNetwork.RunKeepsInv | core/router_algo.go:27-668 | the invariant holds in every state of every run |
| BabelNetwork.PathFalls | core/router_algo.go:393-668 | along a path of next hops the distance falls by at least one per hop |
| BabelNetwork.NoForwardingLoop | core/router_algo.go:27-668 | in no state of any run do the selected routes towards one source lead from a router back to itself |
| RouterActions.StepKeepsWellFormed | core/router_algo.go:27-668 | no event but a change of the environment makes a link free, disturbs the keys of a table or announces a prefix for another router |
| RouterActions.StepKeepsWindow | core/router_algo.go:27-668 | every event keeps all sequence numbers for a source inside a window, unless the source gives itself one outside it |
| RouterActions.SourceKeepsWindow | core/router_algo.go:206-209 | over every run all sequence numbers for a source stay in the window that its own ones stay in |
| RouterActions.OriginKeepsLoopsOut | core/router_algo.go:27-668 | loop freedom for every run in which the origin's own sequence numbers stay within half of the number space and no distance that others rely on is forgotten |
| RouterActions.AckRetractRun | core/router_algo.go:263-278 | handling an acknowledgement leads from a state of a run to a state of a run |
| RouterActions.SeqnoRequestRun | core/router_algo.go:177-261 | so does handling a sequence-number request |
| RouterActions.CollectRun | core/router_algo.go:102-165 | so does garbage collection |
| ForgottenSource.ForgettingMakesLoop | core/router_algo.go:102-165 | for any two routers and any link cost there is a run with one sequence number in which one announces a prefix, withdraws and forgets it, then hears the other's older advertisement, and both end up routing over each other |
| RouterRuns.StepKeepsDataplane | core/router_algo.go:27-668 | every kind of step keeps the dataplane in agreement with the selected routes |
| RouterRuns.RunKeepsDataplane | core/router_algo.go:628-667 | in every state of every run, at every router, packets are forwarded exactly as routes are selected |
| RouterRuns.StepHoldsLostRoute | core/router_algo.go:649-667 | no kind of step makes a finite route vanish; if it ends, the entry is its retraction |
| RouterRuns.SteadyRunKeepsAcks | core/router_algo.go:263-278 | over any stretch of a run in which the reachable set is stable and only its members acknowledge, acknowledgements stay distinct and from that set |
| RouterRuns.DropNeedsEveryAck | core/router_algo.go:383-391 | at the end of such a stretch an unexpired held route via another node is dropped without replacement only if exactly the reachable neighbours have acknowledged (section 3.5.4 of RFC 8966) |
| FakeTcpFrames.FramesOfFrameAll | polyamide/conn/fake_tcp.go:329-339 | payloads of at least the minimum length, framed one after the other, are read back unchanged and in order |
| FakeTcpFrames.FramesConcat | polyamide/conn/fake_tcp.go:329-339 | whole frames followed by data are whole frames exactly if the data is, and the frames are those of both in order |
| FakeTcpFrames.NextFrame | polyamide/conn/fake_tcp.go:329-339 | a frame is read exactly if its length is at least the minimum and within the data, and data is split behind it |
| FakeTcpFrames.CountFrames | polyamide/conn/fake_tcp.go:414-423 | counting succeeds exactly if the payload is nothing but whole frames, and counts all of them |
| FakeTcpFrames.Classify | polyamide/conn/fake_tcp.go:398-439 | only a non-empty suffix of the datagram that consists of whole frames is ever delivered as data |
| FakeTcpFrames.ReceiveFakeTcp | polyamide/conn/fake_tcp.go:398-439 | a datagram is a carrier exactly by its first two bytes, and gives its frames, all of them, exactly if it is no SYN, is accepted by its flow and holds nothing but whole frames |
| FakeTcpReceive.StreamAppend | polyamide/conn/bind_std.go:325-333 | the packets of a queue with one more datagram are those of the queue followed by those of the datagram |
| FakeTcpReceive.FakeTcpPending.Append | polyamide/conn/bind_std.go:325-333 | the queued stream grows by exactly the packets of the datagram |
| FakeTcpReceive.FakeTcpPending.Pop | polyamide/conn/bind_std.go:339-361 | taking one frame or datagram off removes exactly the first packet of the stream, also in the middle of a carrier |
| FakeTcpReceive.FakeTcpPending.Receive | polyamide/conn/bind_std.go:335-371 | packets handed out followed by packets still queued are the packets that were queued; a buffer stays empty exactly if the next packet does not fit into it, and it goes on until buffers or packets run out |
| FakeTcpBatch.FramesFit | polyamide/conn/bind_std.go:489-495 | true exactly if the frames fit together where they are kept and one by one where they will end up |
| FakeTcpBatch.Divide | polyamide/conn/bind_std.go:480-488 | a carrier is cut between two frames so that the first part has exactly as many frames as there is room for and both parts together are its frames in order |
| FakeTcpBatch.TakeCarrier | polyamide/conn/bind_std.go:466-507 | retaining, queueing or cutting a carrier adds exactly its frames to what is retained and then queued, and overwrites no buffer that is still to be read |
| FakeTcpBatch.TakePlain | polyamide/conn/bind_std.go:508-519 | the same for a plain datagram, with the bytes it had before anything moved |
| FakeTcpBatch.Compact | polyamide/conn/bind_std.go:456-520 | after the first pass the retained datagrams followed by the queue are the arrivals in order, and every retained datagram has room for its packets at their final places |
| FakeTcpExpand.UnreadSurvives | polyamide/conn/bind_std.go:542-547 | storing a frame over the buffer it was read from leaves all frames behind it unharmed |
| FakeTcpExpand.Cut | polyamide/conn/bind_std.go:539-547 | a carrier is cut into its frames at their final places even where the first of them is its own buffer |
| FakeTcpExpand.Expand | polyamide/conn/bind_std.go:527-548 | the backward pass puts exactly the packets of the retained datagrams into the buffers, in order, with sizes and endpoints |
| FakeTcpExpand.DeliveredPlaced | polyamide/conn/bind_std.go:527-551 | packets that are in place are what the caller reads from its buffers |
| FakeTcpReceiver.ReadBatch | polyamide/conn/bind_std.go:452-551 | for every batch, results followed by the queue are the plain datagrams and accepted frames in order of arrival |
| FakeTcpReceiver.Drain | polyamide/conn/bind_std.go:384-400 | while packets wait, what a call returns followed by the new queue is the old queue |
| FakeTcpReceiver.Refill | polyamide/conn/bind_std.go:403-551 | while none wait, what a call returns followed by the new queue is what it read |
| FakeTcpReceiver.Receiver.ReceiveIP | polyamide/conn/bind_std.go:373-551 | over any sequence of calls everything delivered so far followed by the queue is everything that arrived so far; a failed read changes nothing, and a socket closed while packets wait drops exactly those |
| FakeTcpFlow.NewerIsLater | polyamide/conn/fake_tcp.go:281-285 | the 32-bit comparison depends only on the distance of two stream positions and is their true order below 2^31 |
| FakeTcpFlow.HalfAwayLooksOlder | polyamide/conn/fake_tcp.go:281-285 | at exactly 2^31 a later position looks older, so the bound cannot be relaxed |
| FakeTcpFlow.PrepareFlow | polyamide/conn/fake_tcp.go:107-141 | a new flow waits with its own number; a handshake packet goes out exactly until the flow is established, with an acknowledgement exactly once a SYN was received |
| FakeTcpFlow.HandleFlow | polyamide/conn/fake_tcp.go:201-295 | for every state and packet: RST and FIN end the flow silently; it is established exactly if it was or the awaited acknowledgement came; data is delivered exactly by a packet with payload outside a handshake that leaves the flow established; which packets are answered, how; and how both numbers and the bytes owed change |
| FakeTcpFlow.SendFlow | polyamide/conn/fake_tcp.go:383-393 | each datagram gets one packet, numbered by all bytes before it, that acknowledges what was received; the own number moves by all of them and no acknowledgement is owed any more |
| FakeTcpFlow.HandleObeys | polyamide/conn/fake_tcp.go:201-295 | the machine of the handshake keeps these rules for every flow, packet and drawn number |
| FakeTcpFlow.DataPktsNumbered | polyamide/conn/fake_tcp.go:383-393 | the number of the packet for a datagram is that of the flow plus the bytes before it, modulo 2^32 |
| FakeTcpFlow.WrapSame | polyamide/conn/fake_tcp.go:281-285 | two positions have the same 32-bit number exactly if their distance is a multiple of 2^32 |
| FakeTcpTable.HandlesBounded | polyamide/conn/fake_tcp.go:211-219 | a carrier never makes the table exceed its limit |
| FakeTcpTable.OthersStay | polyamide/conn/fake_tcp.go:194-295 | a carrier changes no flow but that of its endpoint; other flows stay unless they are stale and have to make room |
| FakeTcpTable.OwnFlow | polyamide/conn/fake_tcp.go:194-295 | the endpoint's flow goes on as a flow by itself would, except that opening one in a table full of live flows is ignored |
| FakeTcpTable.HandlesServes | polyamide/conn/fake_tcp.go:194-295 | the same for the step function, for every table, endpoint and packet |
| FakeTcpTable.PreparesOwn | polyamide/conn/fake_tcp.go:105-141 | a handshake goes on as that of a flow by itself, and is refused exactly if the flow is new and the table is full of live flows |
| FakeTcpTable.FlowTable.Sweep | polyamide/conn/fake_tcp.go:175-188 | exactly the stale flows go, exactly if expiry is switched on and cleanup is due or forced |
| FakeTcpTable.FlowTable.FindFlow | polyamide/conn/fake_tcp.go:150-167 | an endpoint belongs to its own flow, or else, if it has an address, to the one opened without a source address for the same remote, interface and family |
| FakeTcpTable.FlowTable.ChooseFlow | polyamide/conn/fake_tcp.go:89-104 | an endpoint without a source address takes over the flow the other side opened that was seen last, in whatever order the table is searched |
| FakeTcpTable.FlowTable.PrepareFakeTcp | polyamide/conn/fake_tcp.go:86-141 | the whole operation with expiry, choice of the flow, limit and handshake; the limit is kept |
| FakeTcpTable.FlowTable.HandleFakeTcpPacket | polyamide/conn/fake_tcp.go:194-295 | after expiry the flow of the endpoint goes on by the rules of one flow, unless it would be one too many; its time is that of the last packet that it answered or that left it established; other flows stay but for stale ones in a full table; the limit is kept |
| FakeTcpTable.FlowTable.SendFakeTcpData | polyamide/conn/fake_tcp.go:376-396 | data is sent exactly on an established flow of the endpoint, and no other flow changes |
| FakeTcpPair.PreparesOk | polyamide/conn/fake_tcp.go:107-141 | opening from either side, also simultaneously, keeps a side consistent with its peer and sends consistent packets |
| FakeTcpPair.SynOk | polyamide/conn/fake_tcp.go:206-232 | so does any SYN, old, duplicated or crossing |
| FakeTcpPair.SynAckOk | polyamide/conn/fake_tcp.go:234-258 | so does any SYN with acknowledgement |
| FakeTcpPair.ReceivedOk | polyamide/conn/fake_tcp.go:276-295 | data moves the next expected number to the farthest position reached, whatever its order, if it is less than 2^31 bytes away |
| FakeTcpPair.SendsKeepsInv | polyamide/conn/fake_tcp.go:376-396 | sending any list of datagrams keeps the invariant of the pair |
| FakeTcpPair.StepKeepsInv | polyamide/conn/fake_tcp.go:73-396 | every step of either side keeps the invariant that ties flows and packets in flight to stream positions |
| FakeTcpPair.RunKeepsInv | polyamide/conn/fake_tcp.go:73-396 | it holds after every run with loss, duplication, reordering, merging and simultaneous open |
| FakeTcpPair.EstablishedIsInStream | polyamide/conn/fake_tcp.go:194-295 | an established side's next expected number lies between the peer's first and next byte, and both 32-bit counters stand for these positions |
| FakeTcpPair.NeverAcknowledgesUnsent | polyamide/conn/fake_tcp.go:194-396 | every acknowledgement in flight is for a position that the other side has reached in sending |
| FakeTcpPair.NeverRedraws | polyamide/conn/fake_tcp.go:206-232 | once a side has a flow, no packet of its peer makes it draw a new initial sequence number |
| FakeTcpHandshake.AckEstablishes | polyamide/conn/fake_tcp.go:262-271 | in every state of every run, an acknowledgement of everything sent, without payload or with the next one, establishes a side that has received a SYN |
| FakeTcpHandshake.SynAckEstablishes | polyamide/conn/fake_tcp.go:246-258 | a SYN that acknowledges everything sent establishes a waiting side, which answers with an acknowledgement of the peer's first byte |
| FakeTcpHandshake.ReachesOnlyEstablished | polyamide/conn/fake_tcp.go:272-295 | data counts as taken exactly if the side is established after a packet with payload outside a handshake |
| FakeTcpHandshake.StepKeepsOpen | polyamide/conn/fake_tcp.go:73-396 | every step keeps that only established sides send anything but SYN, and that one established first has acknowledged the other's SYN |
| FakeTcpHandshake.CanEstablish | polyamide/conn/fake_tcp.go:73-295 | every run in which a side has a flow, with whatever was delayed, duplicated, reordered or crossed, extends by steps to one with both sides established |
| FakeTcpHandshake.EstablishedExactlyBy | polyamide/conn/fake_tcp.go:206-271 | in every run, a side that has received a SYN is established by a packet of its peer if and only if that is a SYN with ACK, has no payload, or has the first payload of the stream |
| FakeTcpHandshake.LateSynAckIgnored | polyamide/conn/fake_tcp.go:234-245 | in every run, a handshake packet changes nothing at an established side that has sent data, unless that fills the 32-bit space |
| FakeTcpHandshake.CanRecover | polyamide/conn/fake_tcp.go:107-295 | from every reachable state with a flow, with all packets in flight lost, steps lead to both sides established, unless one side is established, has sent data and the other is not |
| FakeTcpHandshake.StaysBehind | polyamide/conn/fake_tcp.go:234-271 | in that case, over every continuation in which fewer than 2^32 bytes are sent, the other side is never established |
| AllowedIpsTrie.CommonBits | polyamide/device/allowedips.go:35-56 | the result is the length of the longest common prefix of two addresses |
| AllowedIpsTrie.Mask | polyamide/device/allowedips.go:73-78 | masking keeps the prefix and clears all bits behind it |
| AllowedIpsTrie.RootLeast | polyamide/device/allowedips.go:88-99 | the root is the shortest prefix of its address family and the only one of that length |
| AllowedIpsTrie.Chain | polyamide/device/allowedips.go:191-205 | of two entries that contain an address, the bit of the address at the shorter leads to the longer |
| AllowedIpsOps.AddLeafShaped | polyamide/device/allowedips.go:134-145 | hanging a new entry into a free slot keeps the trie well linked and prefixes growing downwards |
| AllowedIpsOps.InsertAboveShaped | polyamide/device/allowedips.go:152-188 | so does pushing an entry in above an existing one |
| AllowedIpsOps.UnlinkShaped | polyamide/device/allowedips.go:229-257 | so does replacing an entry by its only child or by nothing |
| AllowedIpsTable.SamePrefixSameEntry | polyamide/device/allowedips.go:88-99 | no prefix is stored by two entries |
| AllowedIpsTable.GivesTable | polyamide/device/allowedips.go:101-189 | an entry that comes to store a prefix changes the represented table at that prefix only |
| AllowedIpsTable.DropsTable | polyamide/device/allowedips.go:226-257 | an entry that stops storing one removes exactly that prefix |
| AllowedIpsTable.GivesLists | polyamide/device/allowedips.go:58-60 | appending to the owner's list keeps every peer's list exactly the entries it owns, each once |
| AllowedIpsTable.DropsLists | polyamide/device/allowedips.go:62-67 | so does removing from it |
| AllowedIpsTable.UnlinkTight | polyamide/device/allowedips.go:229-257 | unlinking leaves at most the parent as an entry without peer that does not branch |
| AllowedIps.PlacedIsAbsent | polyamide/device/allowedips.go:88-99 | where the walk reports no exact entry the prefix is not stored anywhere |
| AllowedIps.PlacedSplits | polyamide/device/allowedips.go:146-165 | the entry below the place parts from the new prefix strictly behind the parent and before its own end |
| AllowedIps.AllowedIpTable.NodePlacement | polyamide/device/allowedips.go:88-99 | the walk ends at the equal prefix, or at the longest shorter prefix that contains the new one |
| AllowedIps.AllowedIpTable.Insert | polyamide/device/allowedips.go:101-189 | the table afterwards is the table before with the masked prefix given to the peer, in all four cases of the insertion, with trie and lists consistent |
| AllowedIps.AllowedIpTable.RemoveEntry | polyamide/device/allowedips.go:226-257 | exactly the entry's prefix leaves the table, although up to two entries are unlinked |
| AllowedIps.AllowedIpTable.Remove | polyamide/device/allowedips.go:259-278 | the prefix is removed exactly if it is stored for this peer; otherwise nothing changes |
| AllowedIps.AllowedIpTable.RemoveByPeer | polyamide/device/allowedips.go:280-289 | exactly the prefixes of the peer disappear |
| AllowedIps.AllowedIpTable.Lookup | polyamide/device/allowedips.go:191-205 | the result is the peer of the longest stored prefix that contains the address, and none if there is no such prefix |
| AllowedIps.AllowedIpTable.EntriesForPeer | polyamide/device/allowedips.go:213-224 | lists exactly the prefixes the peer owns, each once |
| GraphOrder.SortIncreasing | state/pair.go:14-20 | sorting and compacting gives a strictly increasing list |
| GraphOrder.IncreasingUnique | state/pair.go:14-20 | a strictly increasing list is determined by its elements |
| GraphOrder.SortedPairSymmetric | state/config.go:388-394 | a pair does not depend on the order of its ends and is irreflexive for different ends |
| GraphSpec.GroupExpands | state/config.go:332-353 | a group stands for exactly what its members stand for |
| GraphSpec.RankedIsAcyclic | state/config.go:311-354 | groups that were taken out in some order do not contain each other in a circle |
| GraphSpec.StuckIsCyclic | state/config.go:322-329 | groups that all wait for each other contain a circle |
| GraphTopo.TakeFree | state/config.go:330-353 | taking any free group out and feeding it into its dependents keeps: expanded nodes plus waiting groups stand for the group |
| GraphTopo.AllDone | state/config.go:311-354 | when no group waits there is no circle and every expansion is complete |
| GraphTopo.NoneFree | state/config.go:322-329 | when groups wait and none is free there is a circle |
| GraphTopo.FindFree | state/config.go:314-321 | finds a group without dependencies, and reports the empty name exactly if the search fails or that is the name found |
| GraphTopo.Expand | state/config.go:311-354 | terminates, and succeeds exactly if no group contains itself and none has an empty name; then every expansion is complete and exact |
| Graph.CollectSymbols | state/config.go:236-256 | fails exactly if a definition is malformed or uses a node name; otherwise collects exactly nodes and groups |
| Graph.ParseSymbolList | state/config.go:181-199 | succeeds exactly if the list is not empty and has only symbols, and gives them sorted, each as often as it was written |
| Graph.Interconnect | state/config.go:299-305 | yields exactly the sorted pairs of entries at two different places of the line |
| Graph.ParseLines | state/config.go:263-309 | succeeds exactly on well-formed lines with each group defined once, and records the dependencies, own nodes and pairs they denote |
| Graph.Rewrite | state/config.go:356-385 | the sorted result has exactly the pairs of different nodes that the parsed pairs stand for |
| Graph.ParseGraph | state/config.go:229-386 | succeeds if and only if lines are well formed, groups are not circular and none has an empty name; the result is strictly increasing and has exactly the ordered pairs of nodes linked by full expansion |
| Graph.UnnamedGroupRejected | state/config.go:314-329 | a single definition of a group with an empty name is well formed and not circular, and still fails the condition |
| Graph.OneResult | state/config.go:313-321 | whichever free group is taken first, the result is the same list |
| Graph.GetPeers | state/config.go:396-422 | lists exactly the nodes linked to this one, each once |
| Graph.PeersSymmetric | state/config.go:396-422 | a node is a peer of each of its peers |
| Replay.PlacesApart | polyamide/replay/replay.go:42-59 | blocks less than a ring apart do not share a place |
| Replay.MovedOk | polyamide/replay/replay.go:43-52 | moving the window forward by any distance leaves every block of the ring showing exactly its accepted counters |
| Replay.MarkedOk | polyamide/replay/replay.go:56-61 | setting a bit changes no other counter of the window |
| Replay.Filter.Reset | polyamide/replay/replay.go:30-33 | the filter is empty afterwards whatever the ring held |
| Replay.Filter.ValidateCounter | polyamide/replay/replay.go:37-62 | accepts if and only if the counter is below the limit, was never accepted, and is above the largest accepted one or at most a window behind it; the accepted set grows by exactly the accepted counter |
| OnesComplement.OnesAdd | polyamide/tun/checksum.go:9-93 | folding a part of a sum early does not change the one's-complement sum |
| OnesComplement.LeValSum | polyamide/tun/checksum.go:9-84 | words read in the other byte order give the same sum up to a swap |
| Checksum.Add64 | polyamide/tun/checksum.go:16-32 | sum and carry together are the true sum |
| Checksum.AddWords | polyamide/tun/checksum.go:15-65 | a chain of 64-bit additions with carries stands for the 16-bit sum of all its bytes, and adding the last carry cannot overflow |
| Checksum.ChecksumNoFold | polyamide/tun/checksum.go:9-84 | for every byte string, initial value and byte order the 64-bit result has the one's-complement sum of initial value and 16-bit words |
| Checksum.FourFolds | polyamide/tun/checksum.go:86-93 | four folds bring every 64-bit number into 16 bits without changing its one's-complement sum |
| Checksum.ChecksumOf | polyamide/tun/checksum.go:86-93 | the result is the plain RFC 1071 sum whatever the machine's byte order |
| Checksum.PseudoHeaderNoFold | polyamide/tun/checksum.go:95-102 | the sum of the TCP and UDP pseudo header |
| CarrierFormat.FoldPayloadChecksum | polyamide/faketcp/carrier.go:22-50 | the result is the plain 16-bit one's-complement sum of the payload |
| CarrierFormat.MarshalFakeTcpPacket | polyamide/conn/fake_tcp.go:297-327 | the buffer holds header, flags or payload sum, and option or frame of the payload as it was before, also where it is written over the payload; that happens exactly if the payload's buffer is long enough, and otherwise that buffer is left alone |
| CarrierRewrite.TcpHeaderSum | polyamide/faketcp/transformer.c:258-268 | together with the checksum field it is the sum of all ten words of the header |
| CarrierRewrite.SubtractTcpHeader | polyamide/faketcp/transformer.c:270-281 | it takes all words but the checksum out of a sum, up to nine times 65535 |
| CarrierRewrite.CarrierHeaderSum | polyamide/faketcp/transformer.c:283-294 | together with the checksum field it is the sum of all ten words of the carrier header |
| CarrierRewrite.FinishMeans | polyamide/faketcp/transformer.c:166-174 | two folds suffice for every 32-bit sum, and the result is its negative, never zero |
| CarrierRewrite.TcpSum | polyamide/faketcp/transformer.c:296-320 | for both address families the accumulated sum is that of pseudo header, header, payload sum and options, without overflow |
| CarrierRewrite.TcpChecksumVerifies | polyamide/faketcp/transformer.c:296-320 | a segment whose checksum was built from the precomputed payload sum verifies |
| CarrierRewrite.EgressVerifies | polyamide/faketcp/transformer.c:339-420 | every marshalled carrier leaves as a TCP segment with its flags, numbers and body whose checksum verifies |
| CarrierRewrite.IngressSum | polyamide/faketcp/transformer.c:500-516 | the incremental sum differs from the carrier's own by a multiple of 65535 and what the segment's sum is off by |
| CarrierRewrite.IngressVerifies | polyamide/faketcp/transformer.c:434-532 | for every segment that is let in, the carrier's UDP checksum verifies if and only if the segment's TCP checksum did |
| CarrierRewrite.CarrierArrives | polyamide/faketcp/transformer.c:339-532 | through both rewriters a packet arrives with its flags, numbers and body and a UDP checksum that verifies |
| CarrierRewrite.EgressExactly | polyamide/faketcp/transformer.c:339-403 | byte for byte, which datagrams leave as segments, which are dropped and which pass: exactly those with the managed port, no checksum and the magic number are touched, and batched, mis-sized or empty non-ACK ones dropped |
| CarrierRewrite.IngressExactly | polyamide/faketcp/transformer.c:434-498 | exactly the segments to the managed port are touched, and exactly SYN in its two forms, payload with ACK, and empty ACK, FIN with ACK and RST become carriers |
| CarrierRewrite.BatchUnsummed | polyamide/faketcp/transformer.c:500-516 | a carrier made of a batch has its full length and no checksum |
| CarrierRewrite.Ipv4Verifies | polyamide/faketcp/transformer.c:246-256 | the recomputed IPv4 header verifies whatever protocol was put into it |
| CarrierDelivery.PayloadArrives | polyamide/conn/fake_tcp.go:297-439 | a payload of the least frame length or more, marshalled and sent through both rewriters, is read as exactly that payload |
| GsoCoalesce.BatchComesBack | polyamide/conn/bind_std.go:747-795 | cutting a message at its recorded size gives its datagrams back if and only if none behind the first is empty |
| GsoCoalesce.RoundTrip | polyamide/conn/bind_std.go:747-795 | cutting all messages gives all datagrams back in order if and only if no empty one was merged behind others, and never more datagrams |
| GsoCoalesce.CoalesceMessages | polyamide/conn/bind_std.go:747-795 | the messages are the buffers as the grouping function puts them together, within the datagram and payload limits and with equal sizes but for the last, and no group ends before it has to; cutting them gives all buffers back if and only if that grouping has no empty buffer behind others |
| GsoCoalesce.NonEmptyComeBack | polyamide/conn/bind_std.go:747-795 | non-empty buffers all come back, unchanged and in order |
| GsoCoalesce.EmptyMergedIsLost | polyamide/conn/bind_std.go:758-779 | given a buffer of one byte and an empty one, only the first is sent |
| GsoSplit.SegsAreCut | polyamide/conn/bind_std.go:805-835 | the pieces taken are those of the message if and only if the recorded size is not longer than the message |
| GsoSplit.CutCount | polyamide/conn/bind_std.go:816-819 | the rounded-up quotient is the number of pieces |
| GsoSplit.SplitOne | polyamide/conn/bind_std.go:816-842 | overflow is reported exactly if the datagrams so far need a slot behind the message; otherwise all are in place and later messages are untouched |
| GsoSplit.SplitCoalescedMessages | polyamide/conn/bind_std.go:799-844 | it stops at the first empty message or the first with unreadable control data, a size beyond its buffer or too many datagrams, and says which; without an error the first slots hold exactly the datagrams of the messages read, in order, as far as each fits, so no message is overwritten before it is read |
| NodeIds.AllocationOrdered | state/node_id_numeric.go:109-127 | unpinned nodes are numbered in the order of their names |
| NodeIds.AllocationUnique | state/node_id_numeric.go:91-127 | pins, range, distinctness and lowest free numbers in name order determine every number |
| NodeIds.SomeFree | state/node_id_numeric.go:116-119 | while a node has no number there is a free one, so the branch for a full number space cannot be taken |
| NodeIds.AssignPins | state/node_id_numeric.go:91-107 | succeeds exactly if all pins are in range and different, and then assigns exactly the pins |
| NodeIds.LowestFree | state/node_id_numeric.go:116-124 | the moving counter stops at the lowest free number of all, within the range |
| NodeIds.BuildNodeIdMap | state/node_id_numeric.go:56-129 | succeeds if and only if the nodes fit and the pins are in range and different; the result is an inverse pair of maps that honours pins and gives the others the lowest free numbers in name order |
| NodeIds.OrderDoesNotMatter | state/node_id_numeric.go:56-129 | a configuration with distinct names in any other order has the same nodes and pins, and gives every node the same number |
| NodeIds.LookupsInverse | state/node_id_numeric.go:133-149 | a name and its number find each other, and exactly the configured names have one |
| ExitPackets.PaddingIsCut | polyamide/device/traffic_manip.go:56-75 | parsing restores a packet that was padded |
| ExitPackets.LseRoundTrip | core/nylon_unicast.go:66-83 | decoding gives back every encoded label-stack entry whose fields fit (section 2.1 of RFC 3032) |
| ExitPackets.LseCountDown | core/nylon_unicast.go:312 | decrementing the last byte of an entry decrements its hop limit and nothing else |
| ExitTunnel.TransitKeeps | core/nylon_unicast.go:307-319 | at a transit node a wrapped packet is forwarded by its label and only counted down |
| ExitTunnel.ExitUnwraps | core/nylon_unicast.go:321-371 | at its exit an IP packet comes out as it went in |
| ExitTunnel.VerdictExactly | core/nylon_unicast.go:294-371 | for every framed packet and node: exactly when it is dropped, forwarded and to whom, or comes out as an IP packet or as the labels below, and with which bytes |
| ExitTunnel.JourneyDelivers | core/nylon_unicast.go:294-371 | after any number of padded transits below the hop limit the packet comes out at its exit byte for byte |
| ExitTunnel.TunnelRoundTrip | core/nylon_unicast.go:212-371 | the same from the wrapping at the origin, for every exit id |
| ExitTunnel.HopLimitBounds | core/nylon_unicast.go:294-319 | whatever the forwarding tables say, even in a loop, a packet is forwarded at most as often as its hop limit says |
| ExitTunnel.ForwardsExactly | core/nylon_unicast.go:307-319 | where every node knows the exit, it is forwarded exactly as often as there are nodes, or hops left |
| ExitElement.TcElement.ParsePacket | polyamide/device/traffic_manip.go:56-75 | the window on the buffer becomes the packet its header describes; where the header does not allow it the packet stays; its length is read from the IPv4 total length, the IPv6 payload length or the tunnel header, in 16 bits |
| ExitElement.TcElement.WrapExitPacket | core/nylon_unicast.go:212-239 | sliding the packet within its own buffer and writing the headers gives the framed packet; it fails exactly for the invalid exit and where header and packet do not fit, and then the packet is unchanged |
| ExitElement.TcElement.HandleMplsPacket | core/nylon_unicast.go:294-371 | verdict and packet left in the buffer are those of the handler on values, although moves overlap |
| ExitElement.TcElement.FrameMplsUnicast | polyamide/device/traffic_manip.go:33-48 | a label stack read from the TUN is framed in place to a packet whose header describes it completely, or left as it is |
| ExitElement.MplsFrameExact | polyamide/device/traffic_manip.go:33-48 | the frame's header gives its length and the stack follows it |
| HopLimit.DecrementTtl | polyamide/device/traffic_manip.go:235-247 | the hop limit, and for IPv4 the checksum, are adjusted in place and no other byte changes |
| HopLimit.CountHop | core/nylon_tc.go:133-150 | outgoing and non-IP packets pass unchanged; others are bounced exactly with one hop left or none, count one down if there is one, and change in no byte but the hop limit and the IPv4 checksum |
| HopLimit.FilterKeepsChecksum | core/nylon_tc.go:133-150 | for every IPv4 packet, with or without options, the filter leaves the header checksum as right or wrong as it was |
| HopLimit.PassesExactly | core/nylon_tc.go:133-150 | routers in a row pass a packet on exactly one time fewer than its hop limit says |
| HopLimit.ChecksumKept | polyamide/device/traffic_manip.go:235-247 | with a hop left the one's-complement sum of a header of any length does not change |
| HopLimit.ChecksumLost | core/nylon_tc.go:138-141 | why the filter must test the hop limit first: with none left, a header that verified would not any more |
| TrafficSpec.Decide | polyamide/device/traffic_control.go:120-140 | the filters always come to a decision other than to pass |
| TrafficSpec.Final | polyamide/device/traffic_control.go:120-164 | only packets with a peer are forwarded |
| TrafficSpec.FinalRules | polyamide/device/traffic_control.go:120-164 | for every list of filters and packet there is a chain of packets along which the filters, from the last one down, pass without error until the first that does not, whose ruling counts; errors, Forward without a peer, and a packet that all pass are dropped, and a malformed one is dropped unasked |
| TrafficSpec.RuledOnce | polyamide/device/traffic_control.go:120-164 | there is only one such outcome |
| TrafficSpec.WithLists | polyamide/device/traffic_control.go:118-164 | the packets of one outcome are exactly those of the batch with it, in order of arrival and as their filters left them |
| TrafficSpec.EachDecidedOnce | polyamide/device/traffic_control.go:118-164 | every buffer of a batch belongs to exactly one of drop, bounce and forward, as often as it came |
| TrafficSpec.PickNext | polyamide/device/traffic_control.go:201-211 | sorting by priority loses and duplicates no packet of a peer |
| TrafficSpec.RunningOrStranded | polyamide/device/traffic_control.go:213-240 | every forwarded packet is staged or freed, exactly one of the two |
| TrafficSpec.ForPeerOrdered | polyamide/device/traffic_control.go:201-211 | what a peer gets are all packets for it and no others, sorted stably by falling priority |
| TrafficControl.Device.RunFilters | polyamide/device/traffic_control.go:119-140 | the loop over the filters, last installed first, gives the outcome of the first filter that errs or does not pass the packet handed down to it |
| TrafficControl.Device.Classify | polyamide/device/traffic_control.go:118-164 | dropped packets are freed, bounced ones queued, and forwarded ones ranked, each in order of arrival |
| TrafficControl.Device.FlushBounced | polyamide/device/traffic_control.go:166-199 | all bounced packets are written once, in order, and freed, and the queue is empty |
| TrafficControl.Device.Distribute | polyamide/device/traffic_control.go:201-211 | each peer's list has its packets by falling priority and then arrival, and the priority queues are empty |
| TrafficControl.Device.StageAll | polyamide/device/traffic_control.go:213-240 | in whatever order peers are visited, running peers get their lists and the packets of the others are freed |
| TrafficControl.Device.TcBatch | polyamide/device/traffic_control.go:117-241 | what is written, staged and freed, where the written and staged packets are those ruled to be so, in order of arrival; if filters do not exchange buffers, each buffer is freed or staged for a running peer exactly as often as it came; the scratch state is empty again |
| TrafficControl.BuffersConserved | polyamide/device/traffic_control.go:117-241 | every buffer of a batch is dropped, bounced, stranded or for a running peer exactly as often as it came |
| TrafficControl.StagedGrowth | polyamide/device/traffic_control.go:213-240 | the queues of some running peers together grow by exactly the packets for them |
| TrafficControl.BatchConserves | polyamide/device/traffic_control.go:117-241 | the growth of what is freed and of what is staged over all running peers is the batch, buffer by buffer |
| TokenBucket.IdleIsFresh | polyamide/ratelimiter/ratelimiter.go:84-97 | an entry idle long enough to be collected acts like one that was never there |
| TokenBucket.Ratelimiter.Allow | polyamide/ratelimiter/ratelimiter.go:99-137 | a packet is accepted exactly if its address is new or its tokens and the time since its last packet exceed the cost of one; the entry is left with what remains, up to the limit, and no other entry changes |
| TokenBucket.Ratelimiter.Cleanup | polyamide/ratelimiter/ratelimiter.go:84-97 | exactly the entries idle for longer than the limit go, and an empty table is reported |
| TokenBucket.CleanupIsInvisible | polyamide/ratelimiter/ratelimiter.go:84-137 | over every run with cleanups at any times the answers are those without cleanups |
| TokenBucket.Paid | polyamide/ratelimiter/ratelimiter.go:99-137 | accepted packets cost less than the tokens at the start and the time since |
| TokenBucket.WindowBound | polyamide/ratelimiter/ratelimiter.go:84-137 | in any part of any run the accepted packets cost less than the burst allowance and the length of the part |
| TokenBucket.AnsweredAlone | polyamide/ratelimiter/ratelimiter.go:84-137 | over every run of calls for all addresses, an address is answered as if it were alone |
| TokenBucket.AddressBound | polyamide/ratelimiter/ratelimiter.go:84-137 | in any stretch of calls, what is accepted from one address costs less than the burst allowance and the length of the stretch |
| TokenBucket.AcceptedExactly | polyamide/ratelimiter/ratelimiter.go:99-137 | all packets of an address are accepted if and only if every stretch of them costs less than the burst allowance and its length, and the tokens at the start and the time since pay for the first ones |
| TokenBucket.NewAddressServed | polyamide/ratelimiter/ratelimiter.go:84-137 | among calls for any addresses and cleanups, all packets of a new address are accepted if and only if every stretch of them costs less than the burst allowance and its length |

## Left out

- BabelNetwork.NoForwardingLoop: speaks of routes towards one source whose metrics are not saturated, with the sequence numbers in use for it within half of the number space at any time, links that are not free, and sources forgotten only when nobody relies on them; router restarts, which forget everything, are not part of a run.
- RouterRuns.DropNeedsEveryAck: assumes that the set of reachable neighbours stays the same and that only its members acknowledge, since the code counts acknowledgements (`RouterSafety.ReleaseCounts` says what the count means without that).
- FakeTcpHandshake.CanEstablish: packets stay in the network, so any of them may still arrive; `FakeTcpHandshake.CanRecover` is about their loss.
- FakeTcpPair.StepKeepsInv: no RST, FIN or expiry of flows and one flow per side; data received ends less than 2^31 bytes away from what was reached; payload bytes are represented by their lengths.
- FakeTcpReceiver.Receiver.ReceiveIP: the path with fake TCP switched off is not modelled; endpoints are values.
- GsoCoalesce.CoalesceMessages: buffers are values with a capacity; appending into the memory of the first buffer is not modelled.
- AllowedIps.AllowedIpTable.Insert: addresses are sequences of bits and entries are identified by numbers; packing into bytes and the reuse of memory are not modelled.
- Replay.Filter.ValidateCounter: a block is 64 bits in a sequence, not a machine word, and counters are unbounded.
- Checksum.AddWords: a loop for the steps that the original writes out.
- TokenBucket.Ratelimiter.Allow: one atomic step; the locks, the overflow of a very long idle time in 64 bits and the ticker that starts and stops cleanup are not modelled.
- TrafficControl.Device.TcBatch: filters are functions of one packet without memory; the parsing check is an input; errors of the TUN device and the pools of elements are not modelled.
- CarrierRewrite.EgressVerifies: `parse_packet` and the packet-store helpers of the kernel are not modelled; the transport part of the packet is given.
- NodeIds.BuildNodeIdMap: the branch for a full number space is proved unreachable and not written.
- Graph.ParseGraph: lines come split at commas and equals signs, trimmed and in lower case.
- Router.RouterNode.HandleSeqnoRequest: the pending-request cache that suppresses repeated requests in core/router.go is not modelled.
- Router.RouterNode.HandleNeighbourUpdate: the neighbour must be a known one, which the callers in core/router.go check before.
- FakeTcpTable.FlowTable.PrepareFakeTcp: whether fake TCP is switched on and the socket is open, and failures to send, are not modelled.
- ExitElement.TcElement.WrapExitPacket: buffers are shorter than 65536 bytes, as they are on every platform.
- Router.RouterNode.ComputeRoutes: smoothed metrics are real numbers, so rounding of floating point is not modelled; log events are left out.
- `SolveStarvation`, passive clients, the system route table and the protocol messages of core/router.go: plumbing around the router.
- Link costs, endpoint delay filters and endpoint selection: inputs of the router.
- Sockets, netlink, TUN devices, platform variants and eBPF loading: input and output.
- Noise handshake, cookies, encryption, signing and bundles: cryptographic libraries.
- Configuration files, command line, IPC and logging: presentation.
- GRO and segmentation in polyamide/tun/offload_linux.go: very large, and the UDP offload pair in polyamide/conn/bind_std.go has the same kind of theorem.
